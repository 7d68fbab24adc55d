/** Go's sized integers: wrap-around at a type's width, and the exact integer
    arithmetic of constant expressions.  Bitwise operations on negative numbers
    are two's complement with an infinite sign extension. */
module Integers {

  function Pow2(n: nat): (r: nat)
    ensures r >= 1
  {
    if n == 0 then 1 else 2 * Pow2(n - 1)
  }

  lemma Pow2Add(a: nat, b: nat)
    ensures Pow2(a + b) == Pow2(a) * Pow2(b)
  {
    if a > 0 {
      Pow2Add(a - 1, b);
    }
  }

  lemma Powers()
    ensures Pow2(7) == 0x80 && Pow2(8) == 0x100 && Pow2(15) == 0x8000 && Pow2(16) == 0x1_0000
    ensures Pow2(20) == 0x10_0000 && Pow2(31) == 0x8000_0000 && Pow2(32) == 0x1_0000_0000
    ensures Pow2(40) == 0x100_0000_0000
    ensures Pow2(63) == 0x8000_0000_0000_0000 && Pow2(64) == 0x1_0000_0000_0000_0000
  {
    assert Pow2(8) == 0x100;
    Pow2Add(7, 8);
    Pow2Add(8, 8);
    Pow2Add(16, 4);
    Pow2Add(15, 16);
    Pow2Add(16, 16);
    Pow2Add(20, 20);
    Pow2Add(31, 32);
    Pow2Add(32, 32);
  }

  type Width = b: nat | b == 8 || b == 16 || b == 32 || b == 64 witness 8

  /** A basic integer type: its width and signedness. */
  datatype IntTy = IntTy(bits: Width, signed: bool)

  function Lo(t: IntTy): int {
    if t.signed then -(Pow2(t.bits - 1) as int) else 0
  }

  function Hi(t: IntTy): int {
    if t.signed then Pow2(t.bits - 1) - 1 else Pow2(t.bits) - 1
  }

  predicate InRange(t: IntTy, n: int) {
    Lo(t) <= n <= Hi(t)
  }

  /** The representative of n modulo m that a type with m values holds. */
  function Norm(m: nat, signed: bool, n: int): int
    requires m > 0
  {
    if signed && 2 * (n % m) >= m then n % m - m else n % m
  }

  /** The value of type t congruent to n modulo 2^bits. */
  function Wrap(t: IntTy, n: int): int {
    Norm(Pow2(t.bits), t.signed, n)
  }

  /** a and b agree in their low w bits. */
  predicate Cong(w: nat, a: int, b: int) {
    (a - b) % Pow2(w) == 0
  }

  lemma CongWitness(w: nat, a: int, b: int) returns (k: int)
    requires Cong(w, a, b)
    ensures a == b + k * Pow2(w)
  {
    k := (a - b) / Pow2(w);
  }

  lemma MultipleBounds(k: int, m: int)
    requires m > 0
    ensures k >= 1 ==> k * m >= m
    ensures k <= -1 ==> k * m <= -m
  {
  }

  lemma MultipleIsZeroMod(k: int, m: int)
    requires m > 0
    ensures (k * m) % m == 0
  {
    var q := k * m / m;
    assert (k - q) * m == (k * m) % m by { assert k * m == q * m + (k * m) % m; }
    MultipleBounds(k - q, m);
  }

  lemma CongIntro(w: nat, a: int, b: int, k: int)
    requires a == b + k * Pow2(w)
    ensures Cong(w, a, b)
  {
    MultipleIsZeroMod(k, Pow2(w));
  }

  lemma NormShape(m: nat, signed: bool, n: int) returns (k: int)
    requires m > 0
    ensures Norm(m, signed, n) == n + k * m
    ensures if signed then 0 - m <= 2 * Norm(m, signed, n) < m else 0 <= Norm(m, signed, n) < m
  {
    var q := n / m;
    assert n == q * m + n % m;
    assert (-q - 1) * m == -(q * m) - m && (-q) * m == -(q * m);
    k := if signed && 2 * (n % m) >= m then -q - 1 else -q;
  }

  /** Wrapping picks the one representative of n's residue class that t holds. */
  lemma WrapSpec(t: IntTy, n: int)
    ensures InRange(t, Wrap(t, n))
    ensures Cong(t.bits, Wrap(t, n), n)
  {
    var k := NormShape(Pow2(t.bits), t.signed, n);
    assert Pow2(t.bits) == 2 * Pow2(t.bits - 1);
    CongIntro(t.bits, Wrap(t, n), n, k);
  }

  lemma ResidueUnique(m: int, a: int, b: int, k: int)
    requires m > 0 && a == b + k * m
    requires -m < a - b < m
    ensures a == b
  {
    MultipleBounds(k, m);
  }

  /** A type holds at most one value of a residue class. */
  lemma CongInRange(t: IntTy, a: int, b: int)
    requires InRange(t, a) && InRange(t, b) && Cong(t.bits, a, b)
    ensures a == b
  {
    assert Pow2(t.bits) == 2 * Pow2(t.bits - 1);
    var k := CongWitness(t.bits, a, b);
    ResidueUnique(Pow2(t.bits), a, b, k);
  }

  lemma WrapId(t: IntTy, n: int)
    requires InRange(t, n)
    ensures Wrap(t, n) == n
  {
    WrapSpec(t, n);
    CongInRange(t, Wrap(t, n), n);
  }

  lemma CongTrans(w: nat, a: int, b: int, c: int)
    requires Cong(w, a, b) && Cong(w, b, c)
    ensures Cong(w, a, c) && Cong(w, c, a)
  {
    var i := CongWitness(w, a, b);
    var j := CongWitness(w, b, c);
    var m := Pow2(w);
    assert (i + j) * m == i * m + j * m && (-i - j) * m == -(i * m) - j * m;
    CongIntro(w, a, c, i + j);
    CongIntro(w, c, a, -i - j);
  }

  lemma WrapCong(t: IntTy, a: int, b: int)
    requires Cong(t.bits, a, b)
    ensures Wrap(t, a) == Wrap(t, b)
  {
    WrapSpec(t, a);
    WrapSpec(t, b);
    CongTrans(t.bits, Wrap(t, a), a, b);
    CongTrans(t.bits, Wrap(t, b), b, b) by { CongIntro(t.bits, b, b, 0); }
    CongTrans(t.bits, Wrap(t, a), b, Wrap(t, b));
    CongInRange(t, Wrap(t, a), Wrap(t, b));
  }

  /** Go's / truncates toward zero; % takes the sign of the dividend. */
  function QuoTrunc(a: int, b: int): int
    requires b != 0
  {
    if a >= 0 then a / b else -((-a) / b)
  }

  function RemTrunc(a: int, b: int): int
    requires b != 0
  {
    a - QuoTrunc(a, b) * b
  }

  /** The bitwise operations, as a table on two bits. */
  datatype BitOp = BAnd | BOr | BXor | BAndNot

  function Bit(op: BitOp, x: int, y: int): (r: int)
    ensures r == 0 || r == 1
  {
    match op
    case BAnd => if x == 1 && y == 1 then 1 else 0
    case BOr => if x == 1 || y == 1 then 1 else 0
    case BXor => if x != y then 1 else 0
    case BAndNot => if x == 1 && y != 1 then 1 else 0
  }

  function Abs(x: int): nat { if x < 0 then -x else x }

  function Bits(op: BitOp, x: int, y: int): int
    decreases Abs(x) + Abs(y)
  {
    if (x == 0 || x == -1) && (y == 0 || y == -1) then -Bit(op, -x, -y)
    else 2 * Bits(op, x / 2, y / 2) + Bit(op, x % 2, y % 2)
  }

  lemma BitsStep(op: BitOp, x: int, y: int)
    ensures Bits(op, x, y) == 2 * Bits(op, x / 2, y / 2) + Bit(op, x % 2, y % 2)
  {
  }

  lemma HalvesCong(w: nat, x: int, x': int)
    requires w > 0 && Cong(w, x, x')
    ensures x % 2 == x' % 2
    ensures Cong(w - 1, x / 2, x' / 2)
  {
    var k := CongWitness(w, x, x');
    var h := k * Pow2(w - 1);
    assert k * Pow2(w) == 2 * h by { assert Pow2(w) == 2 * Pow2(w - 1); }
    assert x == x' + 2 * h;
    assert x / 2 == x' / 2 + h;
    CongIntro(w - 1, x / 2, x' / 2, k);
  }

  lemma DoubleCong(w: nat, a: int, a': int, b: int)
    requires w > 0 && Cong(w - 1, a, a')
    ensures Cong(w, 2 * a + b, 2 * a' + b)
  {
    var k := CongWitness(w - 1, a, a');
    assert 2 * (k * Pow2(w - 1)) == k * (2 * Pow2(w - 1));
    CongIntro(w, 2 * a + b, 2 * a' + b, k);
  }

  /** The low w bits of a bitwise operation depend on the low w bits of its
      operands only. */
  lemma {:induction false} BitsCong(w: nat, op: BitOp, x: int, x': int, y: int, y': int)
    requires Cong(w, x, x') && Cong(w, y, y')
    ensures Cong(w, Bits(op, x, y), Bits(op, x', y'))
  {
    if w == 0 {
      assert Pow2(0) == 1;
    } else {
      HalvesCong(w, x, x');
      HalvesCong(w, y, y');
      BitsCong(w - 1, op, x / 2, x' / 2, y / 2, y' / 2);
      BitsStep(op, x, y);
      BitsStep(op, x', y');
      DoubleCong(w, Bits(op, x / 2, y / 2), Bits(op, x' / 2, y' / 2), Bit(op, x % 2, y % 2));
    }
  }

  lemma AddCong(w: nat, a: int, a': int, b: int, b': int)
    requires Cong(w, a, a') && Cong(w, b, b')
    ensures Cong(w, a + b, a' + b')
    ensures Cong(w, a - b, a' - b')
  {
    var i := CongWitness(w, a, a');
    var j := CongWitness(w, b, b');
    var m := Pow2(w);
    assert (i + j) * m == i * m + j * m;
    assert (i - j) * m == i * m - j * m;
    CongIntro(w, a + b, a' + b', i + j);
    CongIntro(w, a - b, a' - b', i - j);
  }

  lemma MulCong(w: nat, a: int, a': int, b: int, b': int)
    requires Cong(w, a, a') && Cong(w, b, b')
    ensures Cong(w, a * b, a' * b')
  {
    var i := CongWitness(w, a, a');
    var j := CongWitness(w, b, b');
    var m := Pow2(w);
    calc {
      a * b;
      (a' + i * m) * (b' + j * m);
      a' * b' + a' * (j * m) + (i * m) * b' + (i * m) * (j * m);
      a' * b' + (a' * j) * m + (i * b') * m + (i * m * j) * m;
      a' * b' + (a' * j + i * b' + i * m * j) * m;
    }
    CongIntro(w, a * b, a' * b', a' * j + i * b' + i * m * j);
  }

  lemma CongRefl(w: nat, a: int)
    ensures Cong(w, a, a)
  {
    CongIntro(w, a, a, 0);
  }
}
