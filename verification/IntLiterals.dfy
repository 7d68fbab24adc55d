/** The integer-literal operator's arithmetic: which replacement values a
    literal gets, and when a literal inside a constant expression may become
    non-constant without changing that expression's value. */
module IntLiterals {
  import opened Integers
  import opened Seqs

  const MAX_INT64: int := 0x7FFF_FFFF_FFFF_FFFF
  const INT64: IntTy := IntTy(64, true)

  /** A literal's basic integer type.  The width of int, uint and uintptr is
      the target's. */
  datatype Kind = Sized(t: IntTy) | PlainInt | PlainUint

  type Word = w: Width | w == 32 || w == 64 witness 32

  function OnTarget(k: Kind, word: Word): IntTy {
    match k
    case Sized(t) => t
    case PlainInt => IntTy(word, true)
    case PlainUint => IntTy(word, false)
  }

  /** The bounds a literal n of kind k is mutated within: a word-sized type
      counts as 32 bits unless n needs 64, and everything is clamped to int64. */
  function Bounds(k: Kind, n: int): (int, int) {
    var t := match k
      case Sized(t) => t
      case PlainInt => IntTy(if InRange(IntTy(32, true), n) then 32 else 64, true)
      case PlainUint => IntTy(if InRange(IntTy(32, false), n) then 32 else 64, false);
    if t == IntTy(64, false) then (0, MAX_INT64) else (Lo(t), Hi(t))
  }

  function Consider(n: int, lo: int, hi: int, out: seq<int>, v: int): seq<int> {
    if v == n || v in out || v < lo || v > hi then out else out + [v]
  }

  function ConsiderAll(n: int, lo: int, hi: int, vs: seq<int>): seq<int> {
    if vs == [] then []
    else Consider(n, lo, hi, ConsiderAll(n, lo, hi, vs[..|vs| - 1]), vs[|vs| - 1])
  }

  /** The five values tried, in order; n+1 is computed in an int64. */
  function Tried(n: int): seq<int> {
    [0, 1, -n, Wrap(INT64, n + 1), n - 1]
  }

  /** The mutant values of the literal token n (which is never negative). */
  function MutantValues(n: int, k: Kind): seq<int> {
    var (lo, hi) := Bounds(k, n);
    if n > MAX_INT64 || n > hi then [] else ConsiderAll(n, lo, hi, Tried(n))
  }

  lemma {:induction false} ConsiderAllSpec(n: int, lo: int, hi: int, vs: seq<int>)
    ensures forall v :: v in ConsiderAll(n, lo, hi, vs) <==> v in vs && v != n && lo <= v <= hi
    ensures Distinct(ConsiderAll(n, lo, hi, vs))
  {
    if vs != [] {
      var init, last := vs[..|vs| - 1], vs[|vs| - 1];
      ConsiderAllSpec(n, lo, hi, init);
      var before := ConsiderAll(n, lo, hi, init);
      if last !in before {
        DistinctSnoc(before, last);
      }
      assert vs == init + [last];
      assert forall v :: v in vs <==> v in init || v == last;
    }
  }

  /** The source's form of MutantValues: a growing slice and a set of what is
      in it. */
  method IntLitMutants(n: int, k: Kind) returns (out: seq<int>)
    ensures out == MutantValues(n, k)
    ensures Distinct(out) && n !in out
  {
    out := [];
    var (lo, hi) := Bounds(k, n);
    if n > MAX_INT64 || n > hi {
      return;
    }
    var seen := {n};
    var vs := Tried(n);
    for i := 0 to |vs|
      invariant forall v :: v in seen <==> v == n || v in out
      invariant out == ConsiderAll(n, lo, hi, vs[..i])
    {
      ghost var upTo := vs[..i + 1];
      assert upTo[..i] == vs[..i] && upTo[i] == vs[i];
      assert ConsiderAll(n, lo, hi, upTo) == Consider(n, lo, hi, out, vs[i]);
      if !(vs[i] in seen || vs[i] < lo || vs[i] > hi) {
        seen := seen + {vs[i]};
        out := out + [vs[i]];
      }
    }
    assert vs[..|vs|] == vs;
    ConsiderAllSpec(n, lo, hi, vs);
  }

  function Documented(n: int): set<int> {
    {0, 1, -n, n + 1, n - 1}
  }

  ghost predicate ExactlyDocumented(out: seq<int>, n: int, lo: int, hi: int) {
    forall v :: v in out <==> v in Documented(n) && v != n && lo <= v <= hi
  }

  lemma RangeTable(t: IntTy)
    ensures t.bits == 64 && t.signed ==> Lo(t) == -MAX_INT64 - 1 && Hi(t) == MAX_INT64
    ensures t.bits == 64 && !t.signed ==> Lo(t) == 0 && Hi(t) == 0xFFFF_FFFF_FFFF_FFFF
    ensures t.bits == 32 && t.signed ==> Lo(t) == -0x8000_0000 && Hi(t) == 0x7FFF_FFFF
    ensures t.bits == 32 && !t.signed ==> Lo(t) == 0 && Hi(t) == 0xFFFF_FFFF
    ensures t.bits < 32 ==> -0x8000 <= Lo(t) <= 0 && Hi(t) <= 0xFFFF
  {
    Powers();
  }

  lemma BoundsFacts(n: int, k: Kind)
    ensures var (lo, hi) := Bounds(k, n);
            lo <= 0 && hi <= MAX_INT64 && (lo == -MAX_INT64 - 1 || lo >= -0x8000_0000)
  {
    match k
    case Sized(t) => RangeTable(t);
    case PlainInt =>
      RangeTable(IntTy(32, true));
      RangeTable(IntTy(64, true));
    case PlainUint => RangeTable(IntTy(32, false));
  }

  lemma NextInt64(n: int)
    requires 0 <= n <= MAX_INT64
    ensures Wrap(INT64, n + 1) == if n == MAX_INT64 then -MAX_INT64 - 1 else n + 1
  {
    Powers();
    if n == MAX_INT64 {
      assert -MAX_INT64 - 1 == (n + 1) + (-1) * Pow2(64);
      CongIntro(64, -MAX_INT64 - 1, n + 1, -1);
      WrapSpec(INT64, n + 1);
      CongIntro(64, n + 1, -MAX_INT64 - 1, 1);
      CongTrans(64, Wrap(INT64, n + 1), n + 1, -MAX_INT64 - 1);
      CongInRange(INT64, Wrap(INT64, n + 1), -MAX_INT64 - 1);
    } else {
      WrapId(INT64, n + 1);
    }
  }

  lemma ExactWithin(n: int, lo: int, hi: int)
    requires 0 <= n <= hi <= MAX_INT64
    requires lo <= 0 && (lo == -MAX_INT64 - 1 || lo >= -0x8000_0000)
    ensures ExactlyDocumented(ConsiderAll(n, lo, hi, Tried(n)), n, lo, hi)
            <==> !(n == MAX_INT64 && lo == -MAX_INT64 - 1)
  {
    NextInt64(n);
    ConsiderAllSpec(n, lo, hi, Tried(n));
    var w := Wrap(INT64, n + 1);
    assert forall v :: v in Tried(n) <==> v == 0 || v == 1 || v == -n || v == w || v == n - 1;
    if n == MAX_INT64 && lo == -MAX_INT64 - 1 {
      assert w in ConsiderAll(n, lo, hi, Tried(n)) && w !in Documented(n);
    }
  }

  /** Within the bounds the operator works with, the emitted values are the
      documented ones unless n+1 wraps. */
  lemma ExactInBounds(n: int, k: Kind)
    requires 0 <= n <= Bounds(k, n).1
    ensures var (lo, hi) := Bounds(k, n);
            ExactlyDocumented(MutantValues(n, k), n, lo, hi)
            <==> !(n == MAX_INT64 && lo == -MAX_INT64 - 1)
  {
    var (lo, hi) := Bounds(k, n);
    BoundsFacts(n, k);
    assert MutantValues(n, k) == ConsiderAll(n, lo, hi, Tried(n));
    ExactWithin(n, lo, hi);
  }

  /** The emitted values are the documented ones that the literal's type can
      represent. */
  ghost predicate ExactForType(n: int, k: Kind, word: Word) {
    var t := OnTarget(k, word);
    ExactlyDocumented(MutantValues(n, k), n, Lo(t), Hi(t))
  }

  /** Where the operator's bounds leave n and n+1 room, as the type does. */
  predicate Roomy(n: int, k: Kind, word: Word) {
    && n < MAX_INT64
    && !(k == PlainInt && word == 64 && n == 0x7FFF_FFFF)
    && !(k == PlainUint && word == 64 && n == 0xFFFF_FFFF)
  }

  /** The bounds cut no documented value off, except n+1 at their upper end. */
  lemma BoundsAgainstType(n: int, k: Kind, word: Word)
    requires 0 <= n < MAX_INT64 && InRange(OnTarget(k, word), n)
    ensures var ((lo, hi), t) := (Bounds(k, n), OnTarget(k, word));
            && n <= hi
            && (forall v :: v in Documented(n) && v != n + 1 ==> (lo <= v <= hi <==> InRange(t, v)))
            && (lo <= n + 1 <= hi <==> InRange(t, n + 1) && Roomy(n, k, word))
            && (Roomy(n, k, word) || InRange(t, n + 1))
  {
    RangeTable(OnTarget(k, word));
    RangeTable(IntTy(32, true));
    RangeTable(IntTy(32, false));
    RangeTable(IntTy(64, true));
    Narrow(k, n);
  }

  lemma Narrow(k: Kind, n: int)
    ensures k.Sized? ==> RangeOf(k.t, Bounds(k, n))
  {
    if k.Sized? {
      RangeTable(k.t);
    }
  }

  predicate RangeOf(t: IntTy, bounds: (int, int)) {
    bounds.0 == Lo(t) && bounds.1 == if t == IntTy(64, false) then MAX_INT64 else Hi(t)
  }

  /** Two ranges that agree on every documented value but n+1. */
  lemma OtherRange(out: seq<int>, n: int, lo: int, hi: int, lo': int, hi': int)
    requires ExactlyDocumented(out, n, lo, hi)
    requires forall v :: v in Documented(n) && v != n + 1 ==> (lo <= v <= hi <==> lo' <= v <= hi')
    ensures ExactlyDocumented(out, n, lo', hi') <==> (lo <= n + 1 <= hi <==> lo' <= n + 1 <= hi')
  {
    assert n + 1 in Documented(n);
  }

  lemma ExactWhenSmall(n: int, k: Kind, word: Word)
    requires 0 <= n < MAX_INT64 && InRange(OnTarget(k, word), n)
    ensures ExactForType(n, k, word) <==> Roomy(n, k, word)
  {
    var ((lo, hi), t) := (Bounds(k, n), OnTarget(k, word));
    BoundsAgainstType(n, k, word);
    ExactInBounds(n, k);
    OtherRange(MutantValues(n, k), n, lo, hi, Lo(t), Hi(t));
  }

  /** A uint64 literal that an int64 cannot hold is not mutated at all. */
  lemma NoneAboveInt64(n: int, k: Kind, word: Word)
    requires MAX_INT64 < n && InRange(OnTarget(k, word), n)
    ensures MutantValues(n, k) == [] && !ExactForType(n, k, word)
  {
    RangeTable(OnTarget(k, word));
    assert 0 in Documented(n) && 0 != n;
  }

  /** At the largest int64, n+1 wraps in a signed type and is out of bounds in
      an unsigned one that could hold it. */
  lemma WrongAtMaxInt64(k: Kind, word: Word)
    requires InRange(OnTarget(k, word), MAX_INT64)
    ensures !ExactForType(MAX_INT64, k, word)
  {
    var n := MAX_INT64;
    var ((lo, hi), t) := (Bounds(k, n), OnTarget(k, word));
    RangeTable(t);
    RangeTable(IntTy(32, true));
    RangeTable(IntTy(32, false));
    RangeTable(IntTy(64, true));
    NextInt64(n);
    ConsiderAllSpec(n, lo, hi, Tried(n));
    assert hi == n && Tried(n)[3] == -n - 1;
    if t.signed {
      assert -n - 1 in MutantValues(n, k) && -n - 1 !in Documented(n);
    } else {
      assert n + 1 in Documented(n) && n + 1 !in MutantValues(n, k);
    }
  }

  /** On a 64-bit target, the largest 32-bit literals of the word-sized types
      lose n+1, which their types can hold. */
  lemma WrongAtWordEdges()
    ensures InRange(OnTarget(PlainInt, 64), 2147483648)
    ensures 2147483648 in Documented(2147483647) && 2147483648 !in MutantValues(2147483647, PlainInt)
    ensures InRange(OnTarget(PlainUint, 64), 4294967296)
    ensures 4294967296 in Documented(4294967295) && 4294967296 !in MutantValues(4294967295, PlainUint)
  {
    RangeTable(IntTy(32, true));
    RangeTable(IntTy(32, false));
    RangeTable(IntTy(64, true));
    RangeTable(IntTy(64, false));
    ConsiderAllSpec(2147483647, -2147483648, 2147483647, Tried(2147483647));
    ConsiderAllSpec(4294967295, 0, 4294967295, Tried(4294967295));
  }

  /** The emitted values are exactly the documented ones that differ from n and
      that the literal's type can represent, if and only if n is below the
      largest int64 and, in a word-sized type of 64 bits, is not the largest
      value of 32 bits. */
  lemma MutantValuesExact(n: int, k: Kind, word: Word)
    requires 0 <= n && InRange(OnTarget(k, word), n)
    ensures (forall v :: v in MutantValues(n, k) <==> v in Documented(n) && v != n && InRange(OnTarget(k, word), v))
            <==> (&& n < MAX_INT64
                  && !(k == PlainInt && word == 64 && n == 0x7FFF_FFFF)
                  && !(k == PlainUint && word == 64 && n == 0xFFFF_FFFF))
  {
    var t := OnTarget(k, word);
    assert forall v :: InRange(t, v) <==> Lo(t) <= v <= Hi(t);
    if n < MAX_INT64 {
      ExactWhenSmall(n, k, word);
    } else {
      if n == MAX_INT64 {
        WrongAtMaxInt64(k, word);
      } else {
        NoneAboveInt64(n, k, word);
      }
    }
  }

  /** Whatever the target's word size, a replacement fits the type its literal
      fits. */
  lemma MutantValuesFit(n: int, k: Kind, word: Word, v: int)
    requires 0 <= n && InRange(OnTarget(k, word), n)
    requires v in MutantValues(n, k)
    ensures InRange(OnTarget(k, word), v) && v != n
  {
    var (lo, hi) := Bounds(k, n);
    BoundsFacts(n, k);
    assert v in ConsiderAll(n, lo, hi, Tried(n));
    ConsiderAllSpec(n, lo, hi, Tried(n));
    assert lo <= v <= hi && v != n;
    match k
    case Sized(t) => RangeTable(t);
    case PlainInt =>
      RangeTable(IntTy(32, true));
      RangeTable(IntTy(64, true));
    case PlainUint =>
      RangeTable(IntTy(32, false));
      RangeTable(IntTy(64, false));
  }

  // ----- Constant expressions -----

  datatype Cmp = Eql | Neq | Lss | Leq | Gtr | Geq

  datatype Tok = Plus | Minus | Times | Bitwise(b: BitOp) | ShiftL | ShiftR | Divide | Remainder | Compare(c: Cmp)

  /** A constant expression.  A literal is `live` once it has been rewritten
      into a run-time expression. */
  datatype Const = Num(n: int, live: bool) | Op(tok: Tok, l: Const, r: Const)

  /** What the compiler accepts: no zero divisor, no negative shift count. */
  predicate Legal(e: Const)
    decreases e, 0
  {
    match e
    case Num(_, _) => true
    case Op(tok, l, r) =>
      && Legal(l) && Legal(r)
      && (tok.Divide? || tok.Remainder? ==> Exact(r) != 0)
      && (tok.ShiftL? || tok.ShiftR? ==> Exact(r) >= 0)
  }

  function Truth(b: bool): int { if b then 1 else 0 }

  function CompareInts(c: Cmp, a: int, b: int): int {
    match c
    case Eql => Truth(a == b)
    case Neq => Truth(a != b)
    case Lss => Truth(a < b)
    case Leq => Truth(a <= b)
    case Gtr => Truth(a > b)
    case Geq => Truth(a >= b)
  }

  function Apply(tok: Tok, a: int, b: int): int
    requires tok.Divide? || tok.Remainder? ==> b != 0
    requires tok.ShiftL? || tok.ShiftR? ==> b >= 0
  {
    match tok
    case Plus => a + b
    case Minus => a - b
    case Times => a * b
    case Bitwise(op) => Bits(op, a, b)
    case ShiftL => a * Pow2(b)
    case ShiftR => a / Pow2(b)
    case Divide => QuoTrunc(a, b)
    case Remainder => RemTrunc(a, b)
    case Compare(c) => CompareInts(c, a, b)
  }

  /** The compiler's arbitrary-precision value. */
  function Exact(e: Const): int
    requires Legal(e)
    decreases e, 1
  {
    match e
    case Num(n, _) => n
    case Op(tok, l, r) => Apply(tok, Exact(l), Exact(r))
  }

  predicate Live(e: Const) {
    match e
    case Num(_, live) => live
    case Op(_, l, r) => Live(l) || Live(r)
  }

  /** The value at run time in type t: a subexpression with a live literal is
      evaluated at t's width; one without is still folded exactly and converted
      to t.  A shift count is never converted.  A run-time division by a
      divisor that wrapped to zero panics; the model gives it 0. */
  function Run(t: IntTy, e: Const): int
    requires Legal(e)
  {
    match e
    case Num(n, _) => Wrap(t, n)
    case Op(tok, l, r) =>
      if !Live(e) then Wrap(t, Exact(e))
      else
        var a := Run(t, l);
        var b := if tok.ShiftL? || tok.ShiftR? then Exact(r) else Run(t, r);
        if (tok.Divide? || tok.Remainder?) && b == 0 then 0 else Wrap(t, Apply(tok, a, b))
  }

  /** The operations whose result is not determined modulo 2^w by operands
      known modulo 2^w. */
  predicate Sensitive(tok: Tok) {
    tok.Divide? || tok.Remainder? || tok.ShiftR? || tok.Compare?
  }

  /** The rewrite rule's choice: every literal goes live except those under a
      sensitive operation and those that are shift counts, which stay untyped. */
  function Rewritten(e: Const, barred: bool): Const {
    match e
    case Num(n, _) => Num(n, !barred)
    case Op(tok, l, r) =>
      var b := barred || Sensitive(tok);
      Op(tok, Rewritten(l, b), Rewritten(r, b || tok.ShiftL?))
  }

  /** No live literal is an operand of a sensitive operation or a shift count. */
  predicate Safe(e: Const) {
    match e
    case Num(_, _) => true
    case Op(tok, l, r) =>
      && Safe(l) && Safe(r)
      && (Sensitive(tok) ==> !Live(e))
      && (tok.ShiftL? ==> !Live(r))
  }

  lemma ApplyCong(w: nat, tok: Tok, a: int, a': int, b: int, b': int)
    requires !Sensitive(tok)
    requires Cong(w, a, a')
    requires if tok.ShiftL? then b == b' >= 0 else Cong(w, b, b')
    ensures Cong(w, Apply(tok, a, b), Apply(tok, a', b'))
  {
    match tok
    case Plus => AddCong(w, a, a', b, b');
    case Minus => AddCong(w, a, a', b, b');
    case Times => MulCong(w, a, a', b, b');
    case Bitwise(op) => BitsCong(w, op, a, a', b, b');
    case ShiftL =>
      CongRefl(w, Pow2(b));
      MulCong(w, a, a', Pow2(b), Pow2(b));
  }

  lemma {:induction false} RunIsWrappedExact(t: IntTy, e: Const)
    requires Legal(e) && Safe(e)
    ensures Run(t, e) == Wrap(t, Exact(e))
  {
    match e
    case Num(_, _) =>
    case Op(tok, l, r) =>
      if Live(e) {
        RunIsWrappedExact(t, l);
        RunIsWrappedExact(t, r);
        WrapSpec(t, Exact(l));
        WrapSpec(t, Exact(r));
        var b := if tok.ShiftL? then Exact(r) else Run(t, r);
        ApplyCong(t.bits, tok, Run(t, l), Exact(l), b, Exact(r));
        WrapCong(t, Apply(tok, Run(t, l), b), Exact(e));
      }
  }

  /** Rewriting literals keeps the compiler's view of the expression and puts
      live literals only in safe places. */
  lemma {:induction false} RewrittenIsSafe(e: Const, barred: bool)
    requires Legal(e)
    ensures Legal(Rewritten(e, barred)) && Exact(Rewritten(e, barred)) == Exact(e)
    ensures Safe(Rewritten(e, barred))
    ensures barred ==> !Live(Rewritten(e, barred))
  {
    match e
    case Num(_, _) =>
    case Op(tok, l, r) =>
      var b := barred || Sensitive(tok);
      RewrittenIsSafe(l, b);
      RewrittenIsSafe(r, b || tok.ShiftL?);
  }

  /** A typed constant expression keeps its value when every literal the rule
      lets through becomes a run-time expression. */
  lemma WrapSafety(t: IntTy, e: Const)
    requires Legal(e) && InRange(t, Exact(e))
    ensures Legal(Rewritten(e, false)) && Run(t, Rewritten(e, false)) == Exact(e)
  {
    RewrittenIsSafe(e, false);
    RunIsWrappedExact(t, Rewritten(e, false));
    WrapId(t, Exact(e));
  }

  lemma LowWord(t: IntTy)
    requires t == IntTy(32, true)
    ensures Wrap(t, 1) == 1 && Wrap(t, 0) == 0 && Wrap(t, Pow2(40)) == 0
    ensures InRange(t, 0x10_0000)
  {
    RangeTable(t);
    WrapId(t, 1);
    WrapId(t, 0);
    Pow2Add(8, 32);
    CongIntro(32, Pow2(40), 0, Pow2(8));
    WrapCong(t, Pow2(40), 0);
  }

  /** Without the rule it fails: int32(1 << 40 >> 20) is 1048576, but 0 once
      its first literal is evaluated at run time. */
  lemma SensitiveMatters()
    ensures var t := IntTy(32, true);
            var e := Op(ShiftR, Op(ShiftL, Num(1, true), Num(40, false)), Num(20, false));
            Legal(e) && Exact(e) == 1048576 && InRange(t, Exact(e)) && Run(t, e) == 0
  {
    var t := IntTy(32, true);
    Powers();
    LowWord(t);
    var inner := Op(ShiftL, Num(1, true), Num(40, false));
    assert Exact(inner) == Pow2(40) && Run(t, inner) == 0;
  }

  /** An ancestor of a literal, as Find's stack holds it: not an expression,
      an expression without a constant value, or a constant one with its
      binary operator if it has one. */
  datatype Ancestor = NotExpr | NotConst | Constant | ConstantBinary(tok: Tok)

  /** The walk over a literal's ancestors, innermost last: it stops at the
      first that is not a constant expression. */
  method InWrapSensitiveConstant(stack: seq<Ancestor>) returns (r: bool)
    requires |stack| > 0 && stack[0] == NotExpr
    ensures r <==> exists i :: 0 <= i < |stack| && stack[i].ConstantBinary?
                            && (stack[i].tok.Divide? || stack[i].tok.Remainder? || stack[i].tok.ShiftR?
                                || stack[i].tok.Compare?)
                            && forall j :: i < j < |stack| ==> stack[j].Constant? || stack[j].ConstantBinary?
  {
    var i := |stack| - 1;
    while true
      invariant 0 <= i < |stack|
      invariant forall j :: i < j < |stack| ==>
                  stack[j].Constant? || (stack[j].ConstantBinary? && !Sensitive(stack[j].tok))
      decreases i
    {
      if stack[i].NotExpr? {
        return false;
      }
      if stack[i].NotConst? {
        return false;
      }
      if stack[i].ConstantBinary? && Sensitive(stack[i].tok) {
        return true;
      }
      i := i - 1;
    }
  }
}
