/** What the operators' tables have in common: a sibling is the inverse where
    there is one. */
module SiblingFacts {
  import opened Integers
  import opened Syntax
  import opened Operators

  lemma ProductQuotient(a: int, m: int)
    requires m > 0
    ensures a * m / m == a
  {
    var q := a * m / m;
    MultipleIsZeroMod(a, m);
    assert a * m == q * m + a * m % m;
    assert (a - q) * m == 0;
    MultipleBounds(a - q, m);
  }

  lemma QuoUndoes(a: int, b: int)
    requires b != 0
    ensures QuoTrunc(a * b, b) == a
  {
    if b > 0 {
      ProductQuotient(a, b);
      ProductQuotient(-a, b);
      assert -(a * b) == (-a) * b;
    } else {
      assert a * b == (-a) * (-b) && -(a * b) == a * (-b);
      DivideByNegative(a * b, b);
      DivideByNegative(-(a * b), b);
      ProductQuotient(-a, -b);
      ProductQuotient(a, -b);
    }
  }

  lemma DivideByNegative(n: int, b: int)
    requires b < 0
    ensures n / b == -(n / -b)
  {
  }

  lemma SumUndoes(t: IntTy, a: int, b: int)
    requires InRange(t, a)
    ensures Wrap(t, Wrap(t, a + b) - b) == a
  {
    WrapSpec(t, a + b);
    CongRefl(t.bits, -b);
    AddCong(t.bits, Wrap(t, a + b), a + b, -b, -b);
    WrapCong(t, Wrap(t, a + b) - b, a);
    WrapId(t, a);
  }

  lemma DifferenceUndoes(t: IntTy, a: int, b: int)
    requires InRange(t, a)
    ensures Wrap(t, Wrap(t, a - b) + b) == a
  {
    WrapSpec(t, a - b);
    CongRefl(t.bits, b);
    AddCong(t.bits, Wrap(t, a - b), a - b, b, b);
    WrapCong(t, Wrap(t, a - b) + b, a);
    WrapId(t, a);
  }

  /** Subtraction undoes addition, ... */
  lemma SubUndoesAdd(t: IntTy, a: int, b: int)
    requires InRange(t, a)
    ensures var r := ApplyBin(Add, IntV(t, a), IntV(t, b));
            r.Ok? && ApplyBin(ArithSibling(Add), r.v, IntV(t, b)) == Ok(IntV(t, a))
  {
    SumUndoes(t, a, b);
    assert ApplyBin(Add, IntV(t, a), IntV(t, b)) == Ok(IntV(t, Wrap(t, a + b)));
  }

  /** ... and addition subtraction, wrapped or not. */
  lemma AddUndoesSub(t: IntTy, a: int, b: int)
    requires InRange(t, a)
    ensures var r := ApplyBin(Sub, IntV(t, a), IntV(t, b));
            r.Ok? && ApplyBin(ArithSibling(Sub), r.v, IntV(t, b)) == Ok(IntV(t, a))
  {
    DifferenceUndoes(t, a, b);
    assert ApplyBin(Sub, IntV(t, a), IntV(t, b)) == Ok(IntV(t, Wrap(t, a - b)));
  }

  /** Division undoes a multiplication that does not overflow. */
  lemma QuoUndoesMul(t: IntTy, a: int, b: int)
    requires InRange(t, a) && b != 0 && InRange(t, a * b)
    ensures var r := ApplyBin(Mul, IntV(t, a), IntV(t, b));
            r.Ok? && ApplyBin(ArithSibling(Mul), r.v, IntV(t, b)) == Ok(IntV(t, a))
  {
    WrapId(t, a);
    WrapId(t, a * b);
    QuoUndoes(a, b);
  }

  /** A right shift undoes a left shift that does not overflow. */
  lemma ShrUndoesShl(t: IntTy, a: int, count: nat)
    requires InRange(t, a) && InRange(t, a * Pow2(count))
    ensures var r := ApplyBin(Shl, IntV(t, a), IntV(t, count));
            r.Ok? && ApplyBin(BitSibling(Shl), r.v, IntV(t, count)) == Ok(IntV(t, a))
  {
    WrapId(t, a);
    WrapId(t, a * Pow2(count));
    ProductQuotient(a, Pow2(count));
  }

  /** An offset by one adds or subtracts one. */
  lemma OffsetsAdd(v: Value)
    requires v.IntV?
    ensures AddTo(v, 1) == ApplyBin(Add, v, IntV(v.t, 1)) && AddTo(v, -1) == ApplyBin(Sub, v, IntV(v.t, 1))
  {
  }
}
