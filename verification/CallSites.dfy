/** What one rewritten node does at run time: as the node itself when none of
    its site's IDs is active, and as the mutant when one is. */
module CallSites {
  import opened Integers
  import opened IntLiterals
  import opened Seqs
  import opened Syntax
  import opened Mutations
  import opened Semantics
  import opened Operators
  import opened SwitchRewrite
  import opened SwitchCases
  import opened Fits
  import opened Schema
  import opened Congruence

  /** Is the mutation under test one of the group with this key on node n? */
  predicate Hit(t: Target, n: nat, key: Key) {
    t.Some? && t.value.node == n && KeyOf(t.value.oper) == key
  }

  /** A call site agrees with the dispatchers' cases and the active mutant. */
  ghost predicate SiteOk(c: Ctx, t: Target, n: nat, g: Group) {
    && |g.cands| == |g.ids| && Distinct(g.ids)
    && (c.active in g.ids <==> Hit(t, n, g.key))
    && (Hit(t, n, g.key) ==>
          && c.active in c.cases && c.cases[c.active] == t.value
          && forall j :: 0 <= j < |g.ids| && g.ids[j] == c.active ==>
               g.cands[j].pos == t.value.pos && g.cands[j].mutant == t.value.mutant)
  }

  // ----- Unfolding the evaluator -----

  /** Evaluates b after a. */
  function Pair(c: Ctx, fuel: nat, a: Expr, b: Expr, st: State): Out<seq<Value>> {
    var (s1, v) :- Eval(c, fuel, a, st);
    var (s2, w) :- Eval(c, fuel, b, s1);
    Val(s2, [v, w])
  }

  lemma EvalTwo(c: Ctx, fuel: nat, a: Expr, b: Expr, st: State)
    ensures EvalAll(c, fuel, [a, b], st) == Pair(c, fuel, a, b, st)
  {
    var es := [a, b];
    assert es[1..] == [b];
    var r := Eval(c, fuel, es[0], st);
    if r.Val? {
      EvalOne(c, fuel, b, r.st);
      var q := EvalAll(c, fuel, es[1..], r.st);
      assert q.Val? ==> [r.v] + q.v == [r.v, q.v[0]];
    }
  }

  lemma BinRuns(c: Ctx, fuel: nat, op: BinOp, l: Expr, r: Expr, st: State, a: Value, b: Value)
    requires Eval(c, fuel, l, st) == Val(st, a) && Eval(c, fuel, r, st) == Val(st, b)
    ensures Eval(c, fuel, Bin(0, op, l, r), st) == Lift(ApplyBin(op, a, b), st)
  {
  }

  lemma DispatchRuns(c: Ctx, fuel: nat, d: Disp, args: seq<Expr>, ids: seq<int>, st: State)
    requires !d.MutRecv?
    ensures var r := EvalAll(c, fuel, args, st);
            Eval(c, fuel, Dispatch(d, args, ids), st) ==
            if r.Stop? then Stop(r.trace, r.why) else Lift(RunDisp(c, d, r.v, ids), r.st)
  {
  }

  // ----- Shape-specific sites -----

  function BinDisp(key: Key, op: BinOp): Disp {
    if key == KIntArith then MutInt(op) else if key == KIntBitwise then MutIntBit(op) else MutIntCmp(op)
  }

  lemma BinDispRuns(c: Ctx, t: Target, n: nat, g: Group, e: Expr, a: Value, b: Value)
    requires g.key in {KIntArith, KIntBitwise, KIntCmp}
    requires SiteOk(c, t, n, g) && FitsE(g, e) && (Hit(t, n, g.key) ==> TextFitsE(t.value, e))
    ensures RunDisp(c, BinDisp(g.key, e.op), [a, b], g.ids)
            == ApplyBin(if Hit(t, n, g.key) then t.value.mutant.op else e.op, a, b)
  {
  }

  lemma BinarySite(c: Ctx, fuel: nat, info: Info, t: Target, n: nat, g: Group, e: Expr)
    requires g.key in {KIntArith, KIntBitwise, KIntCmp}
    requires SiteOk(c, t, n, g) && FitsE(g, e) && (Hit(t, n, g.key) ==> TextFitsE(t.value, e))
    ensures SimE(c, c, fuel, ApplyE(info, n, g, e), if Hit(t, n, g.key) then AlterShapeE(info, t.value, e) else e)
  {
    var b := if Hit(t, n, g.key) then AlterShapeE(info, t.value, e) else e;
    var d := BinDisp(g.key, e.op);
    assert ApplyE(info, n, g, e) == Dispatch(d, [e.l, e.r], g.ids);
    assert b == Bin(e.id, if Hit(t, n, g.key) then t.value.mutant.op else e.op, e.l, e.r);
    forall st
      ensures Eval(c, fuel, Dispatch(d, [e.l, e.r], g.ids), st) == Eval(c, fuel, b, st)
    {
      DispatchRuns(c, fuel, d, [e.l, e.r], g.ids, st);
      EvalTwo(c, fuel, e.l, e.r, st);
      var r := Pair(c, fuel, e.l, e.r, st);
      if r.Val? {
        BinDispRuns(c, t, n, g, e, r.v[0], r.v[1]);
      }
    }
  }

  lemma {:induction false} OperandRuns(c: Ctx, fuel: nat, info: Info, t: Target, n: nat, g: Group, e: Expr, st: State)
    requires g.key in {KBoolNot, KChanOp} && SiteOk(c, t, n, g) && FitsE(g, e)
    ensures Eval(c, fuel, ApplyE(info, n, g, e), st)
            == Eval(c, fuel, if Hit(t, n, g.key) then AlterShapeE(info, t.value, e) else e, st)
  {
    EvalOne(c, fuel, if e.Not? then e.e else e.ch, st);
  }

  lemma {:induction false} TextRuns(c: Ctx, fuel: nat, info: Info, t: Target, n: nat, g: Group, e: Expr, st: State)
    requires g.key in {KStringLiteral, KBoolLiteral} && SiteOk(c, t, n, g) && FitsE(g, e)
    requires Hit(t, n, g.key) ==> TextFitsE(t.value, e)
    ensures Eval(c, fuel, ApplyE(info, n, g, e), st)
            == Eval(c, fuel, if Hit(t, n, g.key) then AlterShapeE(info, t.value, e) else e, st)
  {
    EvalOne(c, fuel, e, st);
  }

  lemma UnarySite(c: Ctx, fuel: nat, info: Info, t: Target, n: nat, g: Group, e: Expr)
    requires g.key in {KBoolNot, KChanOp, KStringLiteral, KBoolLiteral}
    requires SiteOk(c, t, n, g) && FitsE(g, e) && (Hit(t, n, g.key) ==> TextFitsE(t.value, e))
    ensures SimE(c, c, fuel, ApplyE(info, n, g, e), if Hit(t, n, g.key) then AlterShapeE(info, t.value, e) else e)
  {
    forall st
      ensures Eval(c, fuel, ApplyE(info, n, g, e), st)
              == Eval(c, fuel, if Hit(t, n, g.key) then AlterShapeE(info, t.value, e) else e, st)
    {
      if g.key in {KBoolNot, KChanOp} {
        OperandRuns(c, fuel, info, t, n, g, e, st);
      } else {
        TextRuns(c, fuel, info, t, n, g, e, st);
      }
    }
  }

  lemma LazySite(c: Ctx, fuel: nat, info: Info, t: Target, n: nat, g: Group, e: Expr)
    requires g.key == KBoolLogic
    requires SiteOk(c, t, n, g) && FitsE(g, e)
    ensures SimE(c, c, fuel, ApplyE(info, n, g, e), if Hit(t, n, g.key) then AlterShapeE(info, t.value, e) else e)
  {
    var a := ApplyE(info, n, g, e);
    var b := if Hit(t, n, g.key) then AlterShapeE(info, t.value, e) else e;
    forall st
      ensures Eval(c, fuel, a, st) == Eval(c, fuel, b, st)
    {
      assert EvalLogic(c, fuel, b.isAnd, e.l, e.r, a, st) == EvalLogic(c, fuel, b.isAnd, e.l, e.r, b, st);
    }
  }

  lemma IdxRuns(c: Ctx, fuel: nat, t: Target, n: nat, g: Group, i: Expr)
    requires g.key in {KSliceIndex, KSliceRange}
    requires SiteOk(c, t, n, g)
    requires Hit(t, n, g.key) ==> t.value.mutant == PlusOne || t.value.mutant == MinusOne
    ensures SimE(c, c, fuel, Dispatch(MutIdx, [i], g.ids),
                 if Hit(t, n, g.key) then AddConst(i, Delta(t.value.mutant)) else i)
  {
    forall st
      ensures Eval(c, fuel, Dispatch(MutIdx, [i], g.ids), st)
              == Eval(c, fuel, if Hit(t, n, g.key) then AddConst(i, Delta(t.value.mutant)) else i, st)
    {
      EvalOne(c, fuel, i, st);
    }
  }

  lemma SimRefl(c: Ctx, fuel: nat, e: Expr)
    ensures SimE(c, c, fuel, e, e)
  {
  }

  lemma IndexSite(c: Ctx, fuel: nat, info: Info, t: Target, n: nat, g: Group, e: Expr)
    requires g.key == KSliceIndex
    requires SiteOk(c, t, n, g) && FitsE(g, e) && (Hit(t, n, g.key) ==> TextFitsE(t.value, e))
    ensures SimE(c, c, fuel, ApplyE(info, n, g, e), if Hit(t, n, g.key) then AlterShapeE(info, t.value, e) else e)
  {
    IdxRuns(c, fuel, t, n, g, e.idx);
    SimRefl(c, fuel, e.base);
    CongE(c, c, fuel, ApplyE(info, n, g, e), if Hit(t, n, g.key) then AlterShapeE(info, t.value, e) else e);
  }

  // ----- Literals -----

  lemma SmallInRange(t: IntTy)
    ensures InRange(t, 0) && InRange(t, 1)
  {
    RangeTable(t);
  }

  lemma TermValues(t: IntTy, v: int, one: int)
    requires (one == 0 || one == 1) && InRange(t, v)
    ensures ShiftInt(false, t, 1, 1 - one) == Ok(IntV(t, one))
    ensures ArithInts(Mul, t, v, one) == Ok(IntV(t, if one == 1 then v else 0))
  {
    SmallInRange(t);
    assert 1 / Pow2(1 - one) == one by {
      assert Pow2(0) == 1 && Pow2(1) == 2;
    }
    if one == 1 {
      WrapId(t, 1);
      WrapId(t, v * 1);
    } else {
      WrapId(t, 0);
      assert v * 0 == 0;
    }
  }

  lemma SelRuns(c: Ctx, fuel: nat, sel: Disp, ids: seq<int>, st: State)
    requires sel.LitOff? || sel.LitOn?
    ensures Eval(c, fuel, Dispatch(sel, [], ids), st)
            == Val(st, IntV(UINT, if IsActive(c, ids) == sel.LitOn? then 0 else 1))
  {
    DispatchRuns(c, fuel, sel, [], ids, st);
  }

  lemma TermRuns(c: Ctx, fuel: nat, t: IntTy, v: int, sel: Disp, ids: seq<int>, st: State)
    requires (sel.LitOff? || sel.LitOn?) && InRange(t, v)
    ensures Eval(c, fuel, Term(t, v, sel, ids), st)
            == Val(st, IntV(t, if IsActive(c, ids) == sel.LitOn? then v else 0))
  {
    var one := if IsActive(c, ids) == sel.LitOn? then 1 else 0;
    SelRuns(c, fuel, sel, ids, st);
    TermValues(t, v, one);
    var shift := Bin(0, Shr, Lit(0, IntV(t, 1)), Dispatch(sel, [], ids));
    BinRuns(c, fuel, Shr, Lit(0, IntV(t, 1)), Dispatch(sel, [], ids), st, IntV(t, 1), IntV(UINT, 1 - one));
    BinRuns(c, fuel, Mul, Lit(0, IntV(t, v)), shift, st, IntV(t, v), IntV(t, one));
  }

  /** The value of the sum's first k mutant terms. */
  function SumAt(c: Ctx, n: int, g: Group, k: nat): int
    requires k <= |g.cands| == |g.ids|
  {
    if k == 0 then (if c.active in g.ids then 0 else n)
    else if g.ids[k - 1] == c.active && g.cands[k - 1].mutant.IntText? then g.cands[k - 1].mutant.n
    else SumAt(c, n, g, k - 1)
  }

  /** Before the active mutant's term the sum is 0, or n if there is none. */
  lemma {:induction false} SumBefore(c: Ctx, n: int, g: Group, k: nat)
    requires k <= |g.cands| == |g.ids|
    requires forall j :: 0 <= j < k ==> g.ids[j] != c.active
    ensures SumAt(c, n, g, k) == if c.active in g.ids then 0 else n
  {
    if k > 0 {
      SumBefore(c, n, g, k - 1);
    }
  }

  /** The value of the sum's term j: the literal's, then each mutant's. */
  function TermAt(c: Ctx, n: int, g: Group, j: nat): int
    requires j <= |g.cands| == |g.ids|
  {
    if j == 0 then (if c.active in g.ids then 0 else n)
    else if g.ids[j - 1] == c.active && g.cands[j - 1].mutant.IntText? then g.cands[j - 1].mutant.n
    else 0
  }

  function TermTotal(c: Ctx, n: int, g: Group, k: nat): int
    requires k <= |g.cands| == |g.ids|
  {
    TermAt(c, n, g, k) + if k == 0 then 0 else TermTotal(c, n, g, k - 1)
  }

  /** No two terms are non-zero, and the sum's value is their total. */
  lemma {:induction false} SumOfTerms(c: Ctx, n: int, g: Group, k: nat)
    requires k <= |g.cands| == |g.ids| && Distinct(g.ids)
    ensures forall i, j :: 0 <= i < j <= k ==> TermAt(c, n, g, i) == 0 || TermAt(c, n, g, j) == 0
    ensures SumAt(c, n, g, k) == TermTotal(c, n, g, k)
  {
    if k > 0 {
      SumOfTerms(c, n, g, k - 1);
      if g.ids[k - 1] == c.active {
        SumBefore(c, n, g, k - 1);
      }
    }
  }

  lemma SumStep(c: Ctx, t: IntTy, n: int, g: Group, k: nat)
    requires 0 < k <= |g.cands| == |g.ids| && Distinct(g.ids) && InRange(t, n)
    requires forall j :: 0 <= j < |g.cands| ==> g.cands[j].mutant.IntText? && InRange(t, g.cands[j].mutant.n)
    requires InRange(t, SumAt(c, n, g, k - 1))
    ensures var v := g.cands[k - 1].mutant.n;
            var before := SumAt(c, n, g, k - 1);
            && InRange(t, SumAt(c, n, g, k))
            && SumAt(c, n, g, k) == before + (if IsActive(c, [g.ids[k - 1]]) then v else 0)
            && ApplyBin(Add, IntV(t, before), IntV(t, if IsActive(c, [g.ids[k - 1]]) then v else 0))
               == Ok(IntV(t, SumAt(c, n, g, k)))
  {
    if g.ids[k - 1] == c.active {
      SumBefore(c, n, g, k - 1);
    }
    WrapId(t, SumAt(c, n, g, k));
  }

  lemma {:induction false} LitSumRuns(c: Ctx, fuel: nat, t: IntTy, n: int, g: Group, k: nat, st: State)
    requires k <= |g.cands| == |g.ids| && Distinct(g.ids) && InRange(t, n)
    requires forall j :: 0 <= j < |g.cands| ==> g.cands[j].mutant.IntText? && InRange(t, g.cands[j].mutant.n)
    ensures Eval(c, fuel, LitSum(t, n, g, k), st) == Val(st, IntV(t, SumAt(c, n, g, k)))
    ensures InRange(t, SumAt(c, n, g, k))
  {
    if k == 0 {
      RangeTable(t);
      TermRuns(c, fuel, t, n, LitOff, g.ids, st);
    } else {
      LitSumRuns(c, fuel, t, n, g, k - 1, st);
      SumStep(c, t, n, g, k);
      var v := g.cands[k - 1].mutant.n;
      if v != 0 {
        var ids := [g.ids[k - 1]];
        TermRuns(c, fuel, t, v, LitOn, ids, st);
        BinRuns(c, fuel, Add, LitSum(t, n, g, k - 1), Term(t, v, LitOn, ids), st,
                IntV(t, SumAt(c, n, g, k - 1)), IntV(t, if IsActive(c, ids) then v else 0));
      }
    }
  }

  lemma {:induction false} SumFinds(c: Ctx, n: int, g: Group, k: nat, j: nat)
    requires j < k <= |g.cands| == |g.ids| && Distinct(g.ids)
    requires g.ids[j] == c.active && g.cands[j].mutant.IntText?
    ensures SumAt(c, n, g, k) == g.cands[j].mutant.n
  {
    if j < k - 1 {
      SumFinds(c, n, g, k - 1, j);
    }
  }

  lemma LiteralRuns(c: Ctx, fuel: nat, info: Info, t: Target, n: nat, g: Group, e: Expr, st: State)
    requires g.key == KIntLiteral
    requires SiteOk(c, t, n, g) && FitsE(g, e) && (Hit(t, n, g.key) ==> TextFitsE(t.value, e))
    ensures Eval(c, fuel, ApplyE(info, n, g, e), st)
            == Val(st, if Hit(t, n, g.key) then IntV(e.v.t, t.value.mutant.n) else e.v)
  {
    if info.ty(n) == TInt(PlainInt, true) {
      DispatchRuns(c, fuel, MutIntLit, [e], g.ids, st);
      EvalOne(c, fuel, e, st);
    } else {
      LitSumRuns(c, fuel, e.v.t, e.v.n, g, |g.cands|, st);
      if c.active in g.ids {
        var j :| 0 <= j < |g.ids| && g.ids[j] == c.active;
        SumFinds(c, e.v.n, g, |g.cands|, j);
      } else {
        SumBefore(c, e.v.n, g, |g.cands|);
      }
    }
  }

  lemma LiteralSite(c: Ctx, fuel: nat, info: Info, t: Target, n: nat, g: Group, e: Expr)
    requires g.key == KIntLiteral
    requires SiteOk(c, t, n, g) && FitsE(g, e) && (Hit(t, n, g.key) ==> TextFitsE(t.value, e))
    ensures SimE(c, c, fuel, ApplyE(info, n, g, e), if Hit(t, n, g.key) then AlterShapeE(info, t.value, e) else e)
  {
    forall st
      ensures Eval(c, fuel, ApplyE(info, n, g, e), st)
              == Eval(c, fuel, if Hit(t, n, g.key) then AlterShapeE(info, t.value, e) else e, st)
    {
      LiteralRuns(c, fuel, info, t, n, g, e, st);
    }
  }

  lemma ShapeSite(c: Ctx, fuel: nat, info: Info, t: Target, n: nat, g: Group, e: Expr)
    requires !IsWrapper(g.key)
    requires SiteOk(c, t, n, g) && FitsE(g, e) && (Hit(t, n, g.key) ==> TextFitsE(t.value, e))
    ensures SimE(c, c, fuel, ApplyE(info, n, g, e), if Hit(t, n, g.key) then AlterShapeE(info, t.value, e) else e)
  {
    if g.key in {KIntArith, KIntBitwise, KIntCmp} {
      BinarySite(c, fuel, info, t, n, g, e);
    } else if g.key in {KBoolNot, KChanOp, KStringLiteral, KBoolLiteral} {
      UnarySite(c, fuel, info, t, n, g, e);
    } else if g.key == KBoolLogic {
      LazySite(c, fuel, info, t, n, g, e);
    } else if g.key == KSliceIndex {
      IndexSite(c, fuel, info, t, n, g, e);
    } else {
      LiteralSite(c, fuel, info, t, n, g, e);
    }
  }

  // ----- Wrappers, and several groups on one node -----

  /** The text of a return-zero mutation spells its type's zero value. */
  lemma ZeroIsSpelled(info: Info, t: Ty, m: MutText)
    requires ZeroLabel(t) == Some(m)
    ensures Spelled(info, m) == Zero(info, t)
  {
  }

  lemma {:induction false} ReplacerRuns(c: Ctx, fuel: nat, info: Info, t: Target, n: nat, g: Group, e: Expr, st: State)
    requires (g.key == KErrReturn || g.key == KReturnZero) && SiteOk(c, t, n, g)
    requires Hit(t, n, g.key) ==> WrapTextFits(info, t.value)
    ensures Eval(c, fuel, ApplyE(info, n, g, e), st)
            == Eval(c, fuel, if Hit(t, n, g.key) then AlterWrapE(info, t.value, e) else e, st)
  {
    var d := if g.key == KErrReturn then MutErr else MutRetZero(Zero(info, info.ty(n)));
    DispatchRuns(c, fuel, d, [e], g.ids, st);
    EvalOne(c, fuel, e, st);
    if g.key == KReturnZero && Hit(t, n, g.key) {
      ZeroIsSpelled(info, info.ty(n), t.value.mutant);
    }
  }

  lemma WrapSite(c: Ctx, fuel: nat, info: Info, t: Target, n: nat, g: Group, e: Expr)
    requires IsWrapper(g.key) && SiteOk(c, t, n, g)
    requires Hit(t, n, g.key) ==> WrapTextFits(info, t.value)
    ensures SimE(c, c, fuel, ApplyE(info, n, g, e), if Hit(t, n, g.key) then AlterWrapE(info, t.value, e) else e)
  {
    if g.key == KSliceRange {
      IdxRuns(c, fuel, t, n, g, e);
    } else {
      forall st
        ensures Eval(c, fuel, ApplyE(info, n, g, e), st)
                == Eval(c, fuel, if Hit(t, n, g.key) then AlterWrapE(info, t.value, e) else e, st)
      {
        ReplacerRuns(c, fuel, info, t, n, g, e, st);
      }
    }
  }

  ghost predicate SitesOkE(c: Ctx, info: Info, t: Target, n: nat, gs: seq<Group>, e: Expr) {
    && Stacked(gs)
    && (forall i :: 0 <= i < |gs| ==> SiteOk(c, t, n, gs[i]) && FitsE(gs[i], e))
    && (At(t, Some(n)) ==> TextFitsE(t.value, e) && WrapTextFits(info, t.value))
  }

  predicate AnyHit(t: Target, n: nat, gs: seq<Group>) {
    exists i :: 0 <= i < |gs| && Hit(t, n, gs[i].key)
  }

  lemma SimTrans(c: Ctx, d: Ctx, fuel: nat, x: Expr, y: Expr, z: Expr)
    requires SimE(c, c, fuel, x, y) && SimE(c, d, fuel, y, z)
    ensures SimE(c, d, fuel, x, z)
  {
  }

  lemma HitSplit(t: Target, n: nat, gs: seq<Group>)
    requires gs != [] && Stacked(gs)
    ensures var init, last := gs[..|gs| - 1], gs[|gs| - 1];
            && AnyHit(t, n, gs) == (Hit(t, n, last.key) || AnyHit(t, n, init))
            && (Hit(t, n, last.key) ==> !AnyHit(t, n, init))
            && Stacked(init)
  {
    var init, last := gs[..|gs| - 1], gs[|gs| - 1];
    assert forall i :: 0 <= i < |init| ==> init[i] == gs[i];
    if Hit(t, n, last.key) {
      assert Hit(t, n, gs[|gs| - 1].key);
    } else if AnyHit(t, n, init) {
      var i :| 0 <= i < |init| && Hit(t, n, init[i].key);
      assert Hit(t, n, gs[i].key);
    }
  }

  /** A wrapper around an expression that behaves as `want` does. */
  lemma WrapStep(c: Ctx, fuel: nat, info: Info, t: Target, n: nat, g: Group, inner: Expr, want: Expr)
    requires IsWrapper(g.key) && SiteOk(c, t, n, g)
    requires Hit(t, n, g.key) ==> WrapTextFits(info, t.value)
    requires SimE(c, c, fuel, inner, want)
    ensures SimE(c, c, fuel, ApplyE(info, n, g, inner),
                 if Hit(t, n, g.key) then AlterWrapE(info, t.value, want) else want)
  {
    WrapSite(c, fuel, info, t, n, g, inner);
    var outer := ApplyE(info, n, g, inner);
    if Hit(t, n, g.key) {
      CongE(c, c, fuel, AlterWrapE(info, t.value, inner), AlterWrapE(info, t.value, want));
      SimTrans(c, c, fuel, outer, AlterWrapE(info, t.value, inner), AlterWrapE(info, t.value, want));
    } else {
      SimTrans(c, c, fuel, outer, inner, want);
    }
  }

  /** However many groups share a node, it runs as the original, or as the
      original with the one active mutant of the node. */
  lemma {:induction false} NodeSites(c: Ctx, fuel: nat, info: Info, t: Target, n: nat, gs: seq<Group>, e: Expr)
    requires SitesOkE(c, info, t, n, gs, e)
    ensures SimE(c, c, fuel, ApplyAllE(info, n, gs, e), if AnyHit(t, n, gs) then AlterE(info, t.value, e) else e)
    decreases |gs|
  {
    if gs == [] {
      SimRefl(c, fuel, e);
    } else {
      var init, last := gs[..|gs| - 1], gs[|gs| - 1];
      HitSplit(t, n, gs);
      NodeSites(c, fuel, info, t, n, init, e);
      if IsWrapper(last.key) {
        WrapStep(c, fuel, info, t, n, last, ApplyAllE(info, n, init, e),
                 if AnyHit(t, n, init) then AlterE(info, t.value, e) else e);
      } else {
        ShapeSite(c, fuel, info, t, n, last, e);
      }
    }
  }

  // ----- Assignment targets -----

  lemma LhsSite(c: Ctx, fuel: nat, t: Target, n: nat, g: Group, l: Lhs)
    requires g.key == KSliceIndex && l.LIndex? && SiteOk(c, t, n, g)
    requires Hit(t, n, g.key) ==> t.value.mutant == PlusOne || t.value.mutant == MinusOne
    ensures SimL(c, c, fuel, ApplyL(g, l), if Hit(t, n, g.key) then AlterL(t.value, l) else l)
  {
    IdxRuns(c, fuel, t, n, g, l.idx);
    SimRefl(c, fuel, l.base);
    CongL(c, c, fuel, ApplyL(g, l), if Hit(t, n, g.key) then AlterL(t.value, l) else l);
  }

  // ----- Statements -----

  lemma SwapSite(c: Ctx, fuel: nat, t: Target, n: nat, g: Group, s: Stmt)
    requires g.key == KStmtSwap
    requires SiteOk(c, t, n, g) && FitsS(g, s) && (Hit(t, n, g.key) ==> TextFitsS(t.value, s))
    ensures SimS(c, c, fuel, ApplyS(g, s), if Hit(t, n, g.key) then AlterS(t.value, s) else s)
  {
    var b := if Hit(t, n, g.key) then AlterS(t.value, s) else s;
    var call := ApplyS(g, s);
    assert call == MutStmt(call.orig, call.mut, g.ids) && (if IsActive(c, g.ids) then call.mut else call.orig) == b;
    forall st
      ensures Exec(c, fuel, call, st) == Exec(c, fuel, b, st)
    {
      MutStmtRuns(c, fuel, call, b, st);
    }
  }

  lemma MutStmtRuns(c: Ctx, fuel: nat, call: Stmt, b: Stmt, st: State)
    requires call.MutStmt? && b == (if IsActive(c, call.ids) then call.mut else call.orig)
    requires b.IncDec? || b.Compound?
    ensures Exec(c, fuel, call, st) == Exec(c, fuel, b, st)
  {
  }

  lemma SkipSite(c: Ctx, fuel: nat, t: Target, n: nat, g: Group, s: Stmt)
    requires g.key == KChanOp || g.key == KCallDelete
    requires SiteOk(c, t, n, g) && FitsS(g, s)
    ensures SimS(c, c, fuel, ApplyS(g, s), if Hit(t, n, g.key) then AlterS(t.value, s) else s)
  {
    assert ApplyS(g, s) == CallSkip(s, g.ids);
    forall st
      ensures Exec(c, fuel, CallSkip(s, g.ids), st) == Exec(c, fuel, if IsActive(c, g.ids) then Skip else s, st)
    {
    }
  }

  lemma {:induction false} SwapsAre(c: Ctx, clauses: seq<Clause>, g: Group, k: nat)
    requires k <= |g.cands| == |g.ids| && Distinct(g.ids)
    ensures (forall j :: 0 <= j < k && g.cands[j].mutant.SwapText? ==> g.ids[j] != c.active) ==>
              ActiveSwap(c, Swaps(clauses, g, k)) == -1
    ensures forall j :: 0 <= j < k && g.cands[j].mutant.SwapText? && g.ids[j] == c.active ==>
              ActiveSwap(c, Swaps(clauses, g, k)) == IndexOf(clauses, g.cands[j].pos)
  {
    if k > 0 {
      SwapsAre(c, clauses, g, k - 1);
      if g.cands[k - 1].mutant.SwapText? {
        var swaps := Swaps(clauses, g, k);
        assert swaps[..|swaps| - 1] == Swaps(clauses, g, k - 1);
      }
    }
  }

  /** The switch that the rewrite stands for is the mutant, or the original. */
  lemma MeantIsMutant(c: Ctx, t: Target, n: nat, g: Group, s: Stmt)
    requires g.key == KSwitchCase && SiteOk(c, t, n, g) && FitsS(g, s)
    ensures Meant(c, g, s) == if Hit(t, n, g.key) then AlterS(t.value, s) else s
  {
    var k := |g.cands|;
    var drops := Drops(s.clauses, g, k);
    var want := if Hit(t, n, g.key) then AlterS(t.value, s) else s;
    SwapsAre(c, s.clauses, g, k);
    var live := LiveClauses(c, s.clauses, drops);
    assert live == want.clauses by {
      forall i | 0 <= i < |s.clauses|
        ensures live[i] == want.clauses[i]
      {
        DropsAre(s.clauses, g, k, i);
        if Hit(t, n, g.key) {
          var j :| 0 <= j < |g.ids| && g.ids[j] == c.active;
          if i in drops {
            var j' :| 0 <= j' < k && !g.cands[j'].mutant.SwapText? && IndexOf(s.clauses, g.cands[j'].pos) == i;
          }
        }
      }
    }
    assert ActiveSwap(c, Swaps(s.clauses, g, k)) == want.swapped by {
      if Hit(t, n, g.key) {
        var j :| 0 <= j < |g.ids| && g.ids[j] == c.active;
      }
    }
  }

  lemma StmtSite(c: Ctx, fuel: nat, t: Target, n: nat, g: Group, s: Stmt)
    requires SiteOk(c, t, n, g) && FitsS(g, s) && (Hit(t, n, g.key) ==> TextFitsS(t.value, s))
    ensures SimS(c, c, fuel, ApplyS(g, s), if Hit(t, n, g.key) then AlterS(t.value, s) else s)
  {
    if g.key == KSwitchCase {
      MeantIsMutant(c, t, n, g, s);
      forall st
        ensures Exec(c, fuel, ApplyS(g, s), st) == Exec(c, fuel, Meant(c, g, s), st)
      {
        SwitchCompiled(c, fuel, g, s, st);
      }
    } else if g.key == KStmtSwap {
      SwapSite(c, fuel, t, n, g, s);
    } else {
      SkipSite(c, fuel, t, n, g, s);
    }
  }
}
