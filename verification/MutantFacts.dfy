/** What the mutants are worth: how a mutant operator differs from the original
    one, and what each mutant still evaluates. */
module MutantFacts {
  import opened Integers
  import opened IntLiterals
  import opened Syntax
  import opened Mutations
  import opened Semantics
  import opened Operators
  import opened SwitchCases
  import opened Schema
  import opened Fits
  import opened CallSites

  // ----- The operators' tables -----

  /** A negated comparison holds exactly when the original does not. */
  lemma NegationFlips(op: BinOp, t: IntTy, a: int, b: int)
    requires IsCompare(op)
    ensures IsCompare(Negated(op)) && Negated(Negated(op)) == op
    ensures ApplyBin(Negated(op), IntV(t, a), IntV(t, b)) != ApplyBin(op, IntV(t, a), IntV(t, b))
  {
  }

  /** A boundary mutant differs from the original exactly on equal operands. */
  lemma BoundaryOnEqual(op: BinOp, t: IntTy, a: int, b: int)
    requires op in {Lt, Le, Gt, Ge}
    ensures BoundarySibling(BoundarySibling(op)) == op
    ensures ApplyBin(BoundarySibling(op), IntV(t, a), IntV(t, b)) != ApplyBin(op, IntV(t, a), IntV(t, b)) <==> a == b
  {
  }

  /** Every sibling is another operation of the same dispatcher. */
  lemma SiblingsDiffer(op: BinOp)
    ensures IsArith(op) ==> IsArith(ArithSibling(op)) && ArithSibling(op) != op
    ensures IsBitwise(op) ==> IsBitwise(BitSibling(op)) && BitSibling(op) != op
  {
  }

  // ----- What a mutant evaluates -----

  predicate WrapsArgument(d: Disp) {
    d.MutErr? || d.MutRetZero? || d.MutString? || d.MutBoolLit? || d.MutNot?
  }

  /** These dispatchers evaluate their argument exactly as it stands, mutant or
      not; only the value differs. */
  lemma ArgumentEvaluated(c: Ctx, fuel: nat, d: Disp, e: Expr, ids: seq<int>, st: State)
    requires WrapsArgument(d)
    ensures var r, plain := Eval(c, fuel, Dispatch(d, [e], ids), st), Eval(c, fuel, e, st);
            if plain.Stop? then r == Stop(plain.trace, plain.why) else r.Val? && r.st == plain.st
  {
    EvalOne(c, fuel, e, st);
  }

  /** A removed receive evaluates the channel and does not receive. */
  lemma RemovedReceive(c: Ctx, fuel: nat, ch: Expr, zero: Value, ids: seq<int>, st: State)
    requires c.active in ids
    ensures var r, plain := Eval(c, fuel, Dispatch(MutRecv(zero), [ch], ids), st), Eval(c, fuel, ch, st);
            r == if plain.Stop? then Stop(plain.trace, plain.why) else Val(plain.st, zero)
  {
    EvalOne(c, fuel, ch, st);
  }

  // ----- The values mutants yield -----

  /** A removed receive yields the zero value of the element's type: the unit of
      addition on integers and of concatenation on strings, the value that !
      turns into true, and nil. */
  lemma {:induction false} ZeroNeutral(c: Ctx, fuel: nat, info: Info, t: Ty, st: State)
    ensures t.TInt? ==>
              var ty := OnTarget(t.kind, info.word);
              forall n | InRange(ty, n) :: ApplyBin(Add, Zero(info, t), IntV(ty, n)) == Ok(IntV(ty, n))
    ensures t.TString? ==> Zero(info, t).StrV? && forall s: string :: Zero(info, t).s + s == s
    ensures t.TBool? ==>
              Zero(info, t).BoolV? && Eval(c, fuel, Not(0, Lit(0, Zero(info, t))), st) == Val(st, BoolV(true))
    ensures t.TError? || t.TNilable? ==> Zero(info, t) == NilV
  {
    if t.TInt? {
      var ty := OnTarget(t.kind, info.word);
      forall n | InRange(ty, n)
        ensures ApplyBin(Add, Zero(info, t), IntV(ty, n)) == Ok(IntV(ty, n))
      {
        WrapId(ty, n);
      }
    }
  }

  /** However many groups share an expression, its return-zero or nil-error
      mutant yields the value that the mutant's text spells. */
  lemma {:induction false} YieldsSpelled(c: Ctx, fuel: nat, info: Info, t: Target, n: nat, gs: seq<Group>, e: Expr,
                                         st: State)
    requires SitesOkE(c, info, t, n, gs, e) && AnyHit(t, n, gs)
    requires KeyOf(t.value.oper) == KReturnZero || KeyOf(t.value.oper) == KErrReturn
    ensures var r, plain := Eval(c, fuel, ApplyAllE(info, n, gs, e), st), Eval(c, fuel, e, st);
            r == if plain.Stop? then Stop(plain.trace, plain.why) else Val(plain.st, Spelled(info, t.value.mutant))
  {
    NodeSites(c, fuel, info, t, n, gs, e);
    assert Eval(c, fuel, ApplyAllE(info, n, gs, e), st) == Eval(c, fuel, AlterE(info, t.value, e), st);
    assert AlterE(info, t.value, e) == Discard(e, Spelled(info, t.value.mutant));
  }

  function TraceOf<T>(r: Out<T>): seq<Event> {
    if r.Val? then r.st.trace else r.trace
  }

  lemma {:induction false} DiscardTrace(c: Ctx, fuel: nat, e: Expr, v: Value, st: State)
    ensures TraceOf(Eval(c, fuel, Discard(e, v), st)) == TraceOf(Eval(c, fuel, e, st))
  {
  }

  lemma {:induction false} AddConstTrace(c: Ctx, fuel: nat, e: Expr, d: int, st: State)
    ensures TraceOf(Eval(c, fuel, AddConst(e, d), st)) == TraceOf(Eval(c, fuel, e, st))
  {
  }

  lemma {:induction false} AlterWrapTrace(c: Ctx, fuel: nat, info: Info, m: Mutation, e: Expr, st: State)
    ensures TraceOf(Eval(c, fuel, AlterWrapE(info, m, e), st)) == TraceOf(Eval(c, fuel, e, st))
  {
    DiscardTrace(c, fuel, e, Spelled(info, m.mutant), st);
    AddConstTrace(c, fuel, e, Delta(m.mutant), st);
  }

  /** However many groups share an expression, a wrapper's mutant leaves the
      whole trace of evaluating it as it was; only the value differs. */
  lemma WrapperKeepsTrace(c: Ctx, fuel: nat, info: Info, t: Target, n: nat, gs: seq<Group>, e: Expr, st: State)
    requires SitesOkE(c, info, t, n, gs, e) && AnyHit(t, n, gs) && IsWrapper(KeyOf(t.value.oper))
    ensures TraceOf(Eval(c, fuel, ApplyAllE(info, n, gs, e), st)) == TraceOf(Eval(c, fuel, e, st))
  {
    NodeSites(c, fuel, info, t, n, gs, e);
    AlterWrapTrace(c, fuel, info, t.value, e, st);
    assert Eval(c, fuel, ApplyAllE(info, n, gs, e), st) == Eval(c, fuel, AlterWrapE(info, t.value, e), st);
  }

  lemma LogicRuns(c: Ctx, fuel: nat, e: Expr, st: State)
    requires e.Logic? && Eval(c, fuel, e.l, st).Val?
    ensures var left := Eval(c, fuel, e.l, st);
            Eval(c, fuel, e, st) ==
            if (left.v == BoolV(true)) == e.isAnd then Eval(c, fuel, e.r, left.st) else Val(left.st, BoolV(!e.isAnd))
  {
  }

  /** The mutant of && or || evaluates the right operand exactly when the
      original does not. */
  lemma LogicMutantFlipsRight(c: Ctx, fuel: nat, info: Info, t: Target, n: nat, gs: seq<Group>, e: Expr, st: State)
    requires SitesOkE(c, info, t, n, gs, e) && AnyHit(t, n, gs) && e.Logic?
    requires KeyOf(t.value.oper) == KBoolLogic && t.value.mutant == LogicText(!e.isAnd)
    requires Eval(c, fuel, e.l, st).Val?
    ensures var left := Eval(c, fuel, e.l, st);
            var mutant, original := Eval(c, fuel, ApplyAllE(info, n, gs, e), st), Eval(c, fuel, e, st);
            if (left.v == BoolV(true)) == e.isAnd
            then mutant == Val(left.st, BoolV(e.isAnd)) && original == Eval(c, fuel, e.r, left.st)
            else mutant == Eval(c, fuel, e.r, left.st) && original == Val(left.st, BoolV(!e.isAnd))
  {
    NodeSites(c, fuel, info, t, n, gs, e);
    var altered := Logic(e.id, !e.isAnd, e.l, e.r);
    assert AlterE(info, t.value, e) == altered;
    assert Eval(c, fuel, ApplyAllE(info, n, gs, e), st) == Eval(c, fuel, altered, st);
    LogicRuns(c, fuel, e, st);
    LogicRuns(c, fuel, altered, st);
  }

  /** A removed call or send does nothing at all, arguments and channel
      included. */
  lemma RemovedIsSilent(c: Ctx, fuel: nat, t: Target, n: nat, g: Group, s: Stmt, st: State)
    requires SiteOk(c, t, n, g) && FitsS(g, s) && Hit(t, n, g.key) && (g.key == KCallDelete || g.key == KChanOp)
    ensures Exec(c, fuel, ApplyS(g, s), st) == Val(st, Next)
  {
    StmtSite(c, fuel, t, n, g, s);
    assert Exec(c, fuel, ApplyS(g, s), st) == Exec(c, fuel, AlterS(t.value, s), st);
  }

  /** The last event of one trace differs from the other's in the value stored. */
  predicate StoresElsewise(a: seq<Event>, b: seq<Event>) {
    && |a| == |b| > 0 && a[..|a| - 1] == b[..|b| - 1]
    && match (a[|a| - 1], b[|b| - 1])
       case (Write(x, _), Write(y, _)) => x == y
       case (Store(p, i, _), Store(q, j, _)) => p == q && i == j
       case _ => false
  }

  /** A swapped increment evaluates its target once and as before: its trace
      differs from the original's in the value of the last store only. */
  lemma SwapStoresOnce(c: Ctx, fuel: nat, t: Target, n: nat, g: Group, s: Stmt, st: State)
    requires s.IncDec? && SiteOk(c, t, n, g) && FitsS(g, s) && Hit(t, n, g.key) && TextFitsS(t.value, s)
    ensures var a, b := TraceOf(Exec(c, fuel, ApplyS(g, s), st)), TraceOf(Exec(c, fuel, s, st));
            a == b || StoresElsewise(a, b)
  {
    StmtSite(c, fuel, t, n, g, s);
    assert Exec(c, fuel, ApplyS(g, s), st) == Exec(c, fuel, AlterS(t.value, s), st);
    var r := EvalLhs(c, fuel, s.lhs, st);
    if r.Val? {
      BumpsAlike(c, r.v, r.st);
      assert Exec(c, fuel, s, st) == Bump(c, if s.inc then 1 else -1, r.v, r.st);
      assert Exec(c, fuel, AlterS(t.value, s), st) == Bump(c, if s.inc then -1 else 1, r.v, r.st);
    }
  }

  /** The event of storing v. */
  function StoreEvent(p: Place, v: Value): Event {
    match p
    case PVar(x) => Write(x, v)
    case PIdx(b, i) => Store(b, i, v)
  }

  lemma BumpTrace(c: Ctx, d: int, p: Place, st: State)
    ensures var load, a := LoadFrom(c, p, st), TraceOf(Bump(c, d, p, st));
            if load.Val? && load.v.IntV? then a == load.st.trace + [StoreEvent(p, AddTo(load.v, d).v)]
            else a == TraceOf(load)
  {
  }

  lemma BumpsAlike(c: Ctx, p: Place, st: State)
    ensures var a, b := TraceOf(Bump(c, 1, p, st)), TraceOf(Bump(c, -1, p, st));
            a == b || (StoresElsewise(a, b) && StoresElsewise(b, a))
  {
    BumpTrace(c, 1, p, st);
    BumpTrace(c, -1, p, st);
    var load := LoadFrom(c, p, st);
    if load.Val? && load.v.IntV? {
      var pre := load.st.trace;
      assert forall e :: (pre + [e])[..|pre|] == pre;
    }
  }
}
