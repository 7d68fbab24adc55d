/** Replacing parts of a program by parts that behave alike gives a program
    that behaves alike, across two run contexts with the same outside world. */
module Congruence {
  import opened Seqs
  import opened Syntax
  import opened Semantics

  ghost predicate SimE(c: Ctx, d: Ctx, fuel: nat, a: Expr, b: Expr) {
    forall st :: Eval(c, fuel, a, st) == Eval(d, fuel, b, st)
  }

  ghost predicate SimAll(c: Ctx, d: Ctx, fuel: nat, xs: seq<Expr>, ys: seq<Expr>) {
    |xs| == |ys| && forall i :: 0 <= i < |xs| ==> SimE(c, d, fuel, xs[i], ys[i])
  }

  ghost predicate SimEs(c: Ctx, d: Ctx, fuel: nat, xs: seq<Expr>, ys: seq<Expr>) {
    forall st :: EvalAll(c, fuel, xs, st) == EvalAll(d, fuel, ys, st)
  }

  ghost predicate SimCall(c: Ctx, d: Ctx, fuel: nat) {
    forall f, vs, st :: CallFunc(c, fuel, f, vs, st) == CallFunc(d, fuel, f, vs, st)
  }

  ghost predicate SimL(c: Ctx, d: Ctx, fuel: nat, a: Lhs, b: Lhs) {
    forall st :: EvalLhs(c, fuel, a, st) == EvalLhs(d, fuel, b, st)
  }

  ghost predicate SimS(c: Ctx, d: Ctx, fuel: nat, a: Stmt, b: Stmt) {
    forall st :: Exec(c, fuel, a, st) == Exec(d, fuel, b, st)
  }

  ghost predicate SimSs(c: Ctx, d: Ctx, fuel: nat, xs: seq<Stmt>, ys: seq<Stmt>) {
    forall st :: ExecAll(c, fuel, xs, st) == ExecAll(d, fuel, ys, st)
  }

  ghost predicate SimTag(c: Ctx, d: Ctx, fuel: nat, a: Option<Expr>, b: Option<Expr>) {
    if a.Some? then b.Some? && SimE(c, d, fuel, a.value, b.value) else b.None?
  }

  ghost predicate SimClause(c: Ctx, d: Ctx, fuel: nat, a: Clause, b: Clause) {
    a.dflt == b.dflt && SimAll(c, d, fuel, a.list, b.list) && SimSs(c, d, fuel, a.body, b.body)
  }

  ghost predicate SimCs(c: Ctx, d: Ctx, fuel: nat, xs: seq<Clause>, ys: seq<Clause>) {
    |xs| == |ys| && forall i :: 0 <= i < |xs| ==> SimClause(c, d, fuel, xs[i], ys[i])
  }

  // ----- Lists -----

  lemma {:induction false} EvalAllSim(c: Ctx, d: Ctx, fuel: nat, xs: seq<Expr>, ys: seq<Expr>, st: State)
    requires SimAll(c, d, fuel, xs, ys)
    ensures EvalAll(c, fuel, xs, st) == EvalAll(d, fuel, ys, st)
    decreases |xs|
  {
    if xs != [] {
      assert SimE(c, d, fuel, xs[0], ys[0]);
      var r := Eval(c, fuel, xs[0], st);
      if r.Val? {
        EvalAllSim(c, d, fuel, xs[1..], ys[1..], r.st);
      }
    }
  }

  lemma ListSim(c: Ctx, d: Ctx, fuel: nat, xs: seq<Expr>, ys: seq<Expr>)
    requires SimAll(c, d, fuel, xs, ys)
    ensures SimEs(c, d, fuel, xs, ys)
  {
    forall st {
      EvalAllSim(c, d, fuel, xs, ys, st);
    }
  }

  lemma {:induction false} MatchListSim(c: Ctx, d: Ctx, fuel: nat, tv: Option<Value>, xs: seq<Expr>, ys: seq<Expr>,
                                        st: State)
    requires SimAll(c, d, fuel, xs, ys)
    ensures MatchList(c, fuel, tv, xs, st) == MatchList(d, fuel, tv, ys, st)
    decreases |xs|
  {
    if xs != [] {
      assert SimE(c, d, fuel, xs[0], ys[0]);
      var r := Eval(c, fuel, xs[0], st);
      if r.Val? {
        MatchListSim(c, d, fuel, tv, xs[1..], ys[1..], r.st);
      }
    }
  }

  lemma {:induction false} SelectSim(c: Ctx, d: Ctx, fuel: nat, tv: Option<Value>, xs: seq<Clause>, ys: seq<Clause>,
                                     i: nat, st: State)
    requires SimCs(c, d, fuel, xs, ys) && i <= |xs|
    ensures Select(c, fuel, tv, xs, i, st) == Select(d, fuel, tv, ys, i, st)
    decreases |xs| - i
  {
    if i < |xs| {
      assert SimClause(c, d, fuel, xs[i], ys[i]);
      MatchListSim(c, d, fuel, tv, xs[i].list, ys[i].list, st);
      var r := MatchList(c, fuel, tv, xs[i].list, st);
      if r.Val? && !r.v {
        SelectSim(c, d, fuel, tv, xs, ys, i + 1, r.st);
      }
    }
  }

  lemma {:induction false} ExecFromSim(c: Ctx, d: Ctx, fuel: nat, xs: seq<Clause>, ys: seq<Clause>, entry: int,
                                       st: State)
    requires SimCs(c, d, fuel, xs, ys)
    ensures ExecFrom(c, fuel, xs, entry, st) == ExecFrom(d, fuel, ys, entry, st)
    decreases if entry < 0 then 0 else if entry > |xs| then 0 else |xs| - entry
  {
    if 0 <= entry < |xs| {
      assert SimClause(c, d, fuel, xs[entry], ys[entry]);
      var r := ExecAll(c, fuel, xs[entry].body, st);
      if r.Val? && r.v == Fall {
        ExecFromSim(c, d, fuel, xs, ys, entry + 1, r.st);
      }
    }
  }

  lemma {:induction false} DefaultSim(c: Ctx, d: Ctx, fuel: nat, xs: seq<Clause>, ys: seq<Clause>, n: nat)
    requires SimCs(c, d, fuel, xs, ys) && n <= |xs|
    ensures DefaultOf(xs, n) == DefaultOf(ys, n)
  {
    if n > 0 {
      assert SimClause(c, d, fuel, xs[n - 1], ys[n - 1]);
      DefaultSim(c, d, fuel, xs, ys, n - 1);
    }
  }

  // ----- One constructor at a time -----

  /** a and b are built alike from parts that behave alike. */
  ghost predicate PairE(c: Ctx, d: Ctx, fuel: nat, a: Expr, b: Expr) {
    match a
    case Lit(_, v) => b.Lit? && b.v == v
    case Var(_, x) => b.Var? && b.x == x
    case Bin(_, op, l, r) => b.Bin? && b.op == op && SimE(c, d, fuel, l, b.l) && SimE(c, d, fuel, r, b.r)
    case Logic(_, isAnd, l, r) => b.Logic? && b.isAnd == isAnd && SimE(c, d, fuel, l, b.l) && SimE(c, d, fuel, r, b.r)
    case Not(_, e) => b.Not? && SimE(c, d, fuel, e, b.e)
    case Index(_, base, i) => b.Index? && SimE(c, d, fuel, base, b.base) && SimE(c, d, fuel, i, b.idx)
    case Slice(_, base, bounds) => b.Slice? && SimE(c, d, fuel, base, b.base) && SimEs(c, d, fuel, bounds, b.bounds)
    case Recv(_, ch) => b.Recv? && SimE(c, d, fuel, ch, b.ch)
    case Call(_, f, args) => b.Call? && b.f == f && SimEs(c, d, fuel, args, b.args) && SimCall(c, d, fuel)
    case Composite(_, fs, vals) => b.Composite? && b.fields == fs && SimEs(c, d, fuel, vals, b.vals)
    case Absent => b.Absent?
    case AddConst(e, k) => b.AddConst? && b.d == k && SimE(c, d, fuel, e, b.e)
    case Discard(e, v) => b.Discard? && b.v == v && SimE(c, d, fuel, e, b.e)
    case _ => false
  }

  /** The forms that only compute. */
  predicate Computes(e: Expr) {
    e.Lit? || e.Var? || e.Bin? || e.Logic? || e.Not? || e.Absent? || e.AddConst? || e.Discard?
  }

  lemma {:induction false} CongComputing(c: Ctx, d: Ctx, fuel: nat, a: Expr, b: Expr, st: State)
    requires PairE(c, d, fuel, a, b) && Computes(a)
    ensures Eval(c, fuel, a, st) == Eval(d, fuel, b, st)
  {
    if a.Logic? {
      assert EvalLogic(c, fuel, a.isAnd, a.l, a.r, a, st) == EvalLogic(d, fuel, a.isAnd, b.l, b.r, b, st);
    }
  }

  lemma {:induction false} CongAsking(c: Ctx, d: Ctx, fuel: nat, a: Expr, b: Expr, st: State)
    requires c.world == d.world && PairE(c, d, fuel, a, b) && !Computes(a)
    ensures Eval(c, fuel, a, st) == Eval(d, fuel, b, st)
  {
  }

  lemma CongE(c: Ctx, d: Ctx, fuel: nat, a: Expr, b: Expr)
    requires c.world == d.world && PairE(c, d, fuel, a, b)
    ensures SimE(c, d, fuel, a, b)
  {
    forall st
      ensures Eval(c, fuel, a, st) == Eval(d, fuel, b, st)
    {
      if Computes(a) {
        CongComputing(c, d, fuel, a, b, st);
      } else {
        CongAsking(c, d, fuel, a, b, st);
      }
    }
  }

  lemma CongL(c: Ctx, d: Ctx, fuel: nat, a: Lhs, b: Lhs)
    requires a.LVar? ==> a == b
    requires a.LIndex? ==> b.LIndex? && SimE(c, d, fuel, a.base, b.base) && SimE(c, d, fuel, a.idx, b.idx)
    ensures SimL(c, d, fuel, a, b)
  {
    forall st
      ensures EvalLhs(c, fuel, a, st) == EvalLhs(d, fuel, b, st)
    {
    }
  }

  ghost predicate PairS(c: Ctx, d: Ctx, fuel: nat, a: Stmt, b: Stmt) {
    match a
    case ExprStmt(e) => b.ExprStmt? && SimE(c, d, fuel, e, b.e)
    case CallStmt(_, f, args) => b.CallStmt? && b.f == f && SimEs(c, d, fuel, args, b.args) && SimCall(c, d, fuel)
    case Assign(l, r) => b.Assign? && SimL(c, d, fuel, l, b.lhs) && SimE(c, d, fuel, r, b.rhs)
    case IncDec(_, l, inc) => b.IncDec? && b.inc == inc && SimL(c, d, fuel, l, b.lhs)
    case Compound(_, op, l, r) => b.Compound? && b.op == op && SimL(c, d, fuel, l, b.lhs) && SimE(c, d, fuel, r, b.rhs)
    case Send(_, ch, v) => b.Send? && SimE(c, d, fuel, ch, b.ch) && SimE(c, d, fuel, v, b.val)
    case If(cond, t, e) =>
      b.If? && SimE(c, d, fuel, cond, b.cond) && SimSs(c, d, fuel, t, b.thn) && SimSs(c, d, fuel, e, b.els)
    case For(cond, post, body) =>
      && b.For? && SimE(c, d, fuel, cond, b.cond) && SimSs(c, d, fuel, post, b.post) && SimSs(c, d, fuel, body, b.body)
      && (fuel > 0 ==> SimS(c, d, fuel - 1, a, b))
    case Return(es) => b.Return? && SimEs(c, d, fuel, es, b.results)
    case Switch(_, tag, cs, swapped) =>
      b.Switch? && b.swapped == swapped && SimTag(c, d, fuel, tag, b.tag) && SimCs(c, d, fuel, cs, b.clauses)
    case Break => b.Break?
    case Continue => b.Continue?
    case Fallthrough => b.Fallthrough?
    case Skip => b.Skip?
    case _ => false
  }

  lemma {:induction false} SwitchSim(c: Ctx, d: Ctx, fuel: nat, a: Stmt, b: Stmt, st: State)
    requires a.Switch? && PairS(c, d, fuel, a, b)
    ensures Exec(c, fuel, a, st) == Exec(d, fuel, b, st)
  {
    var r := EvalTag(c, fuel, a.tag, st);
    assert r == EvalTag(d, fuel, b.tag, st);
    if r.Val? {
      SelectSim(c, d, fuel, r.v, a.clauses, b.clauses, 0, r.st);
      DefaultSim(c, d, fuel, a.clauses, b.clauses, |a.clauses|);
      var s := Select(c, fuel, r.v, a.clauses, 0, r.st);
      if s.Val? {
        var entry := if s.v.Some? then s.v.value else DefaultOf(a.clauses, |a.clauses|);
        ExecFromSim(c, d, fuel, a.clauses, b.clauses, Transpose(a.swapped, entry), s.st);
      }
    }
  }

  lemma CongS(c: Ctx, d: Ctx, fuel: nat, a: Stmt, b: Stmt)
    requires c.world == d.world && PairS(c, d, fuel, a, b)
    ensures SimS(c, d, fuel, a, b)
  {
    forall st
      ensures Exec(c, fuel, a, st) == Exec(d, fuel, b, st)
    {
      match a
      case ExprStmt(_) =>
      case CallStmt(_, _, _) =>
      case Assign(_, _) => PlacesAgree(c, d);
      case IncDec(_, _, _) => PlacesAgree(c, d);
      case Compound(_, _, _, _) => PlacesAgree(c, d);
      case Send(_, _, _) =>
      case If(_, _, _) =>
      case For(_, _, _) =>
      case Return(_) =>
      case Switch(_, _, _, _) => SwitchSim(c, d, fuel, a, b, st);
      case Break =>
      case Continue =>
      case Fallthrough =>
      case Skip =>
    }
  }

  lemma PlacesAgree(c: Ctx, d: Ctx)
    requires c.world == d.world
    ensures forall p, v, st :: StoreTo(c, p, v, st) == StoreTo(d, p, v, st)
    ensures forall op, p, v, st :: UpdatePlace(c, op, p, v, st) == UpdatePlace(d, op, p, v, st)
    ensures forall k, p, st :: Bump(c, k, p, st) == Bump(d, k, p, st)
  {
  }

  lemma CongSs(c: Ctx, d: Ctx, fuel: nat, a: Stmt, b: Stmt, xs: seq<Stmt>, ys: seq<Stmt>)
    requires SimS(c, d, fuel, a, b) && SimSs(c, d, fuel, xs, ys)
    ensures SimSs(c, d, fuel, [a] + xs, [b] + ys)
  {
    assert ([a] + xs)[1..] == xs && ([b] + ys)[1..] == ys;
    forall st
      ensures ExecAll(c, fuel, [a] + xs, st) == ExecAll(d, fuel, [b] + ys, st)
    {
    }
  }
}
