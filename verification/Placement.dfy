/** Where a mutation's ID ends up: in a call of its own dispatcher, inside the
    rewritten program. */
module Placement {
  import Integers
  import opened Seqs
  import opened Syntax
  import opened Mutations
  import opened Operators
  import opened SwitchRewrite
  import opened Schema
  import opened Fits

  /** A call of the dispatcher of one key that holds one ID. */
  datatype Holding = Holding(key: Key, id: int)

  /** The keys whose mutants a dispatcher knows. */
  function KeysOf(d: Disp): set<Key> {
    match d
    case MutInt(_) => {KIntArith}
    case MutIntBit(_) => {KIntBitwise}
    case MutIntCmp(_) => {KIntCmp}
    case MutNot => {KBoolNot}
    case MutErr => {KErrReturn}
    case MutIdx => {KSliceIndex, KSliceRange}
    case MutString => {KStringLiteral}
    case MutIntLit => {KIntLiteral}
    case MutBoolLit => {KBoolLiteral}
    case MutRetZero(_) => {KReturnZero}
    case MutRecv(_) => {KChanOp}
    case LitOff => {KIntLiteral}
    case LitOn => {KIntLiteral}
    case MutSwap(_, _) => {KSwitchCase}
  }

  /** Somewhere in the tree there is such a call. */
  predicate InE(w: Holding, e: Expr)
    decreases e, 0
  {
    match e
    case Bin(_, _, l, r) => InE(w, l) || InE(w, r)
    case Logic(_, _, l, r) => InE(w, l) || InE(w, r)
    case Not(_, e1) => InE(w, e1)
    case Index(_, b, i) => InE(w, b) || InE(w, i)
    case Slice(_, b, bounds) => InE(w, b) || InEs(w, bounds)
    case Recv(_, ch) => InE(w, ch)
    case Call(_, _, args) => InEs(w, args)
    case Composite(_, _, vals) => InEs(w, vals)
    case AddConst(e1, _) => InE(w, e1)
    case Discard(e1, _) => InE(w, e1)
    case Dispatch(d, args, ids) => (w.key in KeysOf(d) && w.id in ids) || InEs(w, args)
    case MutBool(l, r, _, ids) => (w.key == KBoolLogic && w.id in ids) || InE(w, l) || InE(w, r)
    case TagFunc(tag, tests, _) => (tag.Some? && InE(w, tag.value)) || InTests(w, tests)
    case _ => false
  }

  predicate InEs(w: Holding, es: seq<Expr>)
    decreases es, 0
  {
    es != [] && (InE(w, es[0]) || InEs(w, es[1..]))
  }

  predicate InTests(w: Holding, tests: seq<Test>)
    decreases tests, 0
  {
    tests != [] && (InTest(w, tests[0]) || InTests(w, tests[1..]))
  }

  predicate InTest(w: Holding, t: Test)
    decreases t, 0
  {
    match t
    case IfMatch(e, _) => InE(w, e)
    case IfKeep(ids, body) => (w.key == KSwitchCase && w.id in ids) || InTests(w, body)
  }

  predicate InL(w: Holding, l: Lhs)
    decreases l, 0
  {
    l.LIndex? && (InE(w, l.base) || InE(w, l.idx))
  }

  predicate InS(w: Holding, s: Stmt)
    decreases s, 0
  {
    match s
    case ExprStmt(e) => InE(w, e)
    case CallStmt(_, _, args) => InEs(w, args)
    case Assign(l, r) => InL(w, l) || InE(w, r)
    case IncDec(_, l, _) => InL(w, l)
    case Compound(_, _, l, r) => InL(w, l) || InE(w, r)
    case Send(_, ch, v) => InE(w, ch) || InE(w, v)
    case If(cond, a, b) => InE(w, cond) || InSs(w, a) || InSs(w, b)
    case For(cond, post, body) => InE(w, cond) || InSs(w, post) || InSs(w, body)
    case Return(es) => InEs(w, es)
    case Switch(_, tag, cs, _) => (tag.Some? && InE(w, tag.value)) || InCs(w, cs)
    case CallSkip(closure, ids) =>
      (w.key == (if closure.Send? then KChanOp else KCallDelete) && w.id in ids) || InS(w, closure)
    case MutStmt(orig, other, ids) => (w.key == KStmtSwap && w.id in ids) || InS(w, orig) || InS(w, other)
    case _ => false
  }

  predicate InSs(w: Holding, ss: seq<Stmt>)
    decreases ss, 0
  {
    ss != [] && (InS(w, ss[0]) || InSs(w, ss[1..]))
  }

  predicate InCs(w: Holding, cs: seq<Clause>)
    decreases cs, 0
  {
    cs != [] && (InEs(w, cs[0].list) || InSs(w, cs[0].body) || InCs(w, cs[1..]))
  }

  predicate InProg(w: Holding, p: Program) {
    exists f :: f in p && InSs(w, p[f].body)
  }

  // ----- Expressions -----

  lemma {:induction false} LitSumHolds(t: Integers.IntTy, n: int, g: Group, k: nat, id: int)
    requires k <= |g.cands| == |g.ids| && id in g.ids
    ensures InE(Holding(KIntLiteral, id), LitSum(t, n, g, k))
  {
    if k > 0 {
      LitSumHolds(t, n, g, k - 1, id);
    }
  }

  lemma {:induction false} PutsBool(info: Info, n: nat, g: Group, e: Expr, id: int)
    requires FitsE(g, e) && g.key == KBoolLiteral && id in g.ids
    ensures InE(Holding(g.key, id), ApplyE(info, n, g, e))
  {
    var w, call := Holding(g.key, id), Dispatch(MutBoolLit, [e], g.ids);
    assert InE(w, call);
    assert InE(w, Bin(0, Eq, call, Lit(0, BoolV(true))));
  }

  lemma {:induction false} PutsLiteral(info: Info, n: nat, g: Group, e: Expr, id: int)
    requires FitsE(g, e) && g.key == KIntLiteral && |g.cands| == |g.ids| && id in g.ids
    ensures InE(Holding(g.key, id), ApplyE(info, n, g, e))
  {
    LitSumHolds(e.v.t, e.v.n, g, |g.cands|, id);
    assert InE(Holding(g.key, id), Dispatch(MutIntLit, [e], g.ids));
  }

  /** A group's rewrite puts each of its IDs in a call of its dispatcher. */
  lemma {:induction false} PutsE(info: Info, n: nat, g: Group, e: Expr, id: int)
    requires FitsE(g, e) && |g.cands| == |g.ids| && id in g.ids
    ensures InE(Holding(g.key, id), ApplyE(info, n, g, e))
  {
    if g.key == KIntLiteral {
      PutsLiteral(info, n, g, e, id);
    } else if g.key == KBoolLiteral {
      PutsBool(info, n, g, e, id);
    } else if g.key == KSliceIndex {
      assert InE(Holding(g.key, id), Dispatch(MutIdx, [e.idx], g.ids));
    }
  }

  /** A rewrite keeps every call inside what it rewrites. */
  lemma {:induction false} KeepsE(w: Holding, info: Info, n: nat, g: Group, e: Expr)
    requires InE(w, e)
    ensures InE(w, ApplyE(info, n, g, e))
  {
    var one := [e];
    assert InEs(w, one);
    if e.Bin? {
      var two := [e.l, e.r];
      assert two[1..] == [e.r] && InEs(w, two);
    }
  }

  lemma {:induction false} PutsAllE(info: Info, n: nat, gs: seq<Group>, e: Expr, i: nat, id: int)
    requires Stacked(gs) && i < |gs| && id in gs[i].ids
    requires forall j :: 0 <= j < |gs| ==> FitsE(gs[j], e) && |gs[j].cands| == |gs[j].ids|
    ensures InE(Holding(gs[i].key, id), ApplyAllE(info, n, gs, e))
    decreases |gs|
  {
    var init, last := gs[..|gs| - 1], gs[|gs| - 1];
    var inner := ApplyAllE(info, n, init, e);
    if i == |gs| - 1 {
      assert i == 0 ==> inner == e;
      PutsE(info, n, last, inner, id);
    } else {
      PutsAllE(info, n, init, e, i, id);
      KeepsE(Holding(gs[i].key, id), info, n, last, inner);
    }
  }

  lemma {:induction false} KeepsAllE(w: Holding, info: Info, n: nat, gs: seq<Group>, e: Expr)
    requires InE(w, e)
    ensures InE(w, ApplyAllE(info, n, gs, e))
    decreases |gs|
  {
    if gs != [] {
      KeepsAllE(w, info, n, gs[..|gs| - 1], e);
      KeepsE(w, info, n, gs[|gs| - 1], ApplyAllE(info, n, gs[..|gs| - 1], e));
    }
  }

  /** A rewrite of a program, and one of its mutations. */
  datatype Aim = Aim(info: Info, gm: Groups, m: Mutation)

  /** The call that the mutation must reach. */
  function Wanted(x: Aim): Holding {
    Holding(KeyOf(x.m.oper), x.m.id)
  }

  predicate Here(x: Aim, id: Option<nat>) {
    id == Some(x.m.node)
  }

  /** One of the groups is the mutation's own. */
  ghost predicate HasOwn(x: Aim, gs: seq<Group>) {
    exists i, j :: 0 <= i < |gs| && OwnAt(x, gs[i], j)
  }

  predicate OwnAt(x: Aim, g: Group, j: int) {
    && g.key == KeyOf(x.m.oper) && 0 <= j < |g.ids| == |g.cands|
    && g.ids[j] == x.m.id && g.cands[j].pos == x.m.pos && g.cands[j].mutant == x.m.mutant
  }

  /** The groups on a node fit it, and the mutation's node has its group. */
  ghost predicate NodeFits(x: Aim, n: Node) {
    match NodeId(n)
    case None => true
    case Some(id) =>
      && (id == x.m.node ==> id in x.gm && HasOwn(x, x.gm[id]))
      && (id in x.gm ==>
            && (forall i :: 0 <= i < |x.gm[id]| ==> |x.gm[id][i].cands| == |x.gm[id][i].ids|)
            && match n
               case NodeE(e) => Stacked(x.gm[id]) && forall i :: 0 <= i < |x.gm[id]| ==> FitsE(x.gm[id][i], e)
               case NodeL(l) => |x.gm[id]| == 1 && x.gm[id][0].key == KSliceIndex
               case NodeS(s) => |x.gm[id]| == 1 && FitsS(x.gm[id][0], s))
  }

  ghost predicate AllFit(x: Aim, ns: seq<Node>) {
    forall n :: n in ns ==> NodeFits(x, n)
  }

  lemma FitParts(x: Aim, a: seq<Node>, b: seq<Node>)
    requires AllFit(x, a + b)
    ensures AllFit(x, a) && AllFit(x, b)
  {
    assert forall n :: n in a ==> n in a + b;
    assert forall n :: n in b ==> n in a + b;
  }

  /** The mutation's node is one of these, and if it is a switch that loses a
      clause, not its default. */
  ghost predicate Targets(x: Aim, ns: seq<Node>) {
    exists n :: n in ns && Here(x, NodeId(n)) && DropsCase(x.m, n)
  }

  ghost predicate DropsCase(m: Mutation, n: Node) {
    n.NodeS? && n.s.Switch? && n.s.clauses != [] && !m.mutant.SwapText? ==>
      !n.s.clauses[IndexOf(n.s.clauses, m.pos)].dflt
  }

  lemma TargetsParts(x: Aim, a: seq<Node>, b: seq<Node>)
    ensures Targets(x, a + b) ==> Targets(x, a) || Targets(x, b)
  {
    if Targets(x, a + b) {
      var n :| n in a + b && Here(x, NodeId(n)) && DropsCase(x.m, n);
    }
  }

  lemma KidsFit(x: Aim, g: Group, e: Expr)
    requires FitsE(g, e)
    ensures FitsE(g, RwKidsE(x.info, x.gm, e))
  {
  }

  lemma OwnE(x: Aim, e: Expr)
    requires Here(x, ExprId(e)) && NodeFits(x, NodeE(e))
    ensures InE(Wanted(x), RwE(x.info, x.gm, e))
  {
    var id := ExprId(e).value;
    var gs := x.gm[id];
    var i, j :| 0 <= i < |gs| && OwnAt(x, gs[i], j);
    forall k | 0 <= k < |gs|
      ensures FitsE(gs[k], RwKidsE(x.info, x.gm, e))
    {
      KidsFit(x, gs[k], e);
    }
    PutsAllE(x.info, id, gs, RwKidsE(x.info, x.gm, e), i, x.m.id);
  }

  /** If the mutation's node is in e, its ID is in a call in e's rewrite. */
  lemma PlacedE(x: Aim, e: Expr)
    requires SourceE(e) && AllFit(x, NodesE(e))
    ensures Targets(x, NodesE(e)) ==> InE(Wanted(x), RwE(x.info, x.gm, e))
    decreases e, 1
  {
    var rest := NodesE(e)[1..];
    assert NodesE(e) == [NodeE(e)] + rest;
    assert NodeE(e) in NodesE(e);
    if Here(x, ExprId(e)) {
      OwnE(x, e);
    } else {
      FitParts(x, [NodeE(e)], rest);
      TargetsParts(x, [NodeE(e)], rest);
      PlacedKidsE(x, e);
      var id := ExprId(e);
      if id.Some? && id.value in x.gm && Targets(x, rest) {
        KeepsAllE(Wanted(x), x.info, id.value, x.gm[id.value], RwKidsE(x.info, x.gm, e));
      }
    }
  }

  lemma PlacedKidsE(x: Aim, e: Expr)
    requires SourceE(e) && AllFit(x, NodesE(e)[1..])
    ensures Targets(x, NodesE(e)[1..]) ==> InE(Wanted(x), RwKidsE(x.info, x.gm, e))
    decreases e, 0
  {
    var rest := NodesE(e)[1..];
    match e
    case Bin(_, _, l, r) => assert rest == NodesE(l) + NodesE(r); PlacedTwo(x, l, r, e);
    case Logic(_, _, l, r) => assert rest == NodesE(l) + NodesE(r); PlacedTwo(x, l, r, e);
    case Not(_, e1) => assert rest == NodesE(e1); PlacedE(x, e1);
    case Index(_, b, i) => assert rest == NodesE(b) + NodesE(i); PlacedTwo(x, b, i, e);
    case Slice(_, b, bounds) =>
      assert rest == NodesE(b) + NodesEs(bounds);
      FitParts(x, NodesE(b), NodesEs(bounds));
      TargetsParts(x, NodesE(b), NodesEs(bounds));
      PlacedE(x, b);
      PlacedEs(x, bounds);
    case Recv(_, ch) => assert rest == NodesE(ch); PlacedE(x, ch);
    case Call(_, _, args) => assert rest == NodesEs(args); PlacedEs(x, args);
    case Composite(_, _, vals) => assert rest == NodesEs(vals); PlacedEs(x, vals);
    case Lit(_, _) => assert rest == [];
    case Var(_, _) => assert rest == [];
    case Absent => assert rest == [];
  }

  lemma PlacedTwo(x: Aim, a: Expr, b: Expr, whole: Expr)
    requires SourceE(a) && SourceE(b) && AllFit(x, NodesE(a) + NodesE(b))
    requires a < whole && b < whole
    ensures Targets(x, NodesE(a) + NodesE(b)) ==>
              InE(Wanted(x), RwE(x.info, x.gm, a)) || InE(Wanted(x), RwE(x.info, x.gm, b))
    decreases whole, -1
  {
    FitParts(x, NodesE(a), NodesE(b));
    TargetsParts(x, NodesE(a), NodesE(b));
    PlacedE(x, a);
    PlacedE(x, b);
  }

  lemma PlacedEs(x: Aim, es: seq<Expr>)
    requires SourceEs(es) && AllFit(x, NodesEs(es))
    ensures Targets(x, NodesEs(es)) ==> InEs(Wanted(x), RwEs(x.info, x.gm, es))
    decreases es, 0
  {
    if es != [] {
      FitParts(x, NodesE(es[0]), NodesEs(es[1..]));
      TargetsParts(x, NodesE(es[0]), NodesEs(es[1..]));
      PlacedE(x, es[0]);
      PlacedEs(x, es[1..]);
      var r := RwEs(x.info, x.gm, es);
      assert r[1..] == RwEs(x.info, x.gm, es[1..]);
    }
  }

  lemma PlacedL(x: Aim, l: Lhs)
    requires SourceL(l) && AllFit(x, NodesL(l))
    ensures Targets(x, NodesL(l)) ==> InL(Wanted(x), RwL(x.info, x.gm, l))
  {
    var rest := NodesL(l)[1..];
    assert NodesL(l) == [NodeL(l)] + rest;
    FitParts(x, [NodeL(l)], rest);
    TargetsParts(x, [NodeL(l)], rest);
    if l.LIndex? {
      assert rest == NodesE(l.base) + NodesE(l.idx);
      FitParts(x, NodesE(l.base), NodesE(l.idx));
      TargetsParts(x, NodesE(l.base), NodesE(l.idx));
      PlacedE(x, l.base);
      PlacedE(x, l.idx);
      assert NodeFits(x, NodeL(l)) by { assert NodeL(l) in [NodeL(l)]; }
      var l1 := LIndex(l.id, RwE(x.info, x.gm, l.base), RwE(x.info, x.gm, l.idx));
      if l.id in x.gm {
        var gs := x.gm[l.id];
        assert gs == [gs[0]] && gs[..0] == [] && ApplyAllL(gs, l1) == ApplyL(gs[0], l1);
        IdxHolds(x, l1.idx, gs[0].ids);
      }
    }
  }

  lemma IdxHolds(x: Aim, i: Expr, ids: seq<int>)
    ensures InE(Wanted(x), i) ==> InE(Wanted(x), Dispatch(MutIdx, [i], ids))
    ensures Wanted(x).key == KSliceIndex && x.m.id in ids ==> InE(Wanted(x), Dispatch(MutIdx, [i], ids))
  {
    assert InE(Wanted(x), i) ==> InEs(Wanted(x), [i]);
  }

  // ----- Switches -----

  lemma {:induction false} TestsHave(w: Holding, a: seq<Test>, b: seq<Test>)
    ensures InTests(w, a + b) <==> InTests(w, a) || InTests(w, b)
    decreases |a|
  {
    if a == [] {
      assert a + b == b;
    } else {
      assert (a + b)[1..] == a[1..] + b;
      TestsHave(w, a[1..], b);
    }
  }

  lemma {:induction false} MatchesHave(w: Holding, list: seq<Expr>, i: int)
    ensures InEs(w, list) ==> InTests(w, IfMatches(list, i))
    decreases |list|
  {
    if list != [] {
      assert IfMatches(list, i)[1..] == IfMatches(list[1..], i);
      MatchesHave(w, list[1..], i);
    }
  }

  lemma ClauseTestsHave(w: Holding, c: Clause, i: int, drops: map<int, int>)
    requires c.dflt ==> c.list == []
    ensures InEs(w, c.list) ==> InTests(w, ClauseTests(c, i, drops))
    ensures !c.dflt && i in drops && w == Holding(KSwitchCase, drops[i]) ==> InTests(w, ClauseTests(c, i, drops))
  {
    MatchesHave(w, c.list, i);
  }

  lemma {:induction false} TestsFromHave(w: Holding, cs: seq<Clause>, drops: map<int, int>, i: nat, k: nat)
    requires i <= k < |cs| && ClausesOk(cs)
    ensures InEs(w, cs[k].list) ==> InTests(w, TestsFrom(cs, drops, i))
    ensures !cs[k].dflt && k in drops && w == Holding(KSwitchCase, drops[k]) ==> InTests(w, TestsFrom(cs, drops, i))
    decreases k - i
  {
    TestsHave(w, ClauseTests(cs[i], i, drops), TestsFrom(cs, drops, i + 1));
    if i == k {
      ClauseTestsHave(w, cs[i], i, drops);
    } else {
      TestsFromHave(w, cs, drops, i + 1, k);
    }
  }

  lemma {:induction false} InClause(w: Holding, cs: seq<Clause>) returns (k: nat)
    requires InCs(w, cs)
    ensures k < |cs| && (InEs(w, cs[k].list) || InSs(w, cs[k].body))
  {
    if InEs(w, cs[0].list) || InSs(w, cs[0].body) {
      k := 0;
    } else {
      k := InClause(w, cs[1..]);
      k := k + 1;
    }
  }

  lemma {:induction false} ClauseIn(w: Holding, cs: seq<Clause>, k: nat)
    requires k < |cs| && (InEs(w, cs[k].list) || InSs(w, cs[k].body))
    ensures InCs(w, cs)
  {
    if k > 0 {
      ClauseIn(w, cs[1..], k - 1);
    }
  }

  lemma {:induction false} SwapCallsHave(w: Holding, tag: Expr, swaps: seq<Swap>)
    ensures InE(w, tag) ==> InE(w, SwapCalls(tag, swaps))
    ensures forall j :: 0 <= j < |swaps| && w == Holding(KSwitchCase, swaps[j].id) ==> InE(w, SwapCalls(tag, swaps))
    decreases |swaps|
  {
    if swaps != [] {
      var inner := SwapCalls(tag, swaps[..|swaps| - 1]);
      SwapCallsHave(w, tag, swaps[..|swaps| - 1]);
      assert InE(w, inner) ==> InEs(w, [inner]);
    }
  }

  lemma {:induction false} SwapListed(clauses: seq<Clause>, g: Group, k: nat, j: nat) returns (i: nat)
    requires j < k <= |g.cands| == |g.ids| && g.cands[j].mutant.SwapText?
    ensures i < |Swaps(clauses, g, k)| && Swaps(clauses, g, k)[i].id == g.ids[j]
  {
    if j == k - 1 {
      i := |Swaps(clauses, g, k - 1)|;
    } else {
      i := SwapListed(clauses, g, k - 1, j);
    }
  }

  /** The rewritten switch keeps every call inside the switch. */
  lemma SwitchKeeps(w: Holding, g: Group, s: Stmt)
    requires s.Switch? && ClausesOk(s.clauses) && |g.cands| == |g.ids| && InS(w, s)
    ensures InS(w, RewriteSwitch(g, s))
  {
    var drops := Drops(s.clauses, g, |g.cands|);
    var closure := TagFunc(s.tag, TestsFrom(s.clauses, drops, 0), DefaultOf(s.clauses, |s.clauses|));
    SwapCallsHave(w, closure, Swaps(s.clauses, g, |g.cands|));
    if InCs(w, s.clauses) {
      var k := InClause(w, s.clauses);
      TestsFromHave(w, s.clauses, drops, 0, k);
      if InSs(w, s.clauses[k].body) {
        ClauseIn(w, IndexedAll(s.clauses), k);
      }
    }
  }

  /** It holds the ID of each of its swaps and drops. */
  lemma SwitchPuts(g: Group, s: Stmt, j: nat)
    requires s.Switch? && g.key == KSwitchCase && FitsS(g, s) && j < |g.cands| == |g.ids|
    requires !g.cands[j].mutant.SwapText? ==> !s.clauses[IndexOf(s.clauses, g.cands[j].pos)].dflt
    ensures InS(Holding(KSwitchCase, g.ids[j]), RewriteSwitch(g, s))
  {
    var w := Holding(KSwitchCase, g.ids[j]);
    var drops, swaps := Drops(s.clauses, g, |g.cands|), Swaps(s.clauses, g, |g.cands|);
    var closure := TagFunc(s.tag, TestsFrom(s.clauses, drops, 0), DefaultOf(s.clauses, |s.clauses|));
    SwapCallsHave(w, closure, swaps);
    if g.cands[j].mutant.SwapText? {
      var i := SwapListed(s.clauses, g, |g.cands|, j);
    } else {
      var k := IndexOf(s.clauses, g.cands[j].pos);
      DropsAre(s.clauses, g, |g.cands|, k);
      TestsFromHave(w, s.clauses, drops, 0, k);
    }
  }

  // ----- Statements -----

  lemma KeepsS(w: Holding, g: Group, s: Stmt)
    requires FitsS(g, s) && |g.cands| == |g.ids| && InS(w, s)
    ensures InS(w, ApplyS(g, s))
  {
    if g.key == KSwitchCase {
      SwitchKeeps(w, g, s);
    }
  }

  lemma PutsS(g: Group, s: Stmt, j: nat)
    requires FitsS(g, s) && j < |g.cands| == |g.ids|
    requires s.Switch? && !g.cands[j].mutant.SwapText? ==> !s.clauses[IndexOf(s.clauses, g.cands[j].pos)].dflt
    ensures InS(Holding(g.key, g.ids[j]), ApplyS(g, s))
  {
    if g.key == KSwitchCase {
      SwitchPuts(g, s, j);
    }
  }

  lemma SameClauses(x: Aim, s: Stmt)
    requires s.Switch?
    ensures var s1 := RwKidsS(x.info, x.gm, s);
            s1.Switch? && |s1.clauses| == |s.clauses|
            && forall pos :: IndexOf(s1.clauses, pos) == IndexOf(s.clauses, pos)
    ensures var s1 := RwKidsS(x.info, x.gm, s);
            forall i :: 0 <= i < |s.clauses| ==> s1.clauses[i].dflt == s.clauses[i].dflt
  {
    var s1 := RwKidsS(x.info, x.gm, s);
    forall pos {
      IndexSame(s.clauses, s1.clauses, pos);
    }
  }

  lemma OwnS(x: Aim, s: Stmt, s1: Stmt)
    requires Here(x, StmtId(s)) && NodeFits(x, NodeS(s)) && DropsCase(x.m, NodeS(s))
    requires s1 == RwKidsS(x.info, x.gm, s)
    ensures InS(Wanted(x), RwS(x.info, x.gm, s))
  {
    var gs := x.gm[StmtId(s).value];
    var g := gs[0];
    assert gs == [g] && gs[..0] == [] && ApplyAllS(gs, s1) == ApplyS(g, s1);
    FitsSame(g, s, s1);
    var i, j :| 0 <= i < |gs| && OwnAt(x, gs[i], j);
    if s.Switch? {
      SameClauses(x, s);
    }
    PutsS(g, s1, j);
  }

  lemma PlacedS(x: Aim, s: Stmt)
    requires SourceS(s) && AllFit(x, NodesS(s))
    ensures Targets(x, NodesS(s)) ==> InS(Wanted(x), RwS(x.info, x.gm, s))
    decreases s, 1
  {
    var rest, s1 := NodesS(s)[1..], RwKidsS(x.info, x.gm, s);
    assert NodesS(s) == [NodeS(s)] + rest;
    FitParts(x, [NodeS(s)], rest);
    TargetsParts(x, [NodeS(s)], rest);
    PlacedKidsS(x, s);
    assert NodeS(s) in [NodeS(s)];
    if Targets(x, [NodeS(s)]) {
      OwnS(x, s, s1);
    } else {
      var id := StmtId(s);
      if id.Some? && id.value in x.gm && Targets(x, rest) {
        var gs := x.gm[id.value];
        assert gs == [gs[0]] && gs[..0] == [] && ApplyAllS(gs, s1) == ApplyS(gs[0], s1);
        FitsSame(gs[0], s, s1);
        KeepsS(Wanted(x), gs[0], s1);
      }
    }
  }

  lemma PlacedKidsS(x: Aim, s: Stmt)
    requires SourceS(s) && AllFit(x, NodesS(s)[1..])
    ensures Targets(x, NodesS(s)[1..]) ==> InS(Wanted(x), RwKidsS(x.info, x.gm, s))
    decreases s, 0
  {
    var rest := NodesS(s)[1..];
    match s
    case ExprStmt(e) => assert rest == NodesE(e); PlacedE(x, e);
    case CallStmt(_, _, args) => assert rest == NodesEs(args); PlacedEs(x, args);
    case Assign(l, r) => assert rest == NodesL(l) + NodesE(r); PlacedTarget(x, l, r);
    case IncDec(_, l, _) => assert rest == NodesL(l); PlacedL(x, l);
    case Compound(_, _, l, r) => assert rest == NodesL(l) + NodesE(r); PlacedTarget(x, l, r);
    case Send(_, ch, v) =>
      assert rest == NodesE(ch) + NodesE(v);
      FitParts(x, NodesE(ch), NodesE(v));
      TargetsParts(x, NodesE(ch), NodesE(v));
      PlacedE(x, ch);
      PlacedE(x, v);
    case If(cond, a, b) => PlacedThree(x, cond, a, b, s);
    case For(cond, post, body) => PlacedThree(x, cond, post, body, s);
    case Return(es) => assert rest == NodesEs(es); PlacedEs(x, es);
    case Switch(_, tag, cs, _) =>
      var ts := if tag.Some? then NodesE(tag.value) else [];
      assert rest == ts + NodesCs(cs);
      FitParts(x, ts, NodesCs(cs));
      TargetsParts(x, ts, NodesCs(cs));
      if tag.Some? {
        PlacedE(x, tag.value);
      }
      PlacedCs(x, cs);
    case Break => assert rest == [];
    case Continue => assert rest == [];
    case Fallthrough => assert rest == [];
  }

  lemma PlacedTarget(x: Aim, l: Lhs, r: Expr)
    requires SourceL(l) && SourceE(r) && AllFit(x, NodesL(l) + NodesE(r))
    ensures Targets(x, NodesL(l) + NodesE(r)) ==>
              InL(Wanted(x), RwL(x.info, x.gm, l)) || InE(Wanted(x), RwE(x.info, x.gm, r))
  {
    FitParts(x, NodesL(l), NodesE(r));
    TargetsParts(x, NodesL(l), NodesE(r));
    PlacedL(x, l);
    PlacedE(x, r);
  }

  lemma PlacedThree(x: Aim, cond: Expr, a: seq<Stmt>, b: seq<Stmt>, whole: Stmt)
    requires (whole == If(cond, a, b) || whole == For(cond, a, b))
    requires SourceE(cond) && SourceSs(a) && SourceSs(b) && AllFit(x, NodesS(whole)[1..])
    ensures Targets(x, NodesS(whole)[1..]) ==>
              InE(Wanted(x), RwE(x.info, x.gm, cond)) || InSs(Wanted(x), RwSs(x.info, x.gm, a))
              || InSs(Wanted(x), RwSs(x.info, x.gm, b))
    decreases whole, -1
  {
    var ns := NodesE(cond) + NodesSs(a);
    assert NodesS(whole)[1..] == ns + NodesSs(b);
    FitParts(x, ns, NodesSs(b));
    FitParts(x, NodesE(cond), NodesSs(a));
    TargetsParts(x, ns, NodesSs(b));
    TargetsParts(x, NodesE(cond), NodesSs(a));
    PlacedE(x, cond);
    PlacedSs(x, a);
    PlacedSs(x, b);
  }

  lemma PlacedSs(x: Aim, ss: seq<Stmt>)
    requires SourceSs(ss) && AllFit(x, NodesSs(ss))
    ensures Targets(x, NodesSs(ss)) ==> InSs(Wanted(x), RwSs(x.info, x.gm, ss))
    decreases ss, 0
  {
    if ss != [] {
      FitParts(x, NodesS(ss[0]), NodesSs(ss[1..]));
      TargetsParts(x, NodesS(ss[0]), NodesSs(ss[1..]));
      PlacedS(x, ss[0]);
      PlacedSs(x, ss[1..]);
      var r := RwSs(x.info, x.gm, ss);
      assert r[1..] == RwSs(x.info, x.gm, ss[1..]);
    }
  }

  lemma PlacedCs(x: Aim, cs: seq<Clause>)
    requires SourceCs(cs) && AllFit(x, NodesCs(cs))
    ensures Targets(x, NodesCs(cs)) ==> InCs(Wanted(x), RwCs(x.info, x.gm, cs))
    decreases cs, 0
  {
    if cs != [] {
      var ns := NodesEs(cs[0].list) + NodesSs(cs[0].body);
      FitParts(x, ns, NodesCs(cs[1..]));
      FitParts(x, NodesEs(cs[0].list), NodesSs(cs[0].body));
      TargetsParts(x, ns, NodesCs(cs[1..]));
      TargetsParts(x, NodesEs(cs[0].list), NodesSs(cs[0].body));
      PlacedEs(x, cs[0].list);
      PlacedSs(x, cs[0].body);
      PlacedCs(x, cs[1..]);
      var r := RwCs(x.info, x.gm, cs);
      assert r[1..] == RwCs(x.info, x.gm, cs[1..]);
    }
  }

  /** If the mutation's node is in a function of the program, its ID is in a
      call of its dispatcher in the rewritten program. */
  lemma PlacedInProgram(x: Aim, p: Program, f: string)
    requires SourceProg(p) && f in p && AllFit(x, NodesSs(p[f].body)) && Targets(x, NodesSs(p[f].body))
    ensures InProg(Wanted(x), RwProg(x.info, x.gm, p))
  {
    PlacedSs(x, p[f].body);
    assert f in RwProg(x.info, x.gm, p);
  }
}
