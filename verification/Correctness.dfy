/** The schema with one mutant active runs as the program with exactly that
    mutation applied; with none of its IDs active, as the program itself. */
module Correctness {
  import opened Seqs
  import opened Syntax
  import opened Mutations
  import opened Semantics
  import opened Operators
  import opened Fits
  import opened Schema
  import opened Congruence
  import opened CallSites

  /** A rewritten program and a run of it: t is the mutation whose ID is
      active, if any. */
  datatype Setup = Setup(info: Info, gm: Groups, t: Target, active: int, cases: map<int, Mutation>,
                         prog: Program, world: World)

  function SchemaRun(x: Setup): Ctx {
    Ctx(x.active, x.cases, RwProg(x.info, x.gm, x.prog), x.world)
  }

  function MutantRun(x: Setup): Ctx {
    Ctx(-1, map[], MutProg(x.info, x.t, x.prog), x.world)
  }

  /** The groups on a node fit it and agree with the active mutant. */
  ghost predicate NodeOk(x: Setup, n: Node) {
    match NodeId(n)
    case None => true
    case Some(id) =>
      && (At(x.t, Some(id)) ==> id in x.gm && AnyHit(x.t, id, x.gm[id]))
      && (id in x.gm ==>
            match n
            case NodeE(e) => SitesOkE(SchemaRun(x), x.info, x.t, id, x.gm[id], e)
            case NodeL(l) =>
              && |x.gm[id]| == 1 && x.gm[id][0].key == KSliceIndex && SiteOk(SchemaRun(x), x.t, id, x.gm[id][0])
              && (At(x.t, Some(id)) ==> x.t.value.mutant == PlusOne || x.t.value.mutant == MinusOne)
            case NodeS(s) =>
              && |x.gm[id]| == 1 && SiteOk(SchemaRun(x), x.t, id, x.gm[id][0]) && FitsS(x.gm[id][0], s)
              && (At(x.t, Some(id)) ==> TextFitsS(x.t.value, s)))
  }

  ghost predicate AllOk(x: Setup, ns: seq<Node>) {
    forall n :: n in ns ==> NodeOk(x, n)
  }

  ghost predicate ProgOk(x: Setup) {
    SourceProg(x.prog) && forall f :: f in x.prog ==> AllOk(x, NodesSs(x.prog[f].body))
  }

  lemma OkParts(x: Setup, a: seq<Node>, b: seq<Node>)
    requires AllOk(x, a + b)
    ensures AllOk(x, a) && AllOk(x, b)
  {
    assert forall n :: n in a ==> n in a + b;
    assert forall n :: n in b ==> n in a + b;
  }

  // ----- Expressions -----

  /** A shape-specific mutation keeps or replaces one constructor; the parts
      still behave alike. */
  lemma AlterShapePairs(c: Ctx, d: Ctx, fuel: nat, info: Info, m: Mutation, a: Expr, b: Expr)
    requires c.world == d.world && PairE(c, d, fuel, a, b)
    requires !(KeyOf(m.oper) == KBoolNot && a.Not?) && !(KeyOf(m.oper) == KSliceIndex && a.Index?)
    ensures PairE(c, d, fuel, AlterShapeE(info, m, a), AlterShapeE(info, m, b))
  {
  }

  lemma AlterShapeSim(c: Ctx, d: Ctx, fuel: nat, info: Info, m: Mutation, a: Expr, b: Expr)
    requires c.world == d.world && PairE(c, d, fuel, a, b)
    ensures SimE(c, d, fuel, AlterShapeE(info, m, a), AlterShapeE(info, m, b))
  {
    if KeyOf(m.oper) == KBoolNot && a.Not? {
      assert AlterShapeE(info, m, a) == a.e && AlterShapeE(info, m, b) == b.e;
    } else {
      if KeyOf(m.oper) == KSliceIndex && a.Index? {
        CongE(c, d, fuel, AddConst(a.idx, Delta(m.mutant)), AddConst(b.idx, Delta(m.mutant)));
      } else {
        AlterShapePairs(c, d, fuel, info, m, a, b);
      }
      CongE(c, d, fuel, AlterShapeE(info, m, a), AlterShapeE(info, m, b));
    }
  }

  lemma AlterWrapSim(c: Ctx, d: Ctx, fuel: nat, info: Info, m: Mutation, a: Expr, b: Expr)
    requires c.world == d.world && IsWrapper(KeyOf(m.oper)) && SimE(c, d, fuel, a, b)
    ensures SimE(c, d, fuel, AlterWrapE(info, m, a), AlterWrapE(info, m, b))
  {
    if KeyOf(m.oper) == KSliceRange {
      CongE(c, d, fuel, AddConst(a, Delta(m.mutant)), AddConst(b, Delta(m.mutant)));
    } else {
      var v := Spelled(info, m.mutant);
      CongE(c, d, fuel, Discard(a, v), Discard(b, v));
    }
  }

  lemma AlterSim(c: Ctx, d: Ctx, fuel: nat, info: Info, m: Mutation, a: Expr, b: Expr)
    requires c.world == d.world && PairE(c, d, fuel, a, b)
    ensures SimE(c, d, fuel, AlterE(info, m, a), AlterE(info, m, b))
  {
    if IsWrapper(KeyOf(m.oper)) {
      CongE(c, d, fuel, a, b);
      AlterWrapSim(c, d, fuel, info, m, a, b);
    } else {
      AlterShapeSim(c, d, fuel, info, m, a, b);
    }
  }

  lemma FitsKids(x: Setup, e: Expr, gs: seq<Group>, n: nat)
    requires SitesOkE(SchemaRun(x), x.info, x.t, n, gs, e)
    ensures SitesOkE(SchemaRun(x), x.info, x.t, n, gs, RwKidsE(x.info, x.gm, e))
  {
    var e1 := RwKidsE(x.info, x.gm, e);
    forall i | 0 <= i < |gs|
      ensures FitsE(gs[i], e1)
    {
    }
  }

  lemma ExprSim(x: Setup, fuel: nat, e: Expr)
    requires ProgOk(x) && SourceE(e) && AllOk(x, NodesE(e))
    ensures SimE(SchemaRun(x), MutantRun(x), fuel, RwE(x.info, x.gm, e), MutE(x.info, x.t, e))
    decreases fuel, 1, e, 1
  {
    var c, d := SchemaRun(x), MutantRun(x);
    var e1, e2 := RwKidsE(x.info, x.gm, e), MutKidsE(x.info, x.t, e);
    KidsSim(x, fuel, e);
    CongE(c, d, fuel, e1, e2);
    assert NodeE(e) in NodesE(e);
    var id := ExprId(e);
    if id.Some? && id.value in x.gm {
      var n, gs := id.value, x.gm[id.value];
      FitsKids(x, e, gs, n);
      NodeSites(c, fuel, x.info, x.t, n, gs, e1);
      if At(x.t, id) {
        AlterSim(c, d, fuel, x.info, x.t.value, e1, e2);
        SimTrans(c, d, fuel, ApplyAllE(x.info, n, gs, e1),
                 AlterE(x.info, x.t.value, e1), AlterE(x.info, x.t.value, e2));
      } else {
        SimTrans(c, d, fuel, ApplyAllE(x.info, n, gs, e1), e1, e2);
      }
    }
  }

  lemma KidsSim(x: Setup, fuel: nat, e: Expr)
    requires ProgOk(x) && SourceE(e) && AllOk(x, NodesE(e))
    ensures PairE(SchemaRun(x), MutantRun(x), fuel, RwKidsE(x.info, x.gm, e), MutKidsE(x.info, x.t, e))
    decreases fuel, 1, e, 0
  {
    var ns := NodesE(e);
    assert ns == [NodeE(e)] + ns[1..];
    OkParts(x, [NodeE(e)], ns[1..]);
    match e
    case Lit(_, _) =>
    case Var(_, _) =>
    case Absent =>
    case Bin(_, _, l, r) =>
      assert ns[1..] == NodesE(l) + NodesE(r);
      OkParts(x, NodesE(l), NodesE(r));
      ExprSim(x, fuel, l);
      ExprSim(x, fuel, r);
    case Logic(_, _, l, r) =>
      assert ns[1..] == NodesE(l) + NodesE(r);
      OkParts(x, NodesE(l), NodesE(r));
      ExprSim(x, fuel, l);
      ExprSim(x, fuel, r);
    case Not(_, e1) =>
      assert ns[1..] == NodesE(e1);
      ExprSim(x, fuel, e1);
    case Index(_, b, i) =>
      assert ns[1..] == NodesE(b) + NodesE(i);
      OkParts(x, NodesE(b), NodesE(i));
      ExprSim(x, fuel, b);
      ExprSim(x, fuel, i);
    case Slice(_, b, bounds) =>
      assert ns[1..] == NodesE(b) + NodesEs(bounds);
      OkParts(x, NodesE(b), NodesEs(bounds));
      ExprSim(x, fuel, b);
      ExprsSim(x, fuel, bounds);
    case Recv(_, ch) =>
      assert ns[1..] == NodesE(ch);
      ExprSim(x, fuel, ch);
    case Call(_, _, args) =>
      assert ns[1..] == NodesEs(args);
      ExprsSim(x, fuel, args);
      CallSim(x, fuel);
    case Composite(_, _, vals) =>
      assert ns[1..] == NodesEs(vals);
      ExprsSim(x, fuel, vals);
  }

  lemma ExprsSim(x: Setup, fuel: nat, es: seq<Expr>)
    requires ProgOk(x) && SourceEs(es) && AllOk(x, NodesEs(es))
    ensures SimAll(SchemaRun(x), MutantRun(x), fuel, RwEs(x.info, x.gm, es), MutEs(x.info, x.t, es))
    ensures SimEs(SchemaRun(x), MutantRun(x), fuel, RwEs(x.info, x.gm, es), MutEs(x.info, x.t, es))
    decreases fuel, 1, es, 0
  {
    var c, d := SchemaRun(x), MutantRun(x);
    var xs, ys := RwEs(x.info, x.gm, es), MutEs(x.info, x.t, es);
    if es != [] {
      OkParts(x, NodesE(es[0]), NodesEs(es[1..]));
      ExprSim(x, fuel, es[0]);
      ExprsSim(x, fuel, es[1..]);
      assert SimE(c, d, fuel, xs[0], ys[0]);
      assert xs[1..] == RwEs(x.info, x.gm, es[1..]) && ys[1..] == MutEs(x.info, x.t, es[1..]);
      forall i | 0 <= i < |xs|
        ensures SimE(c, d, fuel, xs[i], ys[i])
      {
        if i > 0 {
          assert SimE(c, d, fuel, xs[1..][i - 1], ys[1..][i - 1]);
        }
      }
    }
    ListSim(c, d, fuel, xs, ys);
  }

  // ----- Calls of the program's own functions -----

  lemma CallSim(x: Setup, fuel: nat)
    requires ProgOk(x)
    ensures SimCall(SchemaRun(x), MutantRun(x), fuel)
    decreases fuel, 0
  {
    var c, d := SchemaRun(x), MutantRun(x);
    if fuel > 0 {
      forall f | f in x.prog
        ensures SimSs(c, d, fuel - 1, c.prog[f].body, d.prog[f].body)
      {
        StmtsSim(x, fuel - 1, x.prog[f].body);
      }
    }
    forall f, vs, st
      ensures CallFunc(c, fuel, f, vs, st) == CallFunc(d, fuel, f, vs, st)
    {
      if f in x.prog && fuel > 0 {
        assert SimSs(c, d, fuel - 1, c.prog[f].body, d.prog[f].body);
      }
    }
  }

  // ----- Statements -----

  lemma LhsSim(x: Setup, fuel: nat, l: Lhs)
    requires ProgOk(x) && SourceL(l) && AllOk(x, NodesL(l))
    ensures SimL(SchemaRun(x), MutantRun(x), fuel, RwL(x.info, x.gm, l), MutL(x.info, x.t, l))
    decreases fuel, 1, l, 0
  {
    var c, d := SchemaRun(x), MutantRun(x);
    if l.LVar? {
      CongL(c, d, fuel, l, l);
    } else {
      var ns := NodesL(l);
      assert ns == [NodeL(l)] + (NodesE(l.base) + NodesE(l.idx));
      OkParts(x, [NodeL(l)], NodesE(l.base) + NodesE(l.idx));
      OkParts(x, NodesE(l.base), NodesE(l.idx));
      ExprSim(x, fuel, l.base);
      ExprSim(x, fuel, l.idx);
      assert NodeL(l) in [NodeL(l)];
      LhsNodeSim(x, fuel, l);
    }
  }

  lemma LhsNodeSim(x: Setup, fuel: nat, l: Lhs)
    requires l.LIndex? && NodeOk(x, NodeL(l))
    requires SimE(SchemaRun(x), MutantRun(x), fuel, RwE(x.info, x.gm, l.base), MutE(x.info, x.t, l.base))
    requires SimE(SchemaRun(x), MutantRun(x), fuel, RwE(x.info, x.gm, l.idx), MutE(x.info, x.t, l.idx))
    ensures SimL(SchemaRun(x), MutantRun(x), fuel, RwL(x.info, x.gm, l), MutL(x.info, x.t, l))
  {
    var c, d := SchemaRun(x), MutantRun(x);
    var l1 := LIndex(l.id, RwE(x.info, x.gm, l.base), RwE(x.info, x.gm, l.idx));
    var l2 := LIndex(l.id, MutE(x.info, x.t, l.base), MutE(x.info, x.t, l.idx));
    CongL(c, d, fuel, l1, l2);
    if l.id in x.gm {
      var gs := x.gm[l.id];
      assert gs == [gs[0]] && gs[..0] == [];
      assert ApplyAllL(gs, l1) == ApplyL(gs[0], l1);
      LhsSite(c, fuel, x.t, l.id, gs[0], l1);
      if At(x.t, Some(l.id)) {
        var k := Delta(x.t.value.mutant);
        CongE(c, d, fuel, AddConst(l1.idx, k), AddConst(l2.idx, k));
        CongL(c, d, fuel, AlterL(x.t.value, l1), AlterL(x.t.value, l2));
      }
    }
  }

  lemma AlterSwitchPairs(c: Ctx, d: Ctx, fuel: nat, m: Mutation, a: Stmt, b: Stmt)
    requires PairS(c, d, fuel, a, b) && a.Switch? && KeyOf(m.oper) == KSwitchCase
    requires forall i :: 0 <= i < |a.clauses| ==> a.clauses[i].pos == b.clauses[i].pos
    ensures PairS(c, d, fuel, AlterS(m, a), AlterS(m, b))
  {
    var a1, b1 := AlterS(m, a), AlterS(m, b);
    IndexSame(a.clauses, b.clauses, m.pos);
    forall i | 0 <= i < |a1.clauses|
      ensures SimClause(c, d, fuel, a1.clauses[i], b1.clauses[i])
    {
      assert SimClause(c, d, fuel, a.clauses[i], b.clauses[i]);
    }
  }

  lemma AlterStmtSim(c: Ctx, d: Ctx, fuel: nat, m: Mutation, a: Stmt, b: Stmt)
    requires c.world == d.world && PairS(c, d, fuel, a, b)
    requires a.Switch? ==> forall i :: 0 <= i < |a.clauses| ==> a.clauses[i].pos == b.clauses[i].pos
    ensures SimS(c, d, fuel, AlterS(m, a), AlterS(m, b))
  {
    CongS(c, d, fuel, a, b);
    var a1, b1 := AlterS(m, a), AlterS(m, b);
    if a1 != a || b1 != b {
      if a.Switch? && KeyOf(m.oper) == KSwitchCase {
        AlterSwitchPairs(c, d, fuel, m, a, b);
      }
      CongS(c, d, fuel, a1, b1);
    }
  }

  lemma StmtSim(x: Setup, fuel: nat, s: Stmt)
    requires ProgOk(x) && SourceS(s) && AllOk(x, NodesS(s))
    ensures SimS(SchemaRun(x), MutantRun(x), fuel, RwS(x.info, x.gm, s), MutS(x.info, x.t, s))
    decreases fuel, 1, s, 1
  {
    var c, d := SchemaRun(x), MutantRun(x);
    if s.For? && fuel > 0 {
      StmtSim(x, fuel - 1, s);
    }
    KidsStmtSim(x, fuel, s);
    var s1, s2 := RwKidsS(x.info, x.gm, s), MutKidsS(x.info, x.t, s);
    assert NodeS(s) in NodesS(s);
    StmtNodeSim(x, fuel, s, s1, s2);
  }

  /** The node's own site, on statements that behave alike so far. */
  lemma StmtOwnSim(x: Setup, fuel: nat, id: nat, g: Group, s1: Stmt, s2: Stmt)
    requires SiteOk(SchemaRun(x), x.t, id, g) && FitsS(g, s1) && (At(x.t, Some(id)) ==> Hit(x.t, id, g.key))
    requires At(x.t, Some(id)) ==> TextFitsS(x.t.value, s1)
    requires PairS(SchemaRun(x), MutantRun(x), fuel, s1, s2)
    requires s1.Switch? ==> forall i :: 0 <= i < |s1.clauses| ==> s1.clauses[i].pos == s2.clauses[i].pos
    ensures SimS(SchemaRun(x), MutantRun(x), fuel, ApplyS(g, s1),
                 if At(x.t, Some(id)) then AlterS(x.t.value, s2) else s2)
  {
    var c, d := SchemaRun(x), MutantRun(x);
    CongS(c, d, fuel, s1, s2);
    StmtSite(c, fuel, x.t, id, g, s1);
    if At(x.t, Some(id)) {
      AlterStmtSim(c, d, fuel, x.t.value, s1, s2);
    }
  }

  lemma StmtNodeSim(x: Setup, fuel: nat, s: Stmt, s1: Stmt, s2: Stmt)
    requires NodeOk(x, NodeS(s))
    requires s1 == RwKidsS(x.info, x.gm, s) && s2 == MutKidsS(x.info, x.t, s)
    requires PairS(SchemaRun(x), MutantRun(x), fuel, s1, s2)
    ensures SimS(SchemaRun(x), MutantRun(x), fuel, RwS(x.info, x.gm, s), MutS(x.info, x.t, s))
  {
    var id := StmtId(s);
    if id.Some? && id.value in x.gm {
      var gs := x.gm[id.value];
      assert gs == [gs[0]] && gs[..0] == [];
      assert ApplyAllS(gs, s1) == ApplyS(gs[0], s1);
      FitsSame(gs[0], s, s1);
      StmtOwnSim(x, fuel, id.value, gs[0], s1, s2);
    } else {
      CongS(SchemaRun(x), MutantRun(x), fuel, s1, s2);
    }
  }

  lemma BranchesSim(x: Setup, fuel: nat, cond: Expr, a: seq<Stmt>, b: seq<Stmt>, whole: Stmt)
    requires ProgOk(x) && SourceE(cond) && SourceSs(a) && SourceSs(b)
    requires AllOk(x, NodesE(cond) + NodesSs(a) + NodesSs(b))
    requires whole == If(cond, a, b) || whole == For(cond, a, b)
    ensures SimE(SchemaRun(x), MutantRun(x), fuel, RwE(x.info, x.gm, cond), MutE(x.info, x.t, cond))
    ensures SimSs(SchemaRun(x), MutantRun(x), fuel, RwSs(x.info, x.gm, a), MutSs(x.info, x.t, a))
    ensures SimSs(SchemaRun(x), MutantRun(x), fuel, RwSs(x.info, x.gm, b), MutSs(x.info, x.t, b))
    decreases fuel, 1, whole, -1
  {
    OkParts(x, NodesE(cond) + NodesSs(a), NodesSs(b));
    OkParts(x, NodesE(cond), NodesSs(a));
    ExprSim(x, fuel, cond);
    StmtsSim(x, fuel, a);
    StmtsSim(x, fuel, b);
  }

  lemma SwitchKidsSim(x: Setup, fuel: nat, s: Stmt)
    requires ProgOk(x) && SourceS(s) && AllOk(x, NodesS(s)[1..]) && s.Switch?
    ensures PairS(SchemaRun(x), MutantRun(x), fuel, RwKidsS(x.info, x.gm, s), MutKidsS(x.info, x.t, s))
    decreases fuel, 1, s, -1
  {
    var ts := if s.tag.Some? then NodesE(s.tag.value) else [];
    assert NodesS(s)[1..] == ts + NodesCs(s.clauses);
    OkParts(x, ts, NodesCs(s.clauses));
    if s.tag.Some? {
      ExprSim(x, fuel, s.tag.value);
    }
    ClausesSim(x, fuel, s.clauses);
  }

  lemma KidsStmtSim(x: Setup, fuel: nat, s: Stmt)
    requires ProgOk(x) && SourceS(s) && AllOk(x, NodesS(s))
    requires s.For? && fuel > 0 ==>
               SimS(SchemaRun(x), MutantRun(x), fuel - 1, RwS(x.info, x.gm, s), MutS(x.info, x.t, s))
    ensures PairS(SchemaRun(x), MutantRun(x), fuel, RwKidsS(x.info, x.gm, s), MutKidsS(x.info, x.t, s))
    decreases fuel, 1, s, 0
  {
    var ns := NodesS(s);
    assert ns == [NodeS(s)] + ns[1..];
    OkParts(x, [NodeS(s)], ns[1..]);
    match s
    case If(cond, a, b) =>
      assert ns[1..] == NodesE(cond) + NodesSs(a) + NodesSs(b);
      BranchesSim(x, fuel, cond, a, b, s);
    case For(cond, post, body) =>
      assert ns[1..] == NodesE(cond) + NodesSs(post) + NodesSs(body);
      BranchesSim(x, fuel, cond, post, body, s);
    case Switch(_, _, _, _) => SwitchKidsSim(x, fuel, s);
    case _ => SimpleKidsSim(x, fuel, s);
  }

  lemma SimpleKidsSim(x: Setup, fuel: nat, s: Stmt)
    requires ProgOk(x) && SourceS(s) && AllOk(x, NodesS(s))
    requires !s.If? && !s.For? && !s.Switch?
    ensures PairS(SchemaRun(x), MutantRun(x), fuel, RwKidsS(x.info, x.gm, s), MutKidsS(x.info, x.t, s))
    decreases fuel, 1, s, -1
  {
    var ns := NodesS(s);
    assert ns == [NodeS(s)] + ns[1..];
    OkParts(x, [NodeS(s)], ns[1..]);
    match s
    case ExprStmt(e) =>
      assert ns[1..] == NodesE(e);
      ExprSim(x, fuel, e);
    case CallStmt(_, _, args) =>
      assert ns[1..] == NodesEs(args);
      ExprsSim(x, fuel, args);
      CallSim(x, fuel);
    case Assign(l, r) =>
      assert ns[1..] == NodesL(l) + NodesE(r);
      OkParts(x, NodesL(l), NodesE(r));
      LhsSim(x, fuel, l);
      ExprSim(x, fuel, r);
    case IncDec(_, l, _) =>
      assert ns[1..] == NodesL(l);
      LhsSim(x, fuel, l);
    case Compound(_, _, l, r) =>
      assert ns[1..] == NodesL(l) + NodesE(r);
      OkParts(x, NodesL(l), NodesE(r));
      LhsSim(x, fuel, l);
      ExprSim(x, fuel, r);
    case Send(_, ch, v) =>
      assert ns[1..] == NodesE(ch) + NodesE(v);
      OkParts(x, NodesE(ch), NodesE(v));
      ExprSim(x, fuel, ch);
      ExprSim(x, fuel, v);
    case Return(es) =>
      assert ns[1..] == NodesEs(es);
      ExprsSim(x, fuel, es);
    case Break =>
    case Continue =>
    case Fallthrough =>
  }

  lemma StmtsSim(x: Setup, fuel: nat, ss: seq<Stmt>)
    requires ProgOk(x) && SourceSs(ss) && AllOk(x, NodesSs(ss))
    ensures SimSs(SchemaRun(x), MutantRun(x), fuel, RwSs(x.info, x.gm, ss), MutSs(x.info, x.t, ss))
    decreases fuel, 1, ss, 0
  {
    var c, d := SchemaRun(x), MutantRun(x);
    if ss != [] {
      OkParts(x, NodesS(ss[0]), NodesSs(ss[1..]));
      StmtSim(x, fuel, ss[0]);
      StmtsSim(x, fuel, ss[1..]);
      CongSs(c, d, fuel, RwS(x.info, x.gm, ss[0]), MutS(x.info, x.t, ss[0]),
             RwSs(x.info, x.gm, ss[1..]), MutSs(x.info, x.t, ss[1..]));
    }
  }

  lemma ClausesSim(x: Setup, fuel: nat, cs: seq<Clause>)
    requires ProgOk(x) && SourceCs(cs) && AllOk(x, NodesCs(cs))
    ensures SimCs(SchemaRun(x), MutantRun(x), fuel, RwCs(x.info, x.gm, cs), MutCs(x.info, x.t, cs))
    decreases fuel, 1, cs, 0
  {
    var c, d := SchemaRun(x), MutantRun(x);
    var xs, ys := RwCs(x.info, x.gm, cs), MutCs(x.info, x.t, cs);
    if cs != [] {
      OkParts(x, NodesEs(cs[0].list) + NodesSs(cs[0].body), NodesCs(cs[1..]));
      OkParts(x, NodesEs(cs[0].list), NodesSs(cs[0].body));
      ExprsSim(x, fuel, cs[0].list);
      StmtsSim(x, fuel, cs[0].body);
      ClausesSim(x, fuel, cs[1..]);
      assert SimClause(c, d, fuel, xs[0], ys[0]);
      assert xs[1..] == RwCs(x.info, x.gm, cs[1..]) && ys[1..] == MutCs(x.info, x.t, cs[1..]);
      forall i | 0 <= i < |xs|
        ensures SimClause(c, d, fuel, xs[i], ys[i])
      {
        if i > 0 {
          assert SimClause(c, d, fuel, xs[1..][i - 1], ys[1..][i - 1]);
        }
      }
    }
  }

  // ----- The program -----

  /** Calling any function of the schema with the mutant active gives what
      calling it in the mutated program gives: the value or the panic, the
      whole trace, or exhaustion of the same fuel. */
  lemma SchemaRunsAsMutant(x: Setup, fuel: nat, f: string, vs: seq<Value>, st: State)
    requires ProgOk(x)
    ensures CallFunc(SchemaRun(x), fuel, f, vs, st) == CallFunc(MutantRun(x), fuel, f, vs, st)
  {
    CallSim(x, fuel);
  }
}
