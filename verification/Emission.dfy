/** The mutations that the rewriter emits: each on a node of the package that it
    fits, never refused, no switch candidate twice. */
module Emission {
  import opened Integers
  import opened IntLiterals
  import opened Seqs
  import opened Syntax
  import opened Mutations
  import opened Operators
  import opened SwitchRewrite
  import opened Schema
  import opened Fits
  import Numbering
  import opened Grouping
  import opened Rewriter

  /** What the pipeline's mutations satisfy: distinct IDs, each on a node of
      the package it fits, no switch candidate twice. */
  ghost predicate Sound(pk: Package, ms: seq<Mutation>) {
    && IdsDistinct(ms)
    && (forall m :: m in ms ==> Owned(pk, m))
    && (forall i, j :: 0 <= i < j < |ms| && ms[i].oper == SwitchCase && ms[j].oper == SwitchCase ==>
          CandOf(ms[i]) != CandOf(ms[j]))
  }

  ghost predicate Owned(pk: Package, m: Mutation) {
    exists n :: n in PackageNodes(pk, pk.files) && CandFor(pk.info, pk.same, m.oper, CandOf(m), n)
  }

  // ----- One node's mutations -----

  /** The one shape-specific key an expression can have. */
  function ShapeKeyE(e: Expr): Option<Key> {
    match e
    case Bin(_, op, _, _) =>
      Some(if IsArith(op) then KIntArith else if IsBitwise(op) then KIntBitwise else KIntCmp)
    case Logic(_, _, _, _) => Some(KBoolLogic)
    case Not(_, _) => Some(KBoolNot)
    case Index(_, _, _) => Some(KSliceIndex)
    case Recv(_, _) => Some(KChanOp)
    case Lit(_, v) =>
      if v.IntV? then Some(KIntLiteral) else if v.StrV? then Some(KStringLiteral)
      else if v.BoolV? then Some(KBoolLiteral) else None
    case _ => None
  }

  function ShapeKeyS(s: Stmt): Option<Key> {
    match s
    case IncDec(_, _, _) => Some(KStmtSwap)
    case Compound(_, _, _, _) => Some(KStmtSwap)
    case Send(_, _, _) => Some(KChanOp)
    case CallStmt(_, _, _) => Some(KCallDelete)
    case Switch(_, _, _, _) => Some(KSwitchCase)
    case _ => None
  }

  lemma ExprFacts(info: Info, same: (int, int) -> bool, m: Mutation, e: Expr)
    requires CandFor(info, same, m.oper, CandOf(m), NodeE(e))
    ensures TextFitsE(m, e) && WrapTextFits(info, m)
    ensures !IsWrapper(KeyOf(m.oper)) ==> ShapeKeyE(e) == Some(KeyOf(m.oper))
    ensures KeyOf(m.oper) == KIntLiteral ==>
              && info.ty(e.id).TInt? && m.mutant.IntText?
              && m.mutant.n in MutantValues(e.v.n, info.ty(e.id).kind)
  {
  }

  lemma StmtFacts(info: Info, same: (int, int) -> bool, m: Mutation, s: Stmt)
    requires CandFor(info, same, m.oper, CandOf(m), NodeS(s))
    ensures ShapeKeyS(s) == Some(KeyOf(m.oper)) && TextFitsS(m, s)
    ensures s.Switch? ==>
              && m.oper == SwitchCase && s.clauses != []
              && (m.mutant == SwapText || m.mutant == EmptyText)
              && exists k :: 0 <= k < |s.clauses| && s.clauses[k].pos == m.pos
                             && (m.mutant.SwapText? ==> k + 1 < |s.clauses|)
  {
    if s.Switch? {
      var c := CandOf(m);
      if c in DropCands(s.id, s.clauses, 0) {
        var k := DropFrom(s.id, s.clauses, 0, c);
      } else {
        var k := SwapFrom(same, s.id, s.clauses, 0, c);
      }
    }
  }

  /** Nodes are identified by their ids. */
  lemma NodeUnique(ns: seq<Node>, n: Node, n': Node)
    requires UniqueIds(ns) && n in ns && n' in ns && NodeId(n).Some? && NodeId(n) == NodeId(n')
    ensures n == n'
  {
    var i :| 0 <= i < |ns| && ns[i] == n;
    var j :| 0 <= j < |ns| && ns[j] == n';
  }

  lemma TheOwner(pk: Package, m: Mutation, n: Node)
    requires UniqueIds(PackageNodes(pk, pk.files)) && Owned(pk, m)
    requires n in PackageNodes(pk, pk.files) && NodeId(n) == Some(m.node)
    ensures CandFor(pk.info, pk.same, m.oper, CandOf(m), n)
  {
    var n' :| n' in PackageNodes(pk, pk.files) && CandFor(pk.info, pk.same, m.oper, CandOf(m), n');
    assert NodeId(n') == Some(m.node);
    NodeUnique(PackageNodes(pk, pk.files), n, n');
  }

  lemma GroupMember(ms: seq<Mutation>, n: nat, g: Group, j: nat) returns (m: Mutation)
    requires GroupIs(ms, n, g) && j < |g.ids|
    ensures m in ms && m.node == n && KeyOf(m.oper) == g.key && g.ids[j] == m.id
    ensures |g.cands| == |g.ids| && g.cands[j] == CandOf(m)
  {
    OfKeyMembers(ms, n, g.key);
    m := OfKey(ms, n, g.key)[j];
    assert m in OfKey(ms, n, g.key);
  }

  lemma GroupHas(ms: seq<Mutation>, n: nat, g: Group, m: Mutation) returns (j: nat)
    requires GroupIs(ms, n, g) && m in ms && m.node == n && KeyOf(m.oper) == g.key
    ensures j < |g.ids| && g.ids[j] == m.id
  {
    OfKeyMembers(ms, n, g.key);
    j :| 0 <= j < |OfKey(ms, n, g.key)| && OfKey(ms, n, g.key)[j] == m;
  }

  // ----- The rewrite is never refused -----

  lemma OneShapeKey(pk: Package, ms: seq<Mutation>, n: Node, id: nat, key: Key)
    requires WellFormed(pk) && Sound(pk, ms)
    requires n in PackageNodes(pk, pk.files) && NodeId(n) == Some(id)
    requires OfKey(ms, id, key) != []
    ensures n.NodeE? && !IsWrapper(key) ==> ShapeKeyE(n.e) == Some(key)
    ensures n.NodeL? ==> key == KSliceIndex
    ensures n.NodeS? ==> ShapeKeyS(n.s) == Some(key)
  {
    OfKeyMembers(ms, id, key);
    var m := OfKey(ms, id, key)[0];
    assert m in OfKey(ms, id, key);
    TheOwner(pk, m, n);
    match n
    case NodeE(e) => ExprFacts(pk.info, pk.same, m, e);
    case NodeL(_) =>
    case NodeS(s) => StmtFacts(pk.info, pk.same, m, s);
  }

  /** On well-typed source no node gets two shape-specific rewrites, so the
      rewriter's error never occurs. */
  lemma NeverRefused(pk: Package, ms: seq<Mutation>, id: nat)
    requires WellFormed(pk) && Sound(pk, ms)
    ensures !Refused(GroupsOn(ms, id))
  {
    RefusedIff(ms, id);
    forall k1, k2 | k1 != k2 && !IsWrapper(k1) && !IsWrapper(k2) && OfKey(ms, id, k1) != []
      ensures OfKey(ms, id, k2) == []
    {
      if OfKey(ms, id, k2) != [] {
        OfKeyMembers(ms, id, k1);
        var m := OfKey(ms, id, k1)[0];
        assert m in OfKey(ms, id, k1) && Owned(pk, m);
        var n :| n in PackageNodes(pk, pk.files) && CandFor(pk.info, pk.same, m.oper, CandOf(m), n);
        OneShapeKey(pk, ms, n, id, k1);
        OneShapeKey(pk, ms, n, id, k2);
      }
    }
  }

  lemma SameId(ms: seq<Mutation>, a: Mutation, b: Mutation)
    requires IdsDistinct(ms) && a in ms && b in ms && a.id == b.id
    ensures a == b
  {
    var i :| 0 <= i < |ms| && ms[i] == a;
    var j :| 0 <= j < |ms| && ms[j] == b;
  }

  lemma GroupsAt(pk: Package, ms: seq<Mutation>, id: nat)
    requires WellFormed(pk) && Sound(pk, ms) && id in GroupMap(ms)
    ensures var gs := GroupMap(ms)[id]; Partition(ms, id, gs) && Stacked(gs) && gs != []
  {
    var gs := GroupsOn(ms, id);
    GroupsPartition(ms, id);
    OrderedPartition(ms, id, gs);
    NeverRefused(pk, ms, id);
    OrderedShape(gs);
    var m :| m in ms && m.node == id;
    OfKeyMembers(ms, id, KeyOf(m.oper));
    assert m in OfKey(ms, id, KeyOf(m.oper));
    var g :| g in GroupMap(ms)[id] && g.key == KeyOf(m.oper);
  }

  lemma ExprFits(pk: Package, ms: seq<Mutation>, e: Expr, id: nat, g: Group)
    requires WellFormed(pk) && Sound(pk, ms)
    requires NodeE(e) in PackageNodes(pk, pk.files) && ExprId(e) == Some(id) && GroupIs(ms, id, g)
    ensures FitsE(g, e)
  {
    var m := GroupMember(ms, id, g, 0);
    TheOwner(pk, m, NodeE(e));
    ExprFacts(pk.info, pk.same, m, e);
    assert TypedLiteral(pk.info, NodeE(e));
    if g.key == KIntLiteral {
      forall j | 0 <= j < |g.cands|
        ensures g.cands[j].mutant.IntText? && InRange(e.v.t, g.cands[j].mutant.n)
      {
        var m' := GroupMember(ms, id, g, j);
        TheOwner(pk, m', NodeE(e));
        ExprFacts(pk.info, pk.same, m', e);
        MutantValuesFit(e.v.n, pk.info.ty(id).kind, pk.info.word, m'.mutant.n);
      }
    }
  }

  lemma {:induction false} IndexAt(cs: seq<Clause>, k: nat)
    requires PositionsDistinct(cs) && k < |cs|
    ensures IndexOf(cs, cs[k].pos) == k
  {
    if k < |cs| - 1 {
      IndexAt(cs[..|cs| - 1], k);
    }
  }

  lemma SwitchFits(pk: Package, ms: seq<Mutation>, s: Stmt, id: nat, g: Group)
    requires WellFormed(pk) && Sound(pk, ms) && s.Switch? && PositionsDistinct(s.clauses)
    requires NodeS(s) in PackageNodes(pk, pk.files) && StmtId(s) == Some(id) && GroupIs(ms, id, g)
    ensures g.key == KSwitchCase && s.clauses != [] && SwapsInRange(g, s.clauses) && OneDropEach(g, s.clauses)
  {
    var m := GroupMember(ms, id, g, 0);
    TheOwner(pk, m, NodeS(s));
    StmtFacts(pk.info, pk.same, m, s);
    forall i | 0 <= i < |g.cands|
      ensures exists k :: 0 <= k < |s.clauses| && s.clauses[k].pos == g.cands[i].pos
                          && IndexOf(s.clauses, g.cands[i].pos) == k
                          && (g.cands[i].mutant.SwapText? ==> k + 1 < |s.clauses|)
    {
      var m' := GroupMember(ms, id, g, i);
      TheOwner(pk, m', NodeS(s));
      StmtFacts(pk.info, pk.same, m', s);
      var k :| 0 <= k < |s.clauses| && s.clauses[k].pos == m'.pos && (m'.mutant.SwapText? ==> k + 1 < |s.clauses|);
      IndexAt(s.clauses, k);
    }
    OfKeyDistinct(ms, id, g.key);
    forall i, j | 0 <= i < j < |g.cands| && !g.cands[i].mutant.SwapText? && !g.cands[j].mutant.SwapText?
      ensures IndexOf(s.clauses, g.cands[i].pos) != IndexOf(s.clauses, g.cands[j].pos)
    {
      var a := GroupMember(ms, id, g, i);
      var b := GroupMember(ms, id, g, j);
      TheOwner(pk, a, NodeS(s));
      StmtFacts(pk.info, pk.same, a, s);
      TheOwner(pk, b, NodeS(s));
      StmtFacts(pk.info, pk.same, b, s);
      SwitchCandsDiffer(pk, ms, a, b);
      assert a.pos != b.pos;
    }
  }

  lemma SwitchCandsDiffer(pk: Package, ms: seq<Mutation>, a: Mutation, b: Mutation)
    requires Sound(pk, ms) && a in ms && b in ms && a.oper == SwitchCase && b.oper == SwitchCase && a.id != b.id
    ensures CandOf(a) != CandOf(b)
  {
    var i :| 0 <= i < |ms| && ms[i] == a;
    var j :| 0 <= j < |ms| && ms[j] == b;
    var lo, hi := if i < j then i else j, if i < j then j else i;
    assert CandOf(ms[lo]) != CandOf(ms[hi]);
  }

  // ----- The package's nodes -----

  lemma FuncNodes(pk: Package, f: string, fs: seq<string>)
    requires f in pk.prog && f in fs
    ensures forall n :: n in NodesSs(pk.prog[f].body) ==> n in NodesOfFuncs(pk.prog, fs)
  {
    if fs[0] != f {
      FuncNodes(pk, f, fs[1..]);
    }
  }

  lemma {:induction false} FileInPackage(pk: Package, files: seq<File>, i: nat)
    requires i < |files|
    ensures forall n :: n in FileNodes(pk, files[i]) ==> n in PackageNodes(pk, files)
  {
    if i < |files| - 1 {
      FileInPackage(pk, files[..|files| - 1], i);
    }
  }

  lemma AllNodes(pk: Package, f: string)
    requires WellFormed(pk) && f in pk.prog
    ensures forall n :: n in NodesSs(pk.prog[f].body) ==> n in PackageNodes(pk, pk.files)
  {
    var i :| 0 <= i < |pk.files| && f in pk.files[i].funcs;
    FuncNodes(pk, f, pk.files[i].funcs);
    FileInPackage(pk, pk.files, i);
  }

  /** Source switches are well formed wherever they occur. */
  ghost predicate SwitchesOk(ns: seq<Node>) {
    forall n :: n in ns && n.NodeS? && n.s.Switch? ==>
      n.s.swapped == -1 && ClausesOk(n.s.clauses) && PositionsDistinct(n.s.clauses)
  }

  lemma {:induction false} NoSwitchE(e: Expr)
    ensures forall n :: n in NodesE(e) ==> n.NodeE?
    decreases e, 0
  {
    match e
    case Bin(_, _, l, r) => NoSwitchE(l); NoSwitchE(r);
    case Logic(_, _, l, r) => NoSwitchE(l); NoSwitchE(r);
    case Not(_, e1) => NoSwitchE(e1);
    case Index(_, b, i) => NoSwitchE(b); NoSwitchE(i);
    case Slice(_, b, bounds) => NoSwitchE(b); NoSwitchEs(bounds);
    case Recv(_, ch) => NoSwitchE(ch);
    case Call(_, _, args) => NoSwitchEs(args);
    case Composite(_, _, vals) => NoSwitchEs(vals);
    case _ =>
  }

  lemma {:induction false} NoSwitchEs(es: seq<Expr>)
    ensures forall n :: n in NodesEs(es) ==> n.NodeE?
    decreases es, 0
  {
    if es != [] {
      NoSwitchE(es[0]);
      NoSwitchEs(es[1..]);
    }
  }

  lemma {:induction false} NoSwitchL(l: Lhs)
    ensures forall n :: n in NodesL(l) ==> !n.NodeS?
  {
    if l.LIndex? {
      NoSwitchE(l.base);
      NoSwitchE(l.idx);
    }
  }

  lemma {:induction false} SwitchesOkS(s: Stmt)
    requires SourceS(s)
    ensures SwitchesOk(NodesS(s))
    decreases s, 0
  {
    match s
    case ExprStmt(e) => NoSwitchE(e);
    case CallStmt(_, _, args) => NoSwitchEs(args);
    case Assign(l, r) => NoSwitchL(l); NoSwitchE(r);
    case IncDec(_, l, _) => NoSwitchL(l);
    case Compound(_, _, l, r) => NoSwitchL(l); NoSwitchE(r);
    case Send(_, ch, v) => NoSwitchE(ch); NoSwitchE(v);
    case If(cond, a, b) => NoSwitchE(cond); SwitchesOkSs(a); SwitchesOkSs(b);
    case For(cond, post, body) => NoSwitchE(cond); SwitchesOkSs(post); SwitchesOkSs(body);
    case Return(es) => NoSwitchEs(es);
    case Switch(_, tag, cs, _) =>
      if tag.Some? {
        NoSwitchE(tag.value);
      }
      SwitchesOkCs(cs);
    case _ =>
  }

  lemma {:induction false} SwitchesOkSs(ss: seq<Stmt>)
    requires SourceSs(ss)
    ensures SwitchesOk(NodesSs(ss))
    decreases ss, 0
  {
    if ss != [] {
      SwitchesOkS(ss[0]);
      SwitchesOkSs(ss[1..]);
    }
  }

  lemma {:induction false} SwitchesOkCs(cs: seq<Clause>)
    requires SourceCs(cs)
    ensures SwitchesOk(NodesCs(cs))
    decreases cs, 0
  {
    if cs != [] {
      NoSwitchEs(cs[0].list);
      SwitchesOkSs(cs[0].body);
      SwitchesOkCs(cs[1..]);
    }
  }

  lemma OneGroup(gs: seq<Group>, key: Key)
    requires Stacked(gs) && gs != []
    requires forall i :: 0 <= i < |gs| ==> gs[i].key == key
    ensures |gs| == 1
  {
    assert gs[0].key == key && gs[|gs| - 1].key == key;
  }

  /** The text of the mutation under test fits its node. */
  lemma TargetFits(pk: Package, ms: seq<Mutation>, t: Target, n: Node)
    requires WellFormed(pk) && Sound(pk, ms) && t.Some? && t.value in ms
    requires n in PackageNodes(pk, pk.files) && NodeId(n) == Some(t.value.node)
    ensures n.NodeE? ==> TextFitsE(t.value, n.e) && WrapTextFits(pk.info, t.value)
    ensures n.NodeL? ==> t.value.mutant == PlusOne || t.value.mutant == MinusOne
    ensures n.NodeS? ==> TextFitsS(t.value, n.s)
  {
    TheOwner(pk, t.value, n);
    match n
    case NodeE(e) => ExprFacts(pk.info, pk.same, t.value, e);
    case NodeL(_) =>
    case NodeS(s) => StmtFacts(pk.info, pk.same, t.value, s);
  }

  lemma LhsHolds(pk: Package, ms: seq<Mutation>, n: Node, id: nat)
    requires WellFormed(pk) && Sound(pk, ms) && n in PackageNodes(pk, pk.files)
    requires n.NodeL? && NodeId(n) == Some(id) && id in GroupMap(ms)
    ensures |GroupMap(ms)[id]| == 1 && GroupMap(ms)[id][0].key == KSliceIndex
  {
    GroupsAt(pk, ms, id);
    var gs := GroupMap(ms)[id];
    forall i | 0 <= i < |gs|
      ensures gs[i].key == KSliceIndex
    {
      assert gs[i] in gs;
      OneShapeKey(pk, ms, n, id, gs[i].key);
    }
    OneGroup(GroupMap(ms)[id], KSliceIndex);
  }

  lemma StmtFitsOne(pk: Package, ms: seq<Mutation>, s: Stmt, id: nat, g: Group)
    requires WellFormed(pk) && Sound(pk, ms) && NodeS(s) in PackageNodes(pk, pk.files)
    requires StmtId(s) == Some(id) && GroupIs(ms, id, g) && SwitchesOk([NodeS(s)])
    ensures Some(g.key) == ShapeKeyS(s) && FitsS(g, s)
  {
    OneShapeKey(pk, ms, NodeS(s), id, g.key);
    if s.Switch? {
      assert NodeS(s) in [NodeS(s)];
      SwitchFits(pk, ms, s, id, g);
    }
  }

  lemma StmtHolds(pk: Package, ms: seq<Mutation>, s: Stmt, id: nat)
    requires WellFormed(pk) && Sound(pk, ms) && NodeS(s) in PackageNodes(pk, pk.files)
    requires StmtId(s) == Some(id) && id in GroupMap(ms) && SwitchesOk([NodeS(s)])
    ensures |GroupMap(ms)[id]| == 1 && FitsS(GroupMap(ms)[id][0], s)
  {
    GroupsAt(pk, ms, id);
    var gs := GroupMap(ms)[id];
    forall i | 0 <= i < |gs|
      ensures Some(gs[i].key) == ShapeKeyS(s) && FitsS(gs[i], s)
    {
      assert gs[i] in gs;
      StmtFitsOne(pk, ms, s, id, gs[i]);
    }
    OneGroup(gs, gs[0].key);
  }

  // ----- The emitted mutations are sound -----

  function OfOper(ss: seq<Numbering.Site>, op: Operator): seq<Cand> {
    if ss == [] then []
    else OfOper(ss[..|ss| - 1], op) + (if ss[|ss| - 1].oper == op then [ss[|ss| - 1].cand] else [])
  }

  lemma {:induction false} OfOperConcat(a: seq<Numbering.Site>, b: seq<Numbering.Site>, op: Operator)
    ensures OfOper(a + b, op) == OfOper(a, op) + OfOper(b, op)
  {
    if b == [] {
      assert a + b == a;
    } else {
      assert (a + b)[..|a + b| - 1] == a + b[..|b| - 1];
      OfOperConcat(a, b[..|b| - 1], op);
    }
  }

  lemma {:induction false} OfOperSnoc(ss: seq<Numbering.Site>, s: Numbering.Site, op: Operator)
    ensures OfOper(ss + [s], op) == OfOper(ss, op) + (if s.oper == op then [s.cand] else [])
  {
    assert (ss + [s])[..|ss|] == ss;
  }

  lemma {:induction false} LocatedOper(pk: Package, f: File, o: Operator, cs: seq<Cand>, op: Operator)
    ensures OfOper(Located(pk, f, o, cs), op) == if o == op then cs else []
  {
    if cs != [] {
      var init, last := cs[..|cs| - 1], cs[|cs| - 1];
      assert Located(pk, f, o, cs) == Located(pk, f, o, init) + [SiteOf(pk, f, o, last)];
      LocatedOper(pk, f, o, init, op);
      OfOperSnoc(Located(pk, f, o, init), SiteOf(pk, f, o, last), op);
      assert cs == init + [last];
    }
  }

  function FoundFor(pk: Package, f: File, ops: seq<Operator>, op: Operator): seq<Cand> {
    if op in ops && !f.generated then Find(pk.info, pk.same, op, FileNodes(pk, f)) else []
  }

  lemma FileStep(pk: Package, f: File, ops: seq<Operator>, op: Operator)
    requires ops != [] && !f.generated
    ensures var init, last := ops[..|ops| - 1], ops[|ops| - 1];
            OfOper(Numbering.Concat(FoundIn(pk, f, ops)), op) ==
            OfOper(Numbering.Concat(FoundIn(pk, f, init)), op)
            + (if last == op then Find(pk.info, pk.same, op, FileNodes(pk, f)) else [])
  {
    var init, last := ops[..|ops| - 1], ops[|ops| - 1];
    var found := FoundIn(pk, f, ops);
    assert found[..|found| - 1] == FoundIn(pk, f, init) && found[|found| - 1] == FoundBy(pk, f, last);
    OfOperConcat(Numbering.Concat(FoundIn(pk, f, init)), FoundBy(pk, f, last), op);
    LocatedOper(pk, f, last, Find(pk.info, pk.same, last, FileNodes(pk, f)), op);
  }

  lemma {:induction false} FoundForStep(pk: Package, f: File, ops: seq<Operator>, op: Operator)
    requires Distinct(ops) && ops != [] && !f.generated
    ensures FoundFor(pk, f, ops, op) ==
            FoundFor(pk, f, ops[..|ops| - 1], op)
            + (if ops[|ops| - 1] == op then Find(pk.info, pk.same, op, FileNodes(pk, f)) else [])
  {
    var init, last := ops[..|ops| - 1], ops[|ops| - 1];
    assert ops == init + [last];
    assert last !in init;
  }

  lemma {:induction false} NoneFound(pk: Package, f: File, ops: seq<Operator>, op: Operator)
    requires ops == [] || f.generated
    ensures OfOper(Numbering.Concat(FoundIn(pk, f, ops)), op) == FoundFor(pk, f, ops, op)
  {
    assert FoundIn(pk, f, ops) == [];
  }

  lemma {:induction false} FileOper(pk: Package, f: File, ops: seq<Operator>, op: Operator)
    requires Distinct(ops)
    ensures OfOper(Numbering.Concat(FoundIn(pk, f, ops)), op) == FoundFor(pk, f, ops, op)
  {
    if ops == [] || f.generated {
      NoneFound(pk, f, ops, op);
    } else {
      FileOper(pk, f, ops[..|ops| - 1], op);
      FileStep(pk, f, ops, op);
      FoundForStep(pk, f, ops, op);
    }
  }

  lemma {:induction false} SwitchesFresh(info: Info, same: (int, int) -> bool, ns: seq<Node>, n: Node)
    requires NodeId(n).Some? && forall i :: 0 <= i < |ns| ==> NodeId(ns[i]) != NodeId(n)
    ensures forall c :: c in Find(info, same, SwitchCase, ns) ==> Some(c.node) != NodeId(n)
  {
    if ns != [] {
      SwitchesFresh(info, same, ns[1..], n);
      forall c | c in CandsAt(info, same, SwitchCase, ns[0])
        ensures Some(c.node) == NodeId(ns[0])
      {
        var s := ns[0].s;
        if c in DropCands(s.id, s.clauses, 0) {
          var _ := DropFrom(s.id, s.clauses, 0, c);
        } else {
          var _ := SwapFrom(same, s.id, s.clauses, 0, c);
        }
      }
    }
  }

  lemma {:induction false} DropsDistinct(id: nat, cs: seq<Clause>, i: nat)
    requires i <= |cs| && PositionsDistinct(cs)
    ensures Distinct(DropCands(id, cs, i))
    decreases |cs| - i
  {
    if i < |cs| {
      DropsDistinct(id, cs, i + 1);
      var rest := DropCands(id, cs, i + 1);
      forall c | c in rest
        ensures c.pos != cs[i].pos
      {
        var k := DropFrom(id, cs, i + 1, c);
      }
      assert forall j :: 0 <= j < |rest| ==> rest[j] in rest;
    }
  }

  lemma {:induction false} SwapsDistinct(same: (int, int) -> bool, id: nat, cs: seq<Clause>, i: nat)
    requires i <= |cs| && PositionsDistinct(cs)
    ensures Distinct(SwapCands(same, id, cs, i))
    decreases |cs| - i
  {
    if i + 1 < |cs| {
      SwapsDistinct(same, id, cs, i + 1);
      var rest := SwapCands(same, id, cs, i + 1);
      forall c | c in rest
        ensures c.pos != cs[i].pos
      {
        var k := SwapFrom(same, id, cs, i + 1, c);
      }
      assert forall j :: 0 <= j < |rest| ==> rest[j] in rest;
    }
  }

  lemma DistinctConcat<T>(a: seq<T>, b: seq<T>)
    requires Distinct(a) && Distinct(b) && forall x :: x in a ==> x !in b
    ensures Distinct(a + b)
  {
    assert forall i :: 0 <= i < |b| ==> b[i] in b;
    assert forall i :: 0 <= i < |a| ==> a[i] in a;
  }

  lemma SwitchCandsDistinct(info: Info, same: (int, int) -> bool, n: Node)
    requires SwitchesOk([n])
    ensures Distinct(CandsAt(info, same, SwitchCase, n))
  {
    assert n in [n];
    if n.NodeS? && n.s.Switch? {
      var cs := n.s.clauses;
      DropsDistinct(n.s.id, cs, 0);
      SwapsDistinct(same, n.s.id, cs, 0);
      forall c | c in DropCands(n.s.id, cs, 0)
        ensures c !in SwapCands(same, n.s.id, cs, 0)
      {
        var _ := DropFrom(n.s.id, cs, 0, c);
        if c in SwapCands(same, n.s.id, cs, 0) {
          var _ := SwapFrom(same, n.s.id, cs, 0, c);
        }
      }
      DistinctConcat(DropCands(n.s.id, cs, 0), SwapCands(same, n.s.id, cs, 0));
    }
  }

  lemma {:induction false} SwitchFindDistinct(info: Info, same: (int, int) -> bool, ns: seq<Node>)
    requires UniqueIds(ns) && SwitchesOk(ns)
    ensures Distinct(Find(info, same, SwitchCase, ns))
  {
    if ns != [] {
      var n, rest := ns[0], ns[1..];
      assert forall m :: m in rest ==> m in ns;
      SwitchFindDistinct(info, same, rest);
      SwitchCandsDistinct(info, same, n);
      var here := CandsAt(info, same, SwitchCase, n);
      if here != [] {
        SwitchesFresh(info, same, rest, n);
        SwitchesFresh(info, same, [], n);
        forall c | c in here
          ensures c !in Find(info, same, SwitchCase, rest)
        {
          if c in DropCands(n.s.id, n.s.clauses, 0) {
            var _ := DropFrom(n.s.id, n.s.clauses, 0, c);
          } else {
            var _ := SwapFrom(same, n.s.id, n.s.clauses, 0, c);
          }
        }
      }
      DistinctConcat(here, Find(info, same, SwitchCase, rest));
    }
  }

  lemma {:induction false} FindConcat(info: Info, same: (int, int) -> bool, op: Operator, a: seq<Node>, b: seq<Node>)
    ensures Find(info, same, op, a + b) == Find(info, same, op, a) + Find(info, same, op, b)
  {
    if a == [] {
      assert a + b == b;
    } else {
      assert (a + b)[1..] == a[1..] + b;
      FindConcat(info, same, op, a[1..], b);
    }
  }

  /** The nodes that are searched: generated files are not mutated. */
  function SearchedNodes(pk: Package, files: seq<File>): seq<Node> {
    if files == [] then []
    else SearchedNodes(pk, files[..|files| - 1])
         + (if files[|files| - 1].generated then [] else FileNodes(pk, files[|files| - 1]))
  }

  function FoundUpTo(pk: Package, ops: seq<Operator>, files: seq<File>): seq<seq<seq<Numbering.Site>>> {
    seq(|files|, i requires 0 <= i < |files| => FoundIn(pk, files[i], ops))
  }

  lemma {:induction false} PackageOper(pk: Package, ops: seq<Operator>, op: Operator, files: seq<File>)
    requires Distinct(ops) && op in ops
    ensures OfOper(Numbering.ConcatAll(FoundUpTo(pk, ops, files)), op)
            == Find(pk.info, pk.same, op, SearchedNodes(pk, files))
  {
    if files != [] {
      var init, last := files[..|files| - 1], files[|files| - 1];
      var found := FoundUpTo(pk, ops, files);
      assert found[..|found| - 1] == FoundUpTo(pk, ops, init);
      PackageOper(pk, ops, op, init);
      FileOper(pk, last, ops, op);
      OfOperConcat(Numbering.ConcatAll(FoundUpTo(pk, ops, init)), Numbering.Concat(FoundIn(pk, last, ops)), op);
      FindConcat(pk.info, pk.same, op, SearchedNodes(pk, init), if last.generated then [] else FileNodes(pk, last));
    }
  }

  lemma {:induction false} SearchedUnique(pk: Package, files: seq<File>)
    requires UniqueIds(PackageNodes(pk, files))
    ensures UniqueIds(SearchedNodes(pk, files))
    ensures forall n :: n in SearchedNodes(pk, files) ==> n in PackageNodes(pk, files)
  {
    if files != [] {
      var init, last := files[..|files| - 1], files[|files| - 1];
      var all, mine := PackageNodes(pk, init), FileNodes(pk, last);
      UniqueParts(all, mine);
      SearchedUnique(pk, init);
      var some := SearchedNodes(pk, init);
      if !last.generated {
        forall i, j | 0 <= i < |some| && 0 <= j < |mine| && NodeId(some[i]).Some?
          ensures NodeId(some[i]) != NodeId(mine[j])
        {
          assert some[i] in all;
          var k :| 0 <= k < |all| && all[k] == some[i];
          assert (all + mine)[k] == all[k] && (all + mine)[|all| + j] == mine[j];
        }
        UniqueConcat(some, mine);
      }
    }
  }

  lemma UniqueParts(a: seq<Node>, b: seq<Node>)
    requires UniqueIds(a + b)
    ensures UniqueIds(a) && UniqueIds(b)
  {
    assert forall i :: 0 <= i < |a| ==> (a + b)[i] == a[i];
    forall i, j | 0 <= i < j < |b| && NodeId(b[i]).Some?
      ensures NodeId(b[i]) != NodeId(b[j])
    {
      assert (a + b)[|a| + i] == b[i] && (a + b)[|a| + j] == b[j];
    }
  }

  lemma UniqueConcat(a: seq<Node>, b: seq<Node>)
    requires UniqueIds(a) && UniqueIds(b)
    requires forall i, j :: 0 <= i < |a| && 0 <= j < |b| && NodeId(a[i]).Some? ==> NodeId(a[i]) != NodeId(b[j])
    ensures UniqueIds(a + b)
  {
  }

  lemma {:induction false} FilesSwitchesOk(pk: Package, fs: seq<string>)
    requires SourceProg(pk.prog)
    ensures SwitchesOk(NodesOfFuncs(pk.prog, fs))
  {
    if fs != [] {
      FilesSwitchesOk(pk, fs[1..]);
      if fs[0] in pk.prog {
        SwitchesOkSs(pk.prog[fs[0]].body);
      }
    }
  }

  lemma {:induction false} PackageSwitchesOk(pk: Package, files: seq<File>)
    requires SourceProg(pk.prog)
    ensures SwitchesOk(PackageNodes(pk, files))
  {
    if files != [] {
      PackageSwitchesOk(pk, files[..|files| - 1]);
      FilesSwitchesOk(pk, files[|files| - 1].funcs);
    }
  }

  lemma {:induction false} ClosedPackage(pk: Package, files: seq<File>)
    ensures Closed(PackageNodes(pk, files))
  {
    if files != [] {
      ClosedPackage(pk, files[..|files| - 1]);
      ClosedFile(pk.prog, files[|files| - 1].funcs);
      ClosedConcat(PackageNodes(pk, files[..|files| - 1]), FileNodes(pk, files[|files| - 1]));
    }
  }

  lemma {:induction false} OfOperAt(ss: seq<Numbering.Site>, op: Operator, i: nat) returns (k: nat)
    requires i < |ss| && ss[i].oper == op
    ensures k < |OfOper(ss, op)| && OfOper(ss, op)[k] == ss[i].cand
    ensures k == |OfOper(ss[..i], op)|
  {
    if i == |ss| - 1 {
      k := |OfOper(ss[..i], op)|;
    } else {
      k := OfOperAt(ss[..|ss| - 1], op, i);
      assert ss[..|ss| - 1][..i] == ss[..i];
    }
  }

  lemma {:induction false} OfOperGrows(ss: seq<Numbering.Site>, op: Operator, i: nat, j: nat)
    requires i < j <= |ss| && ss[i].oper == op
    ensures |OfOper(ss[..i], op)| < |OfOper(ss[..j], op)|
    decreases j
  {
    assert ss[..j][..j - 1] == ss[..j - 1];
    if i < j - 1 {
      OfOperGrows(ss, op, i, j - 1);
    }
  }

  lemma {:induction false} ConcatAllStep(pk: Package, ops: seq<Operator>, files: seq<File>)
    requires files != []
    ensures Numbering.ConcatAll(FoundUpTo(pk, ops, files)) ==
            Numbering.ConcatAll(FoundUpTo(pk, ops, files[..|files| - 1]))
            + Numbering.Concat(FoundIn(pk, files[|files| - 1], ops))
  {
    var found := FoundUpTo(pk, ops, files);
    assert found[..|found| - 1] == FoundUpTo(pk, ops, files[..|files| - 1]);
  }

  lemma {:induction false} OpsComplete(pk: Package, ops: seq<Operator>, files: seq<File>)
    ensures forall s :: s in Numbering.ConcatAll(FoundUpTo(pk, ops, files)) ==> s.oper in ops
  {
    if files == [] {
      assert FoundUpTo(pk, ops, files) == [];
    } else {
      ConcatAllStep(pk, ops, files);
      OpsComplete(pk, ops, files[..|files| - 1]);
      FileOps(pk, ops, files[|files| - 1]);
    }
  }

  lemma {:induction false} FileOps(pk: Package, ops: seq<Operator>, f: File)
    ensures forall s :: s in Numbering.Concat(FoundIn(pk, f, ops)) ==> s.oper in ops
  {
    var found := FoundIn(pk, f, ops);
    if found != [] {
      var init, last := ops[..|ops| - 1], ops[|ops| - 1];
      assert found[..|found| - 1] == FoundIn(pk, f, init) && found[|found| - 1] == FoundBy(pk, f, last);
      FileOps(pk, init, f);
    }
  }

  lemma EmittedOwned(pk: Package, ops: seq<Operator>, m: Mutation)
    requires WellFormed(pk) && Distinct(ops) && Numbering.IsCandidate(Candidates(pk, ops), m)
    ensures Owned(pk, m)
  {
    SiteOwned(pk, ops, m.id - 1);
  }

  lemma EmittedDiffer(pk: Package, ops: seq<Operator>, a: Mutation, b: Mutation)
    requires WellFormed(pk) && Distinct(ops) && a.id < b.id && a.oper == SwitchCase && b.oper == SwitchCase
    requires Numbering.IsCandidate(Candidates(pk, ops), a) && Numbering.IsCandidate(Candidates(pk, ops), b)
    ensures CandOf(a) != CandOf(b)
  {
    SitesDiffer(pk, ops, a.id - 1, b.id - 1);
  }

  /** Whatever the scope, the emitted mutations meet the theorems' conditions. */
  lemma EmittedSound(pk: Package, ops: seq<Operator>, o: Numbering.Options, h: Numbering.Hash)
    requires WellFormed(pk) && Distinct(ops)
    ensures Sound(pk, MutationsOf(Numbering.Emitted(o, h, Candidates(pk, ops))))
  {
    var ss := Candidates(pk, ops);
    var es := Numbering.Emitted(o, h, ss);
    Numbering.EmittedFrom(o, h, ss);
    forall i | 0 <= i < |es|
      ensures Owned(pk, es[i].m)
    {
      EmittedOwned(pk, ops, es[i].m);
    }
    forall i, j | 0 <= i < j < |es| && es[i].m.oper == SwitchCase && es[j].m.oper == SwitchCase
      ensures CandOf(es[i].m) != CandOf(es[j].m)
    {
      EmittedDiffer(pk, ops, es[i].m, es[j].m);
    }
  }

  lemma SiteOwned(pk: Package, ops: seq<Operator>, i: nat)
    requires WellFormed(pk) && Distinct(ops) && i < |Candidates(pk, ops)|
    ensures var s := Candidates(pk, ops)[i];
            exists n :: n in PackageNodes(pk, pk.files) && CandFor(pk.info, pk.same, s.oper, s.cand, n)
  {
    var s := Candidates(pk, ops)[i];
    assert FoundAll(pk, ops) == FoundUpTo(pk, ops, pk.files);
    OpsComplete(pk, ops, pk.files);
    assert Candidates(pk, ops)[i] in Candidates(pk, ops);
    PackageOper(pk, ops, s.oper, pk.files);
    var k := OfOperAt(Candidates(pk, ops), s.oper, i);
    ClosedPackage(pk, pk.files);
    SearchedUnique(pk, pk.files);
    assert s.cand in Find(pk.info, pk.same, s.oper, SearchedNodes(pk, pk.files));
    FindOwner(pk.info, pk.same, s.oper, PackageNodes(pk, pk.files), SearchedNodes(pk, pk.files), s.cand);
  }

  lemma SitesDiffer(pk: Package, ops: seq<Operator>, i: nat, j: nat)
    requires WellFormed(pk) && Distinct(ops) && i < j < |Candidates(pk, ops)|
    requires Candidates(pk, ops)[i].oper == SwitchCase && Candidates(pk, ops)[j].oper == SwitchCase
    ensures Candidates(pk, ops)[i].cand != Candidates(pk, ops)[j].cand
  {
    var ss := Candidates(pk, ops);
    assert FoundAll(pk, ops) == FoundUpTo(pk, ops, pk.files);
    OpsComplete(pk, ops, pk.files);
    assert Candidates(pk, ops)[i] in Candidates(pk, ops);
    PackageOper(pk, ops, SwitchCase, pk.files);
    SearchedUnique(pk, pk.files);
    PackageSwitchesOk(pk, pk.files);
    SwitchFindDistinct(pk.info, pk.same, SearchedNodes(pk, pk.files));
    var a := OfOperAt(ss, SwitchCase, i);
    var b := OfOperAt(ss, SwitchCase, j);
    OfOperGrows(ss, SwitchCase, i, j);
  }

  // ----- Under any options -----

  /** The mutations that the rewriter emits under some options. */
  function Emits(pk: Package, ops: seq<Operator>, o: Numbering.Options, h: Numbering.Hash): seq<Mutation> {
    MutationsOf(Numbering.Emitted(o, h, Candidates(pk, ops)))
  }
}
