/** Rewriting a package: find, number, group, rewrite. */
module Rewriter {
  import opened Integers
  import opened IntLiterals
  import opened Seqs
  import opened Syntax
  import opened Mutations
  import opened Operators
  import opened Schema
  import Numbering
  import opened Grouping

  datatype File = File(path: string, base: string, generated: bool, funcs: seq<string>)

  /** A loaded package: its files in path order, its functions, and what the
      type checker and the file set say of it. */
  datatype Package = Package(files: seq<File>, prog: Program, info: Info, same: (int, int) -> bool,
                             at: (string, Operator, Cand) -> Numbering.Where)

  function NodesOfFuncs(p: Program, fs: seq<string>): seq<Node> {
    if fs == [] then []
    else (if fs[0] in p then NodesSs(p[fs[0]].body) else []) + NodesOfFuncs(p, fs[1..])
  }

  function FileNodes(pk: Package, f: File): seq<Node> { NodesOfFuncs(pk.prog, f.funcs) }

  function PackageNodes(pk: Package, files: seq<File>): seq<Node> {
    if files == [] then [] else PackageNodes(pk, files[..|files| - 1]) + FileNodes(pk, files[|files| - 1])
  }

  function SiteOf(pk: Package, f: File, op: Operator, c: Cand): Numbering.Site {
    Numbering.Site(f.path, f.base, op, c, pk.at(f.path, op, c))
  }

  function Located(pk: Package, f: File, op: Operator, cs: seq<Cand>): seq<Numbering.Site> {
    seq(|cs|, i requires 0 <= i < |cs| => SiteOf(pk, f, op, cs[i]))
  }

  function FoundBy(pk: Package, f: File, op: Operator): (r: seq<Numbering.Site>)
    ensures forall s :: s in r ==>
              && s.path == f.path && s.base == f.base && s.oper == op && s.at == pk.at(f.path, op, s.cand)
              && s.cand in Find(pk.info, pk.same, op, FileNodes(pk, f))
  {
    Located(pk, f, op, Find(pk.info, pk.same, op, FileNodes(pk, f)))
  }

  /** Generated files are not mutated. */
  function FoundIn(pk: Package, f: File, ops: seq<Operator>): seq<seq<Numbering.Site>> {
    if f.generated then []
    else seq(|ops|, i requires 0 <= i < |ops| => FoundBy(pk, f, ops[i]))
  }

  function FoundAll(pk: Package, ops: seq<Operator>): seq<seq<seq<Numbering.Site>>> {
    seq(|pk.files|, i requires 0 <= i < |pk.files| => FoundIn(pk, pk.files[i], ops))
  }

  function Candidates(pk: Package, ops: seq<Operator>): seq<Numbering.Site> {
    Numbering.ConcatAll(FoundAll(pk, ops))
  }

  function MutationsOf(rs: seq<Numbering.Record>): seq<Mutation> {
    seq(|rs|, i requires 0 <= i < |rs| => rs[i].m)
  }

  datatype Rewritten = Rewritten(prog: Program, mutations: seq<Numbering.Record>, ignored: nat, stale: set<string>)

  /** The rewriter.  None is its error: two shape-specific operators on one
      node. */
  method RewriteWith(pk: Package, ops: seq<Operator>, o: Numbering.Options, h: Numbering.Hash)
    returns (r: Option<Rewritten>)
    ensures var ms := MutationsOf(Numbering.Emitted(o, h, Candidates(pk, ops)));
            && (r.None? <==> exists n :: n in NodesOf(ms) && Refused(GroupsOn(ms, n)))
            && (r.Some? ==>
                  && r.value.prog == RwProg(pk.info, GroupMap(ms), pk.prog)
                  && r.value.mutations == Numbering.Emitted(o, h, Candidates(pk, ops))
                  && r.value.ignored == Numbering.Ignored(o, h, Candidates(pk, ops))
                  && r.value.stale == o.accepted - Numbering.Fingerprints(h, Candidates(pk, ops)))
  {
    var found: seq<seq<seq<Numbering.Site>>> := [];
    for i := 0 to |pk.files|
      invariant found == FoundAll(pk, ops)[..i]
    {
      var sites: seq<seq<Numbering.Site>> := [];
      if !pk.files[i].generated {
        for j := 0 to |ops|
          invariant sites == FoundIn(pk, pk.files[i], ops)[..j]
        {
          sites := sites + [FoundBy(pk, pk.files[i], ops[j])];
        }
      }
      assert sites == FoundIn(pk, pk.files[i], ops);
      found := found + [sites];
    }
    assert found == FoundAll(pk, ops);
    var mutations, ignored, stale := Numbering.NumberAll(o, h, found);
    var gm := GroupAll(MutationsOf(mutations));
    if gm.None? {
      return None;
    }
    return Some(Rewritten(RwProg(pk.info, gm.value, pk.prog), mutations, ignored, stale));
  }

  // ----- What is taken from the loader and the type checker -----

  ghost predicate UniqueIds(ns: seq<Node>) {
    forall i, j :: 0 <= i < j < |ns| && NodeId(ns[i]).Some? ==> NodeId(ns[i]) != NodeId(ns[j])
  }

  /** A literal's contextual type is the type of its value on the target. */
  ghost predicate TypedLiteral(info: Info, n: Node) {
    n.NodeE? && n.e.Lit? && n.e.v.IntV? && info.ty(n.e.id).TInt? ==>
      n.e.v.t == OnTarget(info.ty(n.e.id).kind, info.word) && 0 <= n.e.v.n && InRange(n.e.v.t, n.e.v.n)
  }

  ghost predicate WellFormed(pk: Package) {
    && SourceProg(pk.prog)
    && (forall f :: f in pk.prog ==> exists i :: 0 <= i < |pk.files| && f in pk.files[i].funcs)
    && UniqueIds(PackageNodes(pk, pk.files))
    && (forall n :: n in PackageNodes(pk, pk.files) ==> TypedLiteral(pk.info, n))
  }

  // ----- Every candidate belongs to a node it fits -----

  /** The expressions whose own node a candidate found at n can name. */
  function Kids(n: Node): seq<Expr> {
    match n
    case NodeS(Return(es)) => es
    case NodeE(Slice(_, _, bounds)) => bounds
    case NodeE(Composite(_, _, vals)) => vals
    case _ => []
  }

  function ExprNodes(es: seq<Expr>): seq<Node> {
    seq(|es|, i requires 0 <= i < |es| => NodeE(es[i]))
  }

  function StmtNodes(ss: seq<Stmt>): seq<Node> {
    seq(|ss|, i requires 0 <= i < |ss| => NodeS(ss[i]))
  }

  function ClauseNodes(cs: seq<Clause>): seq<Node> {
    if cs == [] then [] else ExprNodes(cs[0].list) + StmtNodes(cs[0].body) + ClauseNodes(cs[1..])
  }

  /** The nodes that stand directly in another. */
  function Parts(n: Node): seq<Node> {
    match n
    case NodeE(Bin(_, _, l, r)) => [NodeE(l), NodeE(r)]
    case NodeE(Logic(_, _, l, r)) => [NodeE(l), NodeE(r)]
    case NodeE(Not(_, e)) => [NodeE(e)]
    case NodeE(Index(_, b, i)) => [NodeE(b), NodeE(i)]
    case NodeE(Slice(_, b, bounds)) => [NodeE(b)] + ExprNodes(bounds)
    case NodeE(Recv(_, ch)) => [NodeE(ch)]
    case NodeE(Call(_, _, args)) => ExprNodes(args)
    case NodeE(Composite(_, _, vals)) => ExprNodes(vals)
    case NodeE(_) => []
    case NodeL(LIndex(_, b, i)) => [NodeE(b), NodeE(i)]
    case NodeL(_) => []
    case NodeS(ExprStmt(e)) => [NodeE(e)]
    case NodeS(CallStmt(_, _, args)) => ExprNodes(args)
    case NodeS(Assign(l, r)) => [NodeL(l), NodeE(r)]
    case NodeS(IncDec(_, l, _)) => [NodeL(l)]
    case NodeS(Compound(_, _, l, r)) => [NodeL(l), NodeE(r)]
    case NodeS(Send(_, ch, v)) => [NodeE(ch), NodeE(v)]
    case NodeS(If(cond, thn, els)) => [NodeE(cond)] + StmtNodes(thn) + StmtNodes(els)
    case NodeS(For(cond, post, body)) => [NodeE(cond)] + StmtNodes(post) + StmtNodes(body)
    case NodeS(Return(es)) => ExprNodes(es)
    case NodeS(Switch(_, Some(e), cs, _)) => [NodeE(e)] + ClauseNodes(cs)
    case NodeS(Switch(_, None, cs, _)) => ClauseNodes(cs)
    case NodeS(_) => []
  }

  /** With a node, everything that stands in it. */
  ghost predicate Closed(ns: seq<Node>) {
    forall n, k :: n in ns && k in Parts(n) ==> k in ns
  }

  lemma ClosedConcat(a: seq<Node>, b: seq<Node>)
    requires Closed(a) && Closed(b)
    ensures Closed(a + b)
  {
  }

  lemma KidIsPart(n: Node, k: Expr)
    requires k in Kids(n)
    ensures NodeE(k) in Parts(n)
  {
    var i :| 0 <= i < |Kids(n)| && Kids(n)[i] == k;
    assert ExprNodes(Kids(n))[i] == NodeE(k);
  }

  lemma FirstE(e: Expr)
    ensures NodeE(e) in NodesE(e)
  {
    assert NodesE(e)[0] == NodeE(e);
  }

  lemma FirstL(l: Lhs)
    ensures NodeL(l) in NodesL(l)
  {
    assert NodesL(l)[0] == NodeL(l);
  }

  lemma {:induction false} ListHolds(es: seq<Expr>)
    ensures forall n :: n in ExprNodes(es) ==> n in NodesEs(es)
  {
    if es != [] {
      ListHolds(es[1..]);
      FirstE(es[0]);
      assert ExprNodes(es) == [NodeE(es[0])] + ExprNodes(es[1..]);
    }
  }

  lemma {:induction false} BlockHolds(ss: seq<Stmt>)
    ensures forall n :: n in StmtNodes(ss) ==> n in NodesSs(ss)
  {
    if ss != [] {
      BlockHolds(ss[1..]);
      assert NodesS(ss[0])[0] == NodeS(ss[0]);
      assert StmtNodes(ss) == [NodeS(ss[0])] + StmtNodes(ss[1..]);
    }
  }

  lemma {:induction false} ClausesHold(cs: seq<Clause>)
    ensures forall n :: n in ClauseNodes(cs) ==> n in NodesCs(cs)
  {
    if cs != [] {
      ListHolds(cs[0].list);
      BlockHolds(cs[0].body);
      ClausesHold(cs[1..]);
    }
  }

  lemma ClosedCons(n: Node, rest: seq<Node>)
    requires Closed(rest) && forall k :: k in Parts(n) ==> k in rest
    ensures Closed([n] + rest)
  {
  }

  /** A node whose parts stand in two closed walks. */
  lemma ClosedTwo(n: Node, a: seq<Node>, b: seq<Node>)
    requires Closed(a) && Closed(b) && forall k :: k in Parts(n) ==> k in a || k in b
    ensures Closed([n] + (a + b))
  {
    ClosedConcat(a, b);
    ClosedCons(n, a + b);
  }

  lemma {:induction false} ClosedPair(n: Node, l: Expr, r: Expr)
    requires Parts(n) == [NodeE(l), NodeE(r)] && Closed(NodesE(l)) && Closed(NodesE(r))
    ensures Closed([n] + (NodesE(l) + NodesE(r)))
  {
    FirstE(l);
    FirstE(r);
    ClosedTwo(n, NodesE(l), NodesE(r));
  }

  lemma {:induction false} ClosedOne(n: Node, e: Expr)
    requires Parts(n) == [NodeE(e)] && Closed(NodesE(e))
    ensures Closed([n] + NodesE(e))
  {
    FirstE(e);
    ClosedCons(n, NodesE(e));
  }

  lemma {:induction false} ClosedList(n: Node, es: seq<Expr>)
    requires Parts(n) == ExprNodes(es) && Closed(NodesEs(es))
    ensures Closed([n] + NodesEs(es))
  {
    ListHolds(es);
    ClosedCons(n, NodesEs(es));
  }

  lemma {:induction false} ClosedE(e: Expr)
    ensures Closed(NodesE(e))
    decreases e, 0
  {
    match e
    case Bin(_, _, l, r) => ClosedE(l); ClosedE(r); ClosedPair(NodeE(e), l, r);
    case Logic(_, _, l, r) => ClosedE(l); ClosedE(r); ClosedPair(NodeE(e), l, r);
    case Not(_, e1) => ClosedE(e1); ClosedOne(NodeE(e), e1);
    case Index(_, b, i) => ClosedE(b); ClosedE(i); ClosedPair(NodeE(e), b, i);
    case Slice(_, b, bounds) =>
      ClosedE(b); ClosedEs(bounds);
      FirstE(b); ListHolds(bounds);
      ClosedTwo(NodeE(e), NodesE(b), NodesEs(bounds));
    case Recv(_, ch) => ClosedE(ch); ClosedOne(NodeE(e), ch);
    case Call(_, _, args) => ClosedEs(args); ClosedList(NodeE(e), args);
    case Composite(_, _, vals) => ClosedEs(vals); ClosedList(NodeE(e), vals);
    case _ =>
  }

  lemma {:induction false} ClosedEs(es: seq<Expr>)
    ensures Closed(NodesEs(es))
    decreases es, 0
  {
    if es != [] {
      ClosedE(es[0]);
      ClosedEs(es[1..]);
      ClosedConcat(NodesE(es[0]), NodesEs(es[1..]));
    }
  }

  lemma {:induction false} ClosedL(l: Lhs)
    ensures Closed(NodesL(l))
  {
    if l.LIndex? {
      ClosedE(l.base);
      ClosedE(l.idx);
      ClosedPair(NodeL(l), l.base, l.idx);
    }
  }

  lemma {:induction false} ClosedStore(n: Node, l: Lhs, r: Expr)
    requires Parts(n) == [NodeL(l), NodeE(r)]
    ensures Closed([n] + (NodesL(l) + NodesE(r)))
  {
    ClosedL(l);
    ClosedE(r);
    FirstL(l);
    FirstE(r);
    ClosedTwo(n, NodesL(l), NodesE(r));
  }

  lemma {:induction false} ClosedBlocks(n: Node, cond: Expr, a: seq<Stmt>, b: seq<Stmt>)
    requires Parts(n) == [NodeE(cond)] + StmtNodes(a) + StmtNodes(b) && Closed(NodesSs(a)) && Closed(NodesSs(b))
    ensures Closed([n] + (NodesE(cond) + NodesSs(a) + NodesSs(b)))
  {
    ClosedE(cond);
    ClosedConcat(NodesE(cond), NodesSs(a));
    FirstE(cond);
    BlockHolds(a);
    BlockHolds(b);
    ClosedTwo(n, NodesE(cond) + NodesSs(a), NodesSs(b));
  }

  lemma {:induction false} ClosedSwitch(s: Stmt)
    requires s.Switch? && Closed(NodesCs(s.clauses))
    ensures Closed(NodesS(s))
  {
    ClausesHold(s.clauses);
    if s.tag.Some? {
      ClosedE(s.tag.value);
      FirstE(s.tag.value);
      ClosedTwo(NodeS(s), NodesE(s.tag.value), NodesCs(s.clauses));
    } else {
      ClosedTwo(NodeS(s), [], NodesCs(s.clauses));
    }
  }

  lemma {:induction false} ClosedSimple(s: Stmt)
    requires !s.If? && !s.For? && !s.Switch?
    ensures Closed(NodesS(s))
  {
    match s
    case ExprStmt(e) => ClosedE(e); ClosedOne(NodeS(s), e);
    case CallStmt(_, _, args) => ClosedEs(args); ClosedList(NodeS(s), args);
    case Assign(l, r) => ClosedStore(NodeS(s), l, r);
    case IncDec(_, l, _) => ClosedL(l); FirstL(l); ClosedCons(NodeS(s), NodesL(l));
    case Compound(_, _, l, r) => ClosedStore(NodeS(s), l, r);
    case Send(_, ch, v) => ClosedE(ch); ClosedE(v); ClosedPair(NodeS(s), ch, v);
    case Return(es) => ClosedEs(es); ClosedList(NodeS(s), es);
    case _ =>
  }

  lemma {:induction false} ClosedS(s: Stmt)
    ensures Closed(NodesS(s))
    decreases s, 0
  {
    match s
    case If(cond, a, b) => ClosedSs(a); ClosedSs(b); ClosedBlocks(NodeS(s), cond, a, b);
    case For(cond, post, body) => ClosedSs(post); ClosedSs(body); ClosedBlocks(NodeS(s), cond, post, body);
    case Switch(_, _, cs, _) => ClosedCs(cs); ClosedSwitch(s);
    case _ => ClosedSimple(s);
  }

  lemma {:induction false} ClosedSs(ss: seq<Stmt>)
    ensures Closed(NodesSs(ss))
    decreases ss, 0
  {
    if ss != [] {
      ClosedS(ss[0]);
      ClosedSs(ss[1..]);
      ClosedConcat(NodesS(ss[0]), NodesSs(ss[1..]));
    }
  }

  lemma {:induction false} ClosedCs(cs: seq<Clause>)
    ensures Closed(NodesCs(cs))
    decreases cs, 0
  {
    if cs != [] {
      ClosedEs(cs[0].list);
      ClosedSs(cs[0].body);
      ClosedCs(cs[1..]);
      ClosedConcat(NodesEs(cs[0].list), NodesSs(cs[0].body));
      ClosedConcat(NodesEs(cs[0].list) + NodesSs(cs[0].body), NodesCs(cs[1..]));
    }
  }

  lemma {:induction false} ClosedFile(p: Program, fs: seq<string>)
    ensures Closed(NodesOfFuncs(p, fs))
  {
    if fs != [] {
      ClosedFile(p, fs[1..]);
      if fs[0] in p {
        ClosedSs(p[fs[0]].body);
        ClosedConcat(NodesSs(p[fs[0]].body), NodesOfFuncs(p, fs[1..]));
      }
    }
  }

  /** What a candidate's own node looks like: a wrapper's is any expression, a
      shape-specific one is where the operator found it. */
  ghost predicate CandFor(info: Info, same: (int, int) -> bool, op: Operator, c: Cand, n: Node) {
    && NodeId(n) == Some(c.node)
    && (if IsWrapper(KeyOf(op)) then n.NodeE? && c in WrapCands(info, op, n.e)
        else c in CandsAt(info, same, op, n))
  }

  lemma {:induction false} CollectFrom(info: Info, op: Operator, es: seq<Expr>, c: Cand) returns (k: Expr)
    requires c in Collect(info, op, es)
    ensures k in es && ExprId(k) == Some(c.node) && c in WrapCands(info, op, k)
  {
    if c in Collect(info, op, es[1..]) {
      k := CollectFrom(info, op, es[1..], c);
    } else {
      k := es[0];
    }
  }

  lemma {:induction false} DropFrom(id: nat, cs: seq<Clause>, i: nat, c: Cand) returns (k: nat)
    requires i <= |cs| && c in DropCands(id, cs, i)
    ensures i <= k < |cs| && c == Cand(id, cs[k].pos, EmptyText)
    decreases |cs| - i
  {
    if i < |cs| && c in DropCands(id, cs, i + 1) {
      k := DropFrom(id, cs, i + 1, c);
    } else {
      k := i;
    }
  }

  lemma {:induction false} SwapFrom(same: (int, int) -> bool, id: nat, cs: seq<Clause>, i: nat, c: Cand)
    returns (k: nat)
    requires i <= |cs| && c in SwapCands(same, id, cs, i)
    ensures i <= k && k + 1 < |cs| && c == Cand(id, cs[k].pos, SwapText)
    decreases |cs| - i
  {
    var rest := SwapCands(same, id, cs, i + 1);
    var first := if same(cs[i].pos, cs[i + 1].pos) then [] else [Cand(id, cs[i].pos, SwapText)];
    assert SwapCands(same, id, cs, i) == first + rest;
    if c in rest {
      k := SwapFrom(same, id, cs, i + 1, c);
    } else {
      k := i;
    }
  }

  lemma OwnerAt(info: Info, same: (int, int) -> bool, op: Operator, ns: seq<Node>, n: Node, c: Cand)
    requires Closed(ns) && n in ns && c in CandsAt(info, same, op, n)
    ensures exists n' :: n' in ns && CandFor(info, same, op, c, n')
  {
    if IsWrapper(KeyOf(op)) {
      var k := CollectFrom(info, op, Kids(n), c);
      KidIsPart(n, k);
      assert CandFor(info, same, op, c, NodeE(k));
    } else {
      if n.NodeS? && n.s.Switch? {
        if c in DropCands(n.s.id, n.s.clauses, 0) {
          var _ := DropFrom(n.s.id, n.s.clauses, 0, c);
        } else {
          var _ := SwapFrom(same, n.s.id, n.s.clauses, 0, c);
        }
      }
      assert CandFor(info, same, op, c, n);
    }
  }

  lemma {:induction false} FindOwner(info: Info, same: (int, int) -> bool, op: Operator, all: seq<Node>,
                                     ns: seq<Node>, c: Cand)
    requires Closed(all) && (forall n :: n in ns ==> n in all) && c in Find(info, same, op, ns)
    ensures exists n :: n in all && CandFor(info, same, op, c, n)
  {
    if c in CandsAt(info, same, op, ns[0]) {
      OwnerAt(info, same, op, all, ns[0], c);
    } else {
      assert forall n :: n in ns[1..] ==> n in ns;
      FindOwner(info, same, op, all, ns[1..], c);
    }
  }
}
