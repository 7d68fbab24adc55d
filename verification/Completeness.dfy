/** What the operators must find: every node of their shape that the type
    checker admits, in every file that is not generated. */
module Completeness {
  import opened IntLiterals
  import opened Seqs
  import opened Syntax
  import opened Mutations
  import opened Operators
  import Numbering
  import opened Rewriter
  import opened Emission

  // ----- One node -----

  lemma {:induction false} FindHas(info: Info, same: (int, int) -> bool, op: Operator, ns: seq<Node>, n: Node, c: Cand)
    requires n in ns && c in CandsAt(info, same, op, n)
    ensures c in Find(info, same, op, ns)
  {
    if n != ns[0] {
      FindHas(info, same, op, ns[1..], n, c);
    }
  }

  /** Operations on two operands get their sibling, a comparison its boundary
      and its negation, and && and || each other. */
  lemma {:induction false} FindsBinary(info: Info, same: (int, int) -> bool, ns: seq<Node>, e: Expr)
    requires NodeE(e) in ns && (e.Bin? || e.Logic?)
    ensures e.Bin? && e.op in {Add, Sub, Mul, Quo, Rem} && info.ok(IntArith, e.id) ==>
              var m := match e.op case Add => Sub case Sub => Add case Mul => Quo case _ => Mul;
              Cand(e.id, info.pos(IntArith, e.id), OpText(m)) in Find(info, same, IntArith, ns)
    ensures e.Bin? && e.op in {And, Or, Xor, Shl, Shr, AndNot} && info.ok(IntBitwise, e.id) ==>
              var m := match e.op case And => Or case Shl => Shr case Shr => Shl case _ => And;
              Cand(e.id, info.pos(IntBitwise, e.id), OpText(m)) in Find(info, same, IntBitwise, ns)
    ensures e.Bin? && e.op in {Lt, Le, Gt, Ge} && info.ok(IntCmpBoundary, e.id) ==>
              var m := match e.op case Lt => Le case Le => Lt case Gt => Ge case _ => Gt;
              Cand(e.id, info.pos(IntCmpBoundary, e.id), OpText(m)) in Find(info, same, IntCmpBoundary, ns)
    ensures e.Bin? && e.op in {Lt, Le, Gt, Ge, Eq, Ne} && info.ok(IntCmpNegate, e.id) ==>
              Cand(e.id, info.pos(IntCmpNegate, e.id), OpText(Negated(e.op))) in Find(info, same, IntCmpNegate, ns)
    ensures e.Logic? && info.ok(BoolLogic, e.id) ==>
              Cand(e.id, info.pos(BoolLogic, e.id), LogicText(!e.isAnd)) in Find(info, same, BoolLogic, ns)
  {
    var ops := [IntArith, IntBitwise, IntCmpBoundary, IntCmpNegate, BoolLogic];
    forall op, c | op in ops && c in CandsAtE(info, op, e)
      ensures c in Find(info, same, op, ns)
    {
      FindHas(info, same, op, ns, NodeE(e), c);
    }
  }

  /** Negations, literals, indices and receives. */
  lemma {:induction false} FindsUnary(info: Info, same: (int, int) -> bool, ns: seq<Node>, e: Expr)
    requires NodeE(e) in ns
    ensures e.Not? && info.ok(BoolNot, e.id) ==>
              Cand(e.id, info.pos(BoolNot, e.id), EmptyText) in Find(info, same, BoolNot, ns)
    ensures e.Recv? && info.ok(ChanOp, e.id) ==>
              Cand(e.id, info.pos(ChanOp, e.id), ZeroText) in Find(info, same, ChanOp, ns)
    ensures e.Lit? && e.v.StrV? && e.v.s != "" && info.ok(StringLiteral, e.id) ==>
              Cand(e.id, info.pos(StringLiteral, e.id), EmptyText) in Find(info, same, StringLiteral, ns)
    ensures e.Lit? && e.v.BoolV? && info.ok(BoolLiteral, e.id) ==>
              Cand(e.id, info.pos(BoolLiteral, e.id), BoolText(!e.v.b)) in Find(info, same, BoolLiteral, ns)
  {
    var ops := [BoolNot, ChanOp, StringLiteral, BoolLiteral];
    forall op, c | op in ops && c in CandsAtE(info, op, e)
      ensures c in Find(info, same, op, ns)
    {
      FindHas(info, same, op, ns, NodeE(e), c);
    }
  }

  /** Every value that the literal operator's arithmetic allows. */
  lemma {:induction false} FindsLiteral(info: Info, same: (int, int) -> bool, ns: seq<Node>, e: Expr, v: int)
    requires NodeE(e) in ns && e.Lit? && e.v.IntV? && info.ok(IntLiteral, e.id) && info.ty(e.id).TInt?
    requires v in MutantValues(e.v.n, info.ty(e.id).kind)
    ensures Cand(e.id, info.pos(IntLiteral, e.id), IntText(v)) in Find(info, same, IntLiteral, ns)
  {
    var vs := MutantValues(e.v.n, info.ty(e.id).kind);
    var i :| 0 <= i < |vs| && vs[i] == v;
    var pos := info.pos(IntLiteral, e.id);
    assert IntTexts(e.id, pos, vs)[i] == Cand(e.id, pos, IntText(v));
    FindHas(info, same, IntLiteral, ns, NodeE(e), Cand(e.id, pos, IntText(v)));
  }

  /** Both offsets of an index, read or assigned to. */
  lemma {:induction false} FindsIndex(info: Info, same: (int, int) -> bool, ns: seq<Node>, n: Node, m: MutText)
    requires n in ns && ((n.NodeE? && n.e.Index?) || (n.NodeL? && n.l.LIndex?)) && (m == PlusOne || m == MinusOne)
    ensures var id := NodeId(n).value;
            info.ok(SliceIndex, id) ==> Cand(id, info.pos(SliceIndex, id), m) in Find(info, same, SliceIndex, ns)
  {
    var id := NodeId(n).value;
    var pos := info.pos(SliceIndex, id);
    assert Offsets(id, pos)[0] == Cand(id, pos, PlusOne) && Offsets(id, pos)[1] == Cand(id, pos, MinusOne);
    if info.ok(SliceIndex, id) {
      FindHas(info, same, SliceIndex, ns, n, Cand(id, pos, m));
    }
  }

  lemma {:induction false} CollectHas(info: Info, op: Operator, es: seq<Expr>, e: Expr, c: Cand)
    requires e in es && c in WrapCands(info, op, e)
    ensures c in Collect(info, op, es)
  {
    if e != es[0] {
      CollectHas(info, op, es[1..], e, c);
    }
  }

  /** Both offsets of every bound of a slice expression. */
  lemma {:induction false} FindsBounds(info: Info, same: (int, int) -> bool, ns: seq<Node>, s: Expr, e: Expr,
                                       m: MutText)
    requires NodeE(s) in ns && s.Slice? && e in s.bounds && ExprId(e).Some? && info.ok(SliceRange, e.id)
    requires m == PlusOne || m == MinusOne
    ensures Cand(e.id, info.pos(SliceRange, e.id), m) in Find(info, same, SliceRange, ns)
  {
    var pos := info.pos(SliceRange, e.id);
    assert Offsets(e.id, pos)[0] == Cand(e.id, pos, PlusOne) && Offsets(e.id, pos)[1] == Cand(e.id, pos, MinusOne);
    CollectHas(info, SliceRange, s.bounds, e, Cand(e.id, pos, m));
    FindHas(info, same, SliceRange, ns, NodeE(s), Cand(e.id, pos, m));
  }

  /** Every error returned, but for a literal nil. */
  lemma {:induction false} FindsErrors(info: Info, same: (int, int) -> bool, ns: seq<Node>, es: seq<Expr>, e: Expr)
    requires NodeS(Return(es)) in ns && e in es && ExprId(e).Some? && info.ty(e.id) == TError
    requires !(e.Lit? && e.v == NilV)
    ensures Cand(e.id, info.pos(ErrReturnNil, e.id), NilText) in Find(info, same, ErrReturnNil, ns)
  {
    var c := Cand(e.id, info.pos(ErrReturnNil, e.id), NilText);
    CollectHas(info, ErrReturnNil, es, e, c);
    FindHas(info, same, ErrReturnNil, ns, NodeS(Return(es)), c);
  }

  /** Every value returned or put in a struct's field whose type is the
      predeclared int, string or bool or has nil, unless another operator owns
      its shape.  The text is of its type. */
  lemma {:induction false} FindsValues(info: Info, same: (int, int) -> bool, ns: seq<Node>, n: Node, e: Expr)
    requires n in ns && (e.Var? || e.Index? || e.Slice? || e.Call? || e.Composite?)
    requires (n.NodeS? && n.s.Return? && e in n.s.results) || (n.NodeE? && n.e.Composite? && e in n.e.vals)
    ensures var op, ty := if n.NodeS? then ReturnZero else StructFieldZero, info.ty(e.id);
            var pos, found := info.pos(op, e.id), Find(info, same, op, ns);
            info.ok(op, e.id) ==>
              && (ty == TInt(PlainInt, true) ==> Cand(e.id, pos, IntText(0)) in found)
              && (ty == TBool(true) ==> Cand(e.id, pos, BoolText(false)) in found)
              && (ty == TString ==> Cand(e.id, pos, EmptyText) in found)
              && (ty == TNilable ==> Cand(e.id, pos, NilText) in found)
  {
    var op := if n.NodeS? then ReturnZero else StructFieldZero;
    forall c | c in ZeroCands(info, op, e)
      ensures c in Find(info, same, op, ns)
    {
      CollectHas(info, op, if n.NodeS? then n.s.results else n.e.vals, e, c);
      FindHas(info, same, op, ns, n, c);
    }
  }

  /** Removable calls and sends, increments and compound assignments. */
  lemma {:induction false} FindsStatements(info: Info, same: (int, int) -> bool, ns: seq<Node>, s: Stmt)
    requires NodeS(s) in ns
    ensures s.CallStmt? && info.ok(CallDelete, s.id) ==>
              Cand(s.id, info.pos(CallDelete, s.id), EmptyText) in Find(info, same, CallDelete, ns)
    ensures s.Send? ==> Cand(s.id, info.pos(ChanOp, s.id), EmptyText) in Find(info, same, ChanOp, ns)
    ensures s.IncDec? && info.ok(IncDecSwap, s.id) ==>
              Cand(s.id, info.pos(IncDecSwap, s.id), IncText(!s.inc)) in Find(info, same, IncDecSwap, ns)
    ensures s.Compound? && s.op in {Add, Sub, Mul, Quo, Rem} && info.ok(IntCompoundAssign, s.id) ==>
              var m := match s.op case Add => Sub case Sub => Add case Mul => Quo case _ => Mul;
              Cand(s.id, info.pos(IntCompoundAssign, s.id), OpText(m)) in Find(info, same, IntCompoundAssign, ns)
    ensures s.Compound? && s.op in {And, Or, Xor, Shl, Shr, AndNot} && info.ok(IntCompoundAssign, s.id) ==>
              var m := match s.op case And => Or case Shl => Shr case Shr => Shl case _ => And;
              Cand(s.id, info.pos(IntCompoundAssign, s.id), OpText(m)) in Find(info, same, IntCompoundAssign, ns)
  {
    var ops := [CallDelete, ChanOp, IncDecSwap, IntCompoundAssign];
    forall op, c | op in ops && c in CandsAtS(info, same, op, s)
      ensures c in Find(info, same, op, ns)
    {
      FindHas(info, same, op, ns, NodeS(s), c);
    }
  }

  lemma {:induction false} DropsHave(id: nat, clauses: seq<Clause>, i: nat, k: nat)
    requires i <= k < |clauses| && !clauses[k].dflt
    ensures Cand(id, clauses[k].pos, EmptyText) in DropCands(id, clauses, i) ||
            (k == |clauses| - 1 && clauses[k].body == [] && forall j :: 0 <= j < |clauses| ==> !clauses[j].dflt)
    decreases |clauses| - i
  {
    if i < k {
      DropsHave(id, clauses, i + 1, k);
    } else if clauses[k].body != [] || HasDefault(clauses) || k < |clauses| - 1 {
      assert DropCands(id, clauses, i)[0] == Cand(id, clauses[k].pos, EmptyText);
    }
  }

  lemma {:induction false} SwapsHave(same: (int, int) -> bool, id: nat, clauses: seq<Clause>, i: nat, k: nat)
    requires i <= k && k + 1 < |clauses| && !same(clauses[k].pos, clauses[k + 1].pos)
    ensures Cand(id, clauses[k].pos, SwapText) in SwapCands(same, id, clauses, i)
    decreases |clauses| - i
  {
    var all := SwapCands(same, id, clauses, i);
    if i < k {
      SwapsHave(same, id, clauses, i + 1, k);
      var rest := SwapCands(same, id, clauses, i + 1);
      var first := if same(clauses[i].pos, clauses[i + 1].pos) then [] else [Cand(id, clauses[i].pos, SwapText)];
      assert all == first + rest;
    } else {
      assert all[0] == Cand(id, clauses[k].pos, SwapText);
    }
  }

  /** A drop of every case clause, but for an empty last one of a switch without
      a default, and a swap of every two neighbours that print differently. */
  lemma {:induction false} FindsSwitch(info: Info, same: (int, int) -> bool, ns: seq<Node>, s: Stmt, k: nat)
    requires NodeS(s) in ns && s.Switch? && info.ok(SwitchCase, s.id) && k < |s.clauses|
    ensures !s.clauses[k].dflt
            && (k < |s.clauses| - 1 || s.clauses[k].body != []
                || exists j :: 0 <= j < |s.clauses| && s.clauses[j].dflt) ==>
              Cand(s.id, s.clauses[k].pos, EmptyText) in Find(info, same, SwitchCase, ns)
    ensures k + 1 < |s.clauses| && !same(s.clauses[k].pos, s.clauses[k + 1].pos) ==>
              Cand(s.id, s.clauses[k].pos, SwapText) in Find(info, same, SwitchCase, ns)
  {
    forall c | c in CandsAtS(info, same, SwitchCase, s)
      ensures c in Find(info, same, SwitchCase, ns)
    {
      FindHas(info, same, SwitchCase, ns, NodeS(s), c);
    }
    if !s.clauses[k].dflt {
      DropsHave(s.id, s.clauses, 0, k);
    }
    if k + 1 < |s.clauses| && !same(s.clauses[k].pos, s.clauses[k + 1].pos) {
      SwapsHave(same, s.id, s.clauses, 0, k);
    }
  }

  // ----- The whole package -----

  lemma {:induction false} OfOperFrom(ss: seq<Numbering.Site>, op: Operator, c: Cand) returns (i: nat)
    requires c in OfOper(ss, op)
    ensures i < |ss| && ss[i].oper == op && ss[i].cand == c
  {
    var n := |ss| - 1;
    if ss[n].oper == op && ss[n].cand == c {
      i := n;
    } else {
      i := OfOperFrom(ss[..n], op, c);
    }
  }

  lemma {:induction false} FindGrows(info: Info, same: (int, int) -> bool, op: Operator, a: seq<Node>, b: seq<Node>,
                                     c: Cand)
    requires (forall n :: n in a ==> n in b) && c in Find(info, same, op, a)
    ensures c in Find(info, same, op, b)
  {
    if c in CandsAt(info, same, op, a[0]) {
      FindHas(info, same, op, b, a[0], c);
    } else {
      assert forall n :: n in a[1..] ==> n in a;
      FindGrows(info, same, op, a[1..], b, c);
    }
  }

  lemma {:induction false} SearchedHas(pk: Package, files: seq<File>, k: nat)
    requires k < |files| && !files[k].generated
    ensures forall n :: n in FileNodes(pk, files[k]) ==> n in SearchedNodes(pk, files)
  {
    if k < |files| - 1 {
      SearchedHas(pk, files[..|files| - 1], k);
    }
  }

  lemma {:induction false} FoundSite(pk: Package, ops: seq<Operator>, op: Operator, k: nat, c: Cand) returns (i: nat)
    requires Distinct(ops) && op in ops && k < |pk.files| && !pk.files[k].generated
    requires c in Find(pk.info, pk.same, op, FileNodes(pk, pk.files[k]))
    ensures i < |Candidates(pk, ops)| && Candidates(pk, ops)[i].oper == op && Candidates(pk, ops)[i].cand == c
  {
    assert FoundAll(pk, ops) == FoundUpTo(pk, ops, pk.files);
    PackageOper(pk, ops, op, pk.files);
    SearchedHas(pk, pk.files, k);
    FindGrows(pk.info, pk.same, op, FileNodes(pk, pk.files[k]), SearchedNodes(pk, pk.files), c);
    i := OfOperFrom(Candidates(pk, ops), op, c);
  }

  lemma {:induction false} SiteRecorded(pk: Package, ops: seq<Operator>, o: Numbering.Options, h: Numbering.Hash,
                                        i: nat) returns (m: Mutation)
    requires o.filter == None && o.operators == None && o.accepted == {}
    requires i < |Candidates(pk, ops)| && !Candidates(pk, ops)[i].at.ignored
    ensures var s := Candidates(pk, ops)[i];
            m in Emits(pk, ops, o, h) && m == Mutation(i + 1, s.oper, s.cand.node, s.cand.pos, s.cand.mutant)
  {
    var ss := Candidates(pk, ops);
    Numbering.RecordedIff(o, h, ss, i);
    var es := Numbering.Emitted(o, h, ss);
    var r :| r in es && r.m.id == i + 1;
    var j :| 0 <= j < |es| && es[j] == r;
    m := r.m;
    assert MutationsOf(es)[j] == m;
  }

  /** What a registered operator finds in a file that is not generated becomes
      a candidate of the package, and with nothing filtered or suppressed a
      recorded mutation. */
  lemma {:induction false} FoundIsRecorded(pk: Package, ops: seq<Operator>, o: Numbering.Options, h: Numbering.Hash,
                                           op: Operator, k: nat, c: Cand)
    requires Distinct(ops) && op in ops && k < |pk.files| && !pk.files[k].generated
    requires c in Find(pk.info, pk.same, op, FileNodes(pk, pk.files[k]))
    ensures exists i: nat :: i < |Candidates(pk, ops)| && Candidates(pk, ops)[i].oper == op
                             && Candidates(pk, ops)[i].cand == c
    ensures o.filter == None && o.operators == None && o.accepted == {}
            && (forall i :: 0 <= i < |Candidates(pk, ops)| ==> !Candidates(pk, ops)[i].at.ignored) ==>
              exists m :: m in Emits(pk, ops, o, h) && m.oper == op && m.node == c.node && m.pos == c.pos
                          && m.mutant == c.mutant
  {
    var i := FoundSite(pk, ops, op, k, c);
    if o.filter == None && o.operators == None && o.accepted == {}
       && forall i :: 0 <= i < |Candidates(pk, ops)| ==> !Candidates(pk, ops)[i].at.ignored {
      var m := SiteRecorded(pk, ops, o, h, i);
    }
  }

  lemma {:induction false} SearchedFrom(pk: Package, files: seq<File>, op: Operator, c: Cand) returns (k: nat)
    requires c in Find(pk.info, pk.same, op, SearchedNodes(pk, files))
    ensures k < |files| && !files[k].generated && c in Find(pk.info, pk.same, op, FileNodes(pk, files[k]))
  {
    var init, last := files[..|files| - 1], files[|files| - 1];
    FindConcat(pk.info, pk.same, op, SearchedNodes(pk, init), if last.generated then [] else FileNodes(pk, last));
    if c in Find(pk.info, pk.same, op, SearchedNodes(pk, init)) {
      k := SearchedFrom(pk, init, op, c);
    } else {
      k := |files| - 1;
    }
  }

  lemma {:induction false} RecordedSite(pk: Package, ops: seq<Operator>, o: Numbering.Options, h: Numbering.Hash,
                                        m: Mutation) returns (i: nat)
    requires m in Emits(pk, ops, o, h)
    ensures i < |Candidates(pk, ops)| && Candidates(pk, ops)[i].oper == m.oper
    ensures Candidates(pk, ops)[i].cand == Cand(m.node, m.pos, m.mutant)
  {
    var ss, es := Candidates(pk, ops), Numbering.Emitted(o, h, Candidates(pk, ops));
    Numbering.EmittedFrom(o, h, ss);
    var j :| 0 <= j < |es| && es[j].m == m;
    assert Numbering.IsCandidate(ss, es[j].m);
    i := m.id - 1;
  }

  lemma {:induction false} SiteOper(pk: Package, ops: seq<Operator>, i: nat)
    requires Distinct(ops) && i < |Candidates(pk, ops)|
    ensures var s := Candidates(pk, ops)[i];
            s.oper in ops && s.cand in Find(pk.info, pk.same, s.oper, SearchedNodes(pk, pk.files))
  {
    var ss := Candidates(pk, ops);
    assert FoundAll(pk, ops) == FoundUpTo(pk, ops, pk.files);
    OpsComplete(pk, ops, pk.files);
    assert ss[i] in ss;
    PackageOper(pk, ops, ss[i].oper, pk.files);
    var n := OfOperAt(ss, ss[i].oper, i);
  }

  /** Conversely, every recorded mutation was found by its own, registered
      operator in a file that is not generated. */
  lemma {:induction false} RecordedIsFound(pk: Package, ops: seq<Operator>, o: Numbering.Options, h: Numbering.Hash,
                                           m: Mutation) returns (k: nat)
    requires Distinct(ops) && m in Emits(pk, ops, o, h)
    ensures m.oper in ops && k < |pk.files| && !pk.files[k].generated
    ensures Cand(m.node, m.pos, m.mutant) in Find(pk.info, pk.same, m.oper, FileNodes(pk, pk.files[k]))
  {
    var i := RecordedSite(pk, ops, o, h, m);
    SiteOper(pk, ops, i);
    k := SearchedFrom(pk, pk.files, m.oper, Candidates(pk, ops)[i].cand);
  }
}
