/** Every mutation that the rewriter records can be activated: its ID is in the
    rewritten program, in a call of its own dispatcher. */
module PlacementTheorems {
  import opened Seqs
  import opened Syntax
  import opened Mutations
  import opened Operators
  import opened Schema
  import opened Fits
  import Numbering
  import opened Grouping
  import opened Rewriter
  import opened Emission
  import opened Placement

  lemma {:induction false} InSomeFunction(pk: Package, fs: seq<string>, n: Node) returns (f: string)
    requires n in NodesOfFuncs(pk.prog, fs)
    ensures f in pk.prog && n in NodesSs(pk.prog[f].body)
  {
    if fs[0] in pk.prog && n in NodesSs(pk.prog[fs[0]].body) {
      f := fs[0];
    } else {
      f := InSomeFunction(pk, fs[1..], n);
    }
  }

  lemma {:induction false} InSomeFile(pk: Package, files: seq<File>, n: Node) returns (f: string)
    requires n in PackageNodes(pk, files)
    ensures f in pk.prog && n in NodesSs(pk.prog[f].body)
  {
    if n in FileNodes(pk, files[|files| - 1]) {
      f := InSomeFunction(pk, files[|files| - 1].funcs, n);
    } else {
      f := InSomeFile(pk, files[..|files| - 1], n);
    }
  }

  /** A default clause is never dropped. */
  lemma {:induction false} DropNotDefault(id: nat, cs: seq<Clause>, i: nat, c: Cand) returns (k: nat)
    requires i <= |cs| && c in DropCands(id, cs, i)
    ensures k < |cs| && cs[k].pos == c.pos && !cs[k].dflt
    decreases |cs| - i
  {
    if c in DropCands(id, cs, i + 1) {
      k := DropNotDefault(id, cs, i + 1, c);
    } else {
      k := i;
    }
  }

  lemma DropsCaseHolds(pk: Package, m: Mutation, n: Node)
    requires WellFormed(pk) && n in PackageNodes(pk, pk.files) && CandFor(pk.info, pk.same, m.oper, CandOf(m), n)
    ensures DropsCase(m, n)
  {
    PackageSwitchesOk(pk, pk.files);
    if n.NodeS? && n.s.Switch? && n.s.clauses != [] && !m.mutant.SwapText? {
      var cs, c := n.s.clauses, CandOf(m);
      if c in DropCands(n.s.id, cs, 0) {
        var k := DropNotDefault(n.s.id, cs, 0, c);
        IndexAt(cs, k);
      } else {
        var _ := SwapFrom(pk.same, n.s.id, cs, 0, c);
      }
    }
  }

  lemma OwnGroup(pk: Package, ms: seq<Mutation>, m: Mutation)
    requires WellFormed(pk) && Sound(pk, ms) && m in ms
    ensures m.node in GroupMap(ms) && HasOwn(Aim(pk.info, GroupMap(ms), m), GroupMap(ms)[m.node])
  {
    var x := Aim(pk.info, GroupMap(ms), m);
    assert m.node in NodesOf(ms);
    GroupsAt(pk, ms, m.node);
    OfKeyMembers(ms, m.node, KeyOf(m.oper));
    assert m in OfKey(ms, m.node, KeyOf(m.oper));
    var gs := GroupMap(ms)[m.node];
    var g :| g in gs && g.key == KeyOf(m.oper);
    var i :| 0 <= i < |gs| && gs[i] == g;
    var j := GroupHas(ms, m.node, g, m);
    var m' := GroupMember(ms, m.node, g, j);
    SameId(ms, m, m');
    assert OwnAt(x, gs[i], j);
  }

  lemma NodeFitsHere(pk: Package, ms: seq<Mutation>, m: Mutation, n: Node)
    requires WellFormed(pk) && Sound(pk, ms) && m in ms && n in PackageNodes(pk, pk.files) && SwitchesOk([n])
    ensures NodeFits(Aim(pk.info, GroupMap(ms), m), n)
  {
    OwnGroup(pk, ms, m);
    if NodeId(n).Some? && NodeId(n).value in GroupMap(ms) {
      var id := NodeId(n).value;
      var gs := GroupMap(ms)[id];
      GroupsAt(pk, ms, id);
      forall i | 0 <= i < |gs|
        ensures |gs[i].cands| == |gs[i].ids|
        ensures n.NodeE? ==> FitsE(gs[i], n.e)
      {
        assert gs[i] in gs;
        if n.NodeE? {
          ExprFits(pk, ms, n.e, id, gs[i]);
        }
      }
      if n.NodeL? {
        LhsHolds(pk, ms, n, id);
      } else if n.NodeS? {
        StmtHolds(pk, ms, n.s, id);
      }
    }
  }

  lemma MutantInProgram(pk: Package, ms: seq<Mutation>, m: Mutation)
    requires WellFormed(pk) && Sound(pk, ms) && m in ms
    ensures InProg(Holding(KeyOf(m.oper), m.id), RwProg(pk.info, GroupMap(ms), pk.prog))
  {
    var x := Aim(pk.info, GroupMap(ms), m);
    var n :| n in PackageNodes(pk, pk.files) && CandFor(pk.info, pk.same, m.oper, CandOf(m), n);
    DropsCaseHolds(pk, m, n);
    var f := InSomeFile(pk, pk.files, n);
    var ns := NodesSs(pk.prog[f].body);
    AllNodes(pk, f);
    SwitchesOkSs(pk.prog[f].body);
    forall k | k in ns
      ensures NodeFits(x, k)
    {
      assert SwitchesOk([k]);
      NodeFitsHere(pk, ms, m, k);
    }
    assert Targets(x, ns);
    PlacedInProgram(x, pk.prog, f);
  }

  lemma {:induction false} NoneRefused(pk: Package, ms: seq<Mutation>)
    requires WellFormed(pk) && Sound(pk, ms)
    ensures forall n :: !Refused(GroupsOn(ms, n))
  {
    forall n: nat
      ensures !Refused(GroupsOn(ms, n))
    {
      NeverRefused(pk, ms, n);
    }
  }

  lemma {:induction false} GroupPlaced(pk: Package, ms: seq<Mutation>, m: Mutation)
    requires WellFormed(pk) && Sound(pk, ms) && m in ms
    ensures m.node in GroupMap(ms) && Stacked(GroupMap(ms)[m.node])
    ensures exists g :: g in GroupMap(ms)[m.node] && g.key == KeyOf(m.oper) && m.id in g.ids
  {
    assert m.node in NodesOf(ms);
    GroupsAt(pk, ms, m.node);
    OfKeyMembers(ms, m.node, KeyOf(m.oper));
    assert m in OfKey(ms, m.node, KeyOf(m.oper));
    var g :| g in GroupMap(ms)[m.node] && g.key == KeyOf(m.oper);
    var j := GroupHas(ms, m.node, g, m);
  }

  /** The rewriter's error never occurs, each recorded mutation's group is on
      its own node, and its ID stands in a call of its dispatcher in the
      rewritten program. */
  lemma {:induction false} EveryMutantPlaced(pk: Package, ops: seq<Operator>, o: Numbering.Options, h: Numbering.Hash,
                                             m: Mutation)
    requires WellFormed(pk) && Distinct(ops) && m in Emits(pk, ops, o, h)
    ensures var ms := Emits(pk, ops, o, h);
            && (forall n :: !Refused(GroupsOn(ms, n)))
            && m.node in GroupMap(ms) && Stacked(GroupMap(ms)[m.node])
            && (exists g :: g in GroupMap(ms)[m.node] && g.key == KeyOf(m.oper) && m.id in g.ids)
            && InProg(Holding(KeyOf(m.oper), m.id), RwProg(pk.info, GroupMap(ms), pk.prog))
  {
    var ms := Emits(pk, ops, o, h);
    EmittedSound(pk, ops, o, h);
    NoneRefused(pk, ms);
    GroupPlaced(pk, ms, m);
    MutantInProgram(pk, ms, m);
  }
}
