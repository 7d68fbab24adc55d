/** The pipeline's theorems: the schema is right for every recorded mutation and
    transparent for every other ID. */
module SchemaTheorems {
  import opened Seqs
  import opened Syntax
  import opened Mutations
  import opened Semantics
  import opened Operators
  import opened Fits
  import opened Schema
  import opened CallSites
  import opened Correctness
  import Numbering
  import opened Grouping
  import opened Rewriter
  import opened Emission

  // ----- A run of the schema -----

  /** The dispatchers' cases, by ID. */
  function Cases(ms: seq<Mutation>): map<int, Mutation> {
    if ms == [] then map[] else Cases(ms[..|ms| - 1])[ms[|ms| - 1].id := ms[|ms| - 1]]
  }

  lemma {:induction false} CasesAre(ms: seq<Mutation>, m: Mutation)
    requires IdsDistinct(ms) && m in ms
    ensures m.id in Cases(ms) && Cases(ms)[m.id] == m
  {
    var init, last := ms[..|ms| - 1], ms[|ms| - 1];
    if m != last {
      var i :| 0 <= i < |ms| && ms[i] == m;
      assert init[i] == m;
      CasesAre(init, m);
    }
  }

  function Run(pk: Package, ms: seq<Mutation>, t: Target, active: int, world: World): Setup {
    Setup(pk.info, GroupMap(ms), t, active, Cases(ms), pk.prog, world)
  }

  /** t is the mutation with the active ID, if the schema has one. */
  ghost predicate Selects(ms: seq<Mutation>, t: Target, active: int) {
    if t.Some? then t.value in ms && t.value.id == active else forall m :: m in ms ==> m.id != active
  }

  lemma SiteHolds(pk: Package, ms: seq<Mutation>, t: Target, active: int, world: World, id: nat, g: Group)
    requires IdsDistinct(ms) && Selects(ms, t, active) && GroupIs(ms, id, g)
    ensures SiteOk(SchemaRun(Run(pk, ms, t, active, world)), t, id, g)
  {
    OfKeyDistinct(ms, id, g.key);
    if active in g.ids {
      var j :| 0 <= j < |g.ids| && g.ids[j] == active;
      var m := GroupMember(ms, id, g, j);
      assert t.Some?;
      SameId(ms, m, t.value);
    }
    if Hit(t, id, g.key) {
      var _ := GroupHas(ms, id, g, t.value);
      CasesAre(ms, t.value);
      forall j | 0 <= j < |g.ids| && g.ids[j] == active
        ensures g.cands[j].pos == t.value.pos && g.cands[j].mutant == t.value.mutant
      {
        var m := GroupMember(ms, id, g, j);
        SameId(ms, m, t.value);
      }
    }
  }

  lemma HitAt(pk: Package, ms: seq<Mutation>, t: Target, active: int, id: nat)
    requires WellFormed(pk) && Sound(pk, ms) && Selects(ms, t, active) && At(t, Some(id))
    ensures id in GroupMap(ms) && AnyHit(t, id, GroupMap(ms)[id])
  {
    var m := t.value;
    assert id in NodesOf(ms);
    GroupsAt(pk, ms, id);
    OfKeyMembers(ms, id, KeyOf(m.oper));
    assert m in OfKey(ms, id, KeyOf(m.oper));
    var gs := GroupMap(ms)[id];
    var g :| g in gs && g.key == KeyOf(m.oper);
    var i :| 0 <= i < |gs| && gs[i] == g;
    assert Hit(t, id, gs[i].key);
  }

  lemma ExprHolds(pk: Package, ms: seq<Mutation>, t: Target, active: int, world: World, e: Expr, id: nat)
    requires WellFormed(pk) && Sound(pk, ms) && Selects(ms, t, active)
    requires NodeE(e) in PackageNodes(pk, pk.files) && ExprId(e) == Some(id) && id in GroupMap(ms)
    ensures SitesOkE(SchemaRun(Run(pk, ms, t, active, world)), pk.info, t, id, GroupMap(ms)[id], e)
  {
    GroupsAt(pk, ms, id);
    var gs := GroupMap(ms)[id];
    forall i | 0 <= i < |gs|
      ensures SiteOk(SchemaRun(Run(pk, ms, t, active, world)), t, id, gs[i]) && FitsE(gs[i], e)
    {
      assert gs[i] in gs;
      SiteHolds(pk, ms, t, active, world, id, gs[i]);
      ExprFits(pk, ms, e, id, gs[i]);
    }
    if At(t, Some(id)) {
      TargetFits(pk, ms, t, NodeE(e));
    }
  }

  /** Every node of the package meets the correctness theorem's conditions. */
  lemma NodeHolds(pk: Package, ms: seq<Mutation>, t: Target, active: int, world: World, n: Node)
    requires WellFormed(pk) && Sound(pk, ms) && Selects(ms, t, active)
    requires n in PackageNodes(pk, pk.files) && SwitchesOk([n])
    ensures NodeOk(Run(pk, ms, t, active, world), n)
  {
    if NodeId(n).Some? {
      var id := NodeId(n).value;
      if At(t, Some(id)) {
        HitAt(pk, ms, t, active, id);
        TargetFits(pk, ms, t, n);
      }
      if id in GroupMap(ms) {
        if n.NodeE? {
          ExprHolds(pk, ms, t, active, world, n.e, id);
        } else {
          GroupsAt(pk, ms, id);
          assert GroupMap(ms)[id][0] in GroupMap(ms)[id];
          SiteHolds(pk, ms, t, active, world, id, GroupMap(ms)[id][0]);
          if n.NodeL? {
            LhsHolds(pk, ms, n, id);
          } else {
            StmtHolds(pk, ms, n.s, id);
          }
        }
      }
    }
  }

  lemma RunOk(pk: Package, ms: seq<Mutation>, t: Target, active: int, world: World)
    requires WellFormed(pk) && Sound(pk, ms) && Selects(ms, t, active)
    ensures ProgOk(Run(pk, ms, t, active, world))
  {
    forall f | f in pk.prog
      ensures AllOk(Run(pk, ms, t, active, world), NodesSs(pk.prog[f].body))
    {
      AllNodes(pk, f);
      SwitchesOkSs(pk.prog[f].body);
      forall n | n in NodesSs(pk.prog[f].body)
        ensures NodeOk(Run(pk, ms, t, active, world), n)
      {
        NodeHolds(pk, ms, t, active, world, n);
      }
    }
  }

  // ----- The theorems -----

  /** The schema, run with ID `active`. */
  function SchemaCtx(pk: Package, ms: seq<Mutation>, active: int, world: World): Ctx {
    Ctx(active, Cases(ms), RwProg(pk.info, GroupMap(ms), pk.prog), world)
  }

  /** The package with the mutation t applied, or the package itself. */
  function PlainCtx(pk: Package, t: Target, world: World): Ctx {
    Ctx(-1, map[], MutProg(pk.info, t, pk.prog), world)
  }

  /** For every recorded mutation, running the schema with its ID active is
      running the program with exactly that mutation: the same result or panic
      and the same trace of reads, writes, calls and channel operations, for
      every function, argument, state, outside world and amount of fuel. */
  lemma ActiveMutantCorrect(pk: Package, ops: seq<Operator>, o: Numbering.Options, h: Numbering.Hash, m: Mutation,
                            world: World, fuel: nat, f: string, vs: seq<Value>, st: State)
    requires WellFormed(pk) && Distinct(ops) && m in Emits(pk, ops, o, h)
    ensures CallFunc(SchemaCtx(pk, Emits(pk, ops, o, h), m.id, world), fuel, f, vs, st)
            == CallFunc(PlainCtx(pk, Some(m), world), fuel, f, vs, st)
  {
    var ms := Emits(pk, ops, o, h);
    EmittedSound(pk, ops, o, h);
    RunOk(pk, ms, Some(m), m.id, world);
    SchemaRunsAsMutant(Run(pk, ms, Some(m), m.id, world), fuel, f, vs, st);
  }

  /** With any other active ID, such as -1 or one that a filter dropped, the
      schema runs as the original program. */
  lemma InactiveTransparent(pk: Package, ops: seq<Operator>, o: Numbering.Options, h: Numbering.Hash, active: int,
                            world: World, fuel: nat, f: string, vs: seq<Value>, st: State)
    requires WellFormed(pk) && Distinct(ops)
    requires forall m :: m in Emits(pk, ops, o, h) ==> m.id != active
    ensures CallFunc(SchemaCtx(pk, Emits(pk, ops, o, h), active, world), fuel, f, vs, st)
            == CallFunc(Ctx(-1, map[], pk.prog, world), fuel, f, vs, st)
  {
    var ms := Emits(pk, ops, o, h);
    EmittedSound(pk, ops, o, h);
    RunOk(pk, ms, None, active, world);
    SchemaRunsAsMutant(Run(pk, ms, None, active, world), fuel, f, vs, st);
    MutNoneProg(pk.info, pk.prog);
  }
}
