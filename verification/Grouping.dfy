/** Grouping: candidates of one dispatcher key on one node share a call site,
    and the groups on a node are ordered so that their rewrites compose. */
module Grouping {
  import opened Seqs
  import opened Mutations
  import opened Schema
  import opened Fits

  function CandOf(m: Mutation): Cand { Cand(m.node, m.pos, m.mutant) }

  function KeyIndex(gs: seq<Group>, key: Key): (i: nat)
    ensures i <= |gs|
    ensures i < |gs| ==> gs[i].key == key
    ensures forall j :: 0 <= j < i ==> gs[j].key != key
  {
    if gs == [] || gs[0].key == key then 0 else 1 + KeyIndex(gs[1..], key)
  }

  /** A mutation joins the group of its key, or starts one after the others. */
  function AddTo(gs: seq<Group>, m: Mutation): seq<Group> {
    var key := KeyOf(m.oper);
    var i := KeyIndex(gs, key);
    if i < |gs| then gs[i := Group(key, gs[i].ids + [m.id], gs[i].cands + [CandOf(m)])]
    else gs + [Group(key, [m.id], [CandOf(m)])]
  }

  /** The groups on node n, in first-seen order. */
  function GroupsOn(ms: seq<Mutation>, n: nat): seq<Group> {
    if ms == [] then []
    else
      var gs, m := GroupsOn(ms[..|ms| - 1], n), ms[|ms| - 1];
      if m.node == n then AddTo(gs, m) else gs
  }

  function Select(gs: seq<Group>, wrappers: bool): seq<Group> {
    if gs == [] then []
    else (if IsWrapper(gs[0].key) == wrappers then [gs[0]] else []) + Select(gs[1..], wrappers)
  }

  /** The stable sort that puts shape-specific rewrites before wrappers. */
  function Ordered(gs: seq<Group>): seq<Group> {
    Select(gs, false) + Select(gs, true)
  }

  /** Two shape-specific rewrites on one node cannot compose. */
  predicate Refused(gs: seq<Group>) {
    |Ordered(gs)| > 1 && !IsWrapper(Ordered(gs)[1].key)
  }

  function NodesOf(ms: seq<Mutation>): set<nat> {
    set m | m in ms :: m.node
  }

  function GroupMap(ms: seq<Mutation>): Groups {
    map n | n in NodesOf(ms) :: Ordered(GroupsOn(ms, n))
  }

  method GroupEntries(ms: seq<Mutation>) returns (nodeGroups: Groups)
    ensures nodeGroups.Keys == NodesOf(ms)
    ensures forall n :: n in nodeGroups ==> nodeGroups[n] == GroupsOn(ms, n)
  {
    nodeGroups := map[];
    for i := 0 to |ms|
      invariant nodeGroups.Keys == NodesOf(ms[..i])
      invariant forall n :: (if n in nodeGroups then nodeGroups[n] else []) == GroupsOn(ms[..i], n)
    {
      var m := ms[i];
      assert ms[..i + 1][..i] == ms[..i];
      assert forall x :: x in ms[..i + 1] <==> x in ms[..i] || x == m;
      var gs := if m.node in nodeGroups then nodeGroups[m.node] else [];
      nodeGroups := nodeGroups[m.node := AddTo(gs, m)];
    }
    assert ms[..|ms|] == ms;
  }

  /** The source's loops: group every entry, then order each node's groups and
      refuse a node with two shape-specific ones. */
  method GroupAll(ms: seq<Mutation>) returns (r: Option<Groups>)
    ensures r.None? <==> exists n :: n in NodesOf(ms) && Refused(GroupsOn(ms, n))
    ensures r.Some? ==> r.value == GroupMap(ms)
  {
    var nodeGroups := GroupEntries(ms);
    var todo := nodeGroups.Keys;
    var ordered: Groups := map[];
    while todo != {}
      invariant todo <= nodeGroups.Keys
      invariant ordered.Keys == nodeGroups.Keys - todo
      invariant forall n :: n in ordered ==> ordered[n] == Ordered(GroupsOn(ms, n)) && !Refused(GroupsOn(ms, n))
      decreases todo
    {
      var n :| n in todo;
      assert nodeGroups[n] == GroupsOn(ms, n);
      var gs := Ordered(nodeGroups[n]);
      if |gs| > 1 && !IsWrapper(gs[1].key) {
        assert Refused(GroupsOn(ms, n));
        return None;
      }
      ordered := ordered[n := gs];
      todo := todo - {n};
    }
    assert ordered == GroupMap(ms);
    return Some(ordered);
  }

  // ----- What the groups are -----

  /** The mutations of one key on one node. */
  function OfKey(ms: seq<Mutation>, n: nat, key: Key): seq<Mutation> {
    if ms == [] then []
    else
      var m := ms[|ms| - 1];
      OfKey(ms[..|ms| - 1], n, key) + (if m.node == n && KeyOf(m.oper) == key then [m] else [])
  }

  function IdsOf(ms: seq<Mutation>): seq<int> {
    seq(|ms|, i requires 0 <= i < |ms| => ms[i].id)
  }

  function CandsOf(ms: seq<Mutation>): seq<Cand> {
    seq(|ms|, i requires 0 <= i < |ms| => CandOf(ms[i]))
  }

  ghost predicate GroupIs(ms: seq<Mutation>, n: nat, g: Group) {
    var sub := OfKey(ms, n, g.key);
    sub != [] && g.ids == IdsOf(sub) && g.cands == CandsOf(sub)
  }

  ghost predicate KeysDistinct(gs: seq<Group>) {
    forall i, j :: 0 <= i < j < |gs| ==> gs[i].key != gs[j].key
  }

  /** The groups on a node are its mutations, partitioned by key. */
  ghost predicate Partition(ms: seq<Mutation>, n: nat, gs: seq<Group>) {
    && (forall g :: g in gs ==> GroupIs(ms, n, g))
    && KeysDistinct(gs)
    && (forall key :: OfKey(ms, n, key) != [] ==> exists g :: g in gs && g.key == key)
  }

  lemma OfKeySnoc(ms: seq<Mutation>, m: Mutation, n: nat, key: Key)
    ensures OfKey(ms + [m], n, key) == OfKey(ms, n, key) + (if m.node == n && KeyOf(m.oper) == key then [m] else [])
  {
    assert (ms + [m])[..|ms|] == ms;
  }

  lemma ListsSnoc(sub: seq<Mutation>, m: Mutation)
    ensures IdsOf(sub + [m]) == IdsOf(sub) + [m.id] && CandsOf(sub + [m]) == CandsOf(sub) + [CandOf(m)]
  {
  }

  lemma AddToKeeps(ms: seq<Mutation>, n: nat, gs: seq<Group>, m: Mutation)
    requires Partition(ms, n, gs) && m.node == n
    ensures Partition(ms + [m], n, AddTo(gs, m))
  {
    var all, key := ms + [m], KeyOf(m.oper);
    var i, gs' := KeyIndex(gs, key), AddTo(gs, m);
    forall g | g in gs'
      ensures GroupIs(all, n, g)
    {
      var k :| 0 <= k < |gs'| && gs'[k] == g;
      OfKeySnoc(ms, m, n, g.key);
      if k == i {
        ListsSnoc(OfKey(ms, n, key), m);
        if i < |gs| {
          assert GroupIs(ms, n, gs[i]);
        } else {
          assert OfKey(ms, n, key) == [];
        }
      } else {
        assert GroupIs(ms, n, gs[k]);
      }
    }
    forall k | OfKey(all, n, k) != []
      ensures exists g :: g in gs' && g.key == k
    {
      OfKeySnoc(ms, m, n, k);
      if k == key {
        assert gs'[i] in gs';
      } else {
        assert OfKey(ms, n, k) != [];
        var g0 :| g0 in gs && g0.key == k;
        var j :| 0 <= j < |gs| && gs[j] == g0;
        assert gs'[j] == g0;
      }
    }
  }

  lemma SkipKeeps(ms: seq<Mutation>, n: nat, gs: seq<Group>, m: Mutation)
    requires Partition(ms, n, gs) && m.node != n
    ensures Partition(ms + [m], n, gs)
  {
    forall key {
      OfKeySnoc(ms, m, n, key);
    }
  }

  lemma {:induction false} GroupsPartition(ms: seq<Mutation>, n: nat)
    ensures Partition(ms, n, GroupsOn(ms, n))
  {
    if ms != [] {
      var init, m := ms[..|ms| - 1], ms[|ms| - 1];
      GroupsPartition(init, n);
      assert ms == init + [m];
      if m.node == n {
        AddToKeeps(init, n, GroupsOn(init, n), m);
      } else {
        SkipKeeps(init, n, GroupsOn(init, n), m);
      }
    }
  }

  // ----- Ordering -----

  lemma {:induction false} SelectSpec(gs: seq<Group>, w: bool)
    requires KeysDistinct(gs)
    ensures forall g :: g in Select(gs, w) <==> g in gs && IsWrapper(g.key) == w
    ensures KeysDistinct(Select(gs, w))
  {
    if gs != [] {
      SelectSpec(gs[1..], w);
      assert gs == [gs[0]] + gs[1..];
      var rest := Select(gs[1..], w);
      assert forall g :: g in rest ==> g.key != gs[0].key;
    }
  }

  /** The sort is stable: groups of one kind keep their order. */
  lemma {:induction false} SelectStable(a: seq<Group>, b: seq<Group>, w: bool)
    ensures Select(a + b, w) == Select(a, w) + Select(b, w)
    decreases |a|
  {
    if a == [] {
      assert a + b == b;
    } else {
      assert (a + b)[1..] == a[1..] + b && (a + b)[0] == a[0];
      SelectStable(a[1..], b, w);
      Assoc(if IsWrapper(a[0].key) == w then [a[0]] else [], Select(a[1..], w), Select(b, w));
    }
  }

  lemma OrderedMembers(gs: seq<Group>)
    requires KeysDistinct(gs)
    ensures forall g :: g in Ordered(gs) <==> g in gs
    ensures KeysDistinct(Ordered(gs))
  {
    SelectSpec(gs, false);
    SelectSpec(gs, true);
    var a, b := Select(gs, false), Select(gs, true);
    forall i, j | 0 <= i < |a| && 0 <= j < |b|
      ensures a[i].key != b[j].key
    {
      assert a[i] in a && b[j] in b;
    }
  }

  lemma OrderedAt(gs: seq<Group>, i: nat)
    requires KeysDistinct(gs) && i < |Ordered(gs)|
    ensures IsWrapper(Ordered(gs)[i].key) <==> i >= |Select(gs, false)|
  {
    SelectSpec(gs, false);
    SelectSpec(gs, true);
    var a, b := Select(gs, false), Select(gs, true);
    if i < |a| {
      assert Ordered(gs)[i] == a[i] && a[i] in a;
    } else {
      assert Ordered(gs)[i] == b[i - |a|] && b[i - |a|] in b;
    }
  }

  lemma OrderedShape(gs: seq<Group>)
    requires KeysDistinct(gs)
    ensures Refused(gs) <==> |Select(gs, false)| > 1
    ensures !Refused(gs) ==> Stacked(Ordered(gs))
  {
    OrderedMembers(gs);
    if |Ordered(gs)| > 1 {
      OrderedAt(gs, 1);
    }
    forall i | 0 < i < |Ordered(gs)|
      ensures !Refused(gs) ==> IsWrapper(Ordered(gs)[i].key)
    {
      OrderedAt(gs, i);
    }
  }

  lemma OrderedPartition(ms: seq<Mutation>, n: nat, gs: seq<Group>)
    requires Partition(ms, n, gs)
    ensures Partition(ms, n, Ordered(gs))
  {
    OrderedMembers(gs);
    forall key | OfKey(ms, n, key) != []
      ensures exists g :: g in Ordered(gs) && g.key == key
    {
      var g :| g in gs && g.key == key;
      assert g in Ordered(gs);
    }
  }

  ghost predicate TwoShapes(ms: seq<Mutation>, n: nat, k1: Key, k2: Key) {
    k1 != k2 && !IsWrapper(k1) && !IsWrapper(k2) && OfKey(ms, n, k1) != [] && OfKey(ms, n, k2) != []
  }

  /** The rewrite is refused exactly when some node has mutations of two
      different shape-specific keys. */
  lemma RefusedIff(ms: seq<Mutation>, n: nat)
    ensures Refused(GroupsOn(ms, n)) <==> exists k1, k2 :: TwoShapes(ms, n, k1, k2)
  {
    var gs := GroupsOn(ms, n);
    GroupsPartition(ms, n);
    OrderedShape(gs);
    SelectSpec(gs, false);
    var a := Select(gs, false);
    if |a| > 1 {
      assert a[0] in a && a[1] in a;
      assert TwoShapes(ms, n, a[0].key, a[1].key);
    }
    forall k1, k2 | TwoShapes(ms, n, k1, k2)
      ensures |a| > 1
    {
      var g1 :| g1 in gs && g1.key == k1;
      var g2 :| g2 in gs && g2.key == k2;
      assert g1 in a && g2 in a;
      var i1 :| 0 <= i1 < |a| && a[i1] == g1;
      var i2 :| 0 <= i2 < |a| && a[i2] == g2;
      assert i1 != i2;
    }
  }

  /** A group holds exactly its node's mutations of its key. */
  lemma {:induction false} OfKeyMembers(ms: seq<Mutation>, n: nat, key: Key)
    ensures forall m :: m in OfKey(ms, n, key) <==> m in ms && m.node == n && KeyOf(m.oper) == key
  {
    if ms != [] {
      var init, m := ms[..|ms| - 1], ms[|ms| - 1];
      assert ms == init + [m];
      OfKeyMembers(init, n, key);
    }
  }

  ghost predicate IdsDistinct(ms: seq<Mutation>) {
    forall i, j :: 0 <= i < j < |ms| ==> ms[i].id != ms[j].id
  }

  lemma {:induction false} OfKeyDistinct(ms: seq<Mutation>, n: nat, key: Key)
    requires IdsDistinct(ms)
    ensures IdsDistinct(OfKey(ms, n, key)) && Distinct(IdsOf(OfKey(ms, n, key)))
  {
    if ms != [] {
      var init, m := ms[..|ms| - 1], ms[|ms| - 1];
      OfKeyDistinct(init, n, key);
      OfKeyMembers(init, n, key);
      var before, sub := OfKey(init, n, key), OfKey(ms, n, key);
      forall i | 0 <= i < |before|
        ensures before[i].id != m.id
      {
        assert before[i] in before;
        var j :| 0 <= j < |init| && init[j] == before[i];
        assert ms[j].id != ms[|init|].id;
      }
      assert forall i :: 0 <= i < |before| ==> sub[i] == before[i];
    }
  }

  // ----- File by file -----

  lemma {:induction false} GroupsBefore(a: seq<Mutation>, b: seq<Mutation>, n: nat)
    requires n !in NodesOf(b)
    ensures GroupsOn(a + b, n) == GroupsOn(a, n)
    decreases |b|
  {
    if b == [] {
      assert a + b == a;
    } else {
      var init := b[..|b| - 1];
      assert (a + b)[..|a + b| - 1] == a + init;
      assert forall m :: m in init ==> m in b;
      assert b[|b| - 1] in b;
      GroupsBefore(a, init, n);
    }
  }

  lemma {:induction false} GroupsAfter(a: seq<Mutation>, b: seq<Mutation>, n: nat)
    requires n !in NodesOf(a)
    ensures GroupsOn(a + b, n) == GroupsOn(b, n)
    decreases |b|
  {
    if b == [] {
      GroupsBefore([], a, n);
      assert a + b == a && [] + a == a;
    } else {
      assert (a + b)[..|a + b| - 1] == a + b[..|b| - 1];
      GroupsAfter(a, b[..|b| - 1], n);
    }
  }

  /** No group spans two files, so grouping and refusing file by file is
      grouping and refusing them together. */
  lemma {:induction false} GroupsByFile(a: seq<Mutation>, b: seq<Mutation>)
    requires NodesOf(a) !! NodesOf(b)
    ensures GroupMap(a + b) == GroupMap(a) + GroupMap(b)
    ensures forall n :: n in NodesOf(a + b) ==>
              Refused(GroupsOn(a + b, n)) == Refused(GroupsOn(if n in NodesOf(a) then a else b, n))
  {
    assert NodesOf(a + b) == NodesOf(a) + NodesOf(b);
    forall n | n in NodesOf(a + b)
      ensures GroupsOn(a + b, n) == GroupsOn(if n in NodesOf(a) then a else b, n)
    {
      if n in NodesOf(a) {
        GroupsBefore(a, b, n);
      } else {
        GroupsAfter(a, b, n);
      }
    }
  }
}
