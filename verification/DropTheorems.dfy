/** Which drops of a case clause show: for a clause layout, whether some switch
    runs differently without the clause. */
module DropTheorems {
  import opened Seqs
  import opened Syntax
  import opened Mutations
  import opened Semantics
  import opened Operators
  import opened SwapTheorems
  import opened Completeness

  /** The switch's clauses once clause i never matches. */
  function Dropped(clauses: seq<Clause>, i: nat): seq<Clause>
    requires i < |clauses|
  {
    clauses[i := clauses[i].(list := [])]
  }

  /** The case expressions leave state and trace alone. */
  ghost predicate Silent(c: Ctx, fuel: nat, list: seq<Expr>) {
    forall tv, st :: LeavesAlone(MatchList(c, fuel, tv, list, st), st)
  }

  predicate LeavesAlone(r: Out<bool>, st: State) {
    r.Val? && r.st == st
  }

  ghost predicate AllSilent(c: Ctx, fuel: nat, clauses: seq<Clause>) {
    forall j :: 0 <= j < |clauses| ==> Silent(c, fuel, clauses[j].list)
  }

  /** Something runs in clause i, or may run in its place: a later clause or
      the default. */
  predicate Live(clauses: seq<Clause>, i: nat)
    requires i < |clauses|
  {
    clauses[i].body != [] || exists k :: 0 <= k < |clauses| && Replaces(clauses, i, k) && clauses[k].body != []
  }

  predicate Replaces(clauses: seq<Clause>, i: nat, k: nat)
    requires i < |clauses| && k < |clauses|
  {
    k != i && (k > i || clauses[k].dflt)
  }

  // ----- A drop that does not show -----

  lemma {:induction false} SameBodies(c: Ctx, fuel: nat, a: seq<Clause>, b: seq<Clause>, e: int, st: State)
    requires |a| == |b| && forall j :: 0 <= j < |a| ==> a[j].body == b[j].body
    ensures ExecFrom(c, fuel, a, e, st) == ExecFrom(c, fuel, b, e, st)
    decreases if e < 0 || e > |a| then 0 else |a| - e
  {
    if 0 <= e < |a| {
      var r := ExecAll(c, fuel, a[e].body, st);
      if r.Val? && r.v == Fall {
        SameBodies(c, fuel, a, b, e + 1, r.st);
      }
    }
  }

  lemma {:induction false} SameDefault(clauses: seq<Clause>, i: nat, n: nat)
    requires i < |clauses| && n <= |clauses|
    ensures DefaultOf(Dropped(clauses, i), n) == DefaultOf(clauses, n)
  {
    if n > 0 {
      SameDefault(clauses, i, n - 1);
    }
  }

  /** An entry where an empty body, or none, runs. */
  predicate Idle(clauses: seq<Clause>, e: int) {
    0 <= e < |clauses| ==> clauses[e].body == []
  }

  lemma IdleRuns(c: Ctx, fuel: nat, clauses: seq<Clause>, e: int, st: State)
    requires Idle(clauses, e)
    ensures ExecFrom(c, fuel, clauses, e, st) == Val(st, Next)
  {
  }

  /** From clause k > i on, nothing happens but an idle clause may be hit. */
  lemma {:induction false} SelectIdle(c: Ctx, fuel: nat, tv: Option<Value>, clauses: seq<Clause>, i: nat, k: nat,
                                      st: State)
    requires i < k <= |clauses| && !Live(clauses, i) && AllSilent(c, fuel, clauses)
    ensures var r := Select(c, fuel, tv, clauses, k, st);
            r.Val? && r.st == st && (r.v.Some? ==> Idle(clauses, r.v.value))
    decreases |clauses| - k
  {
    if k < |clauses| {
      assert Silent(c, fuel, clauses[k].list);
      var r := MatchList(c, fuel, tv, clauses[k].list, st);
      assert LeavesAlone(r, st);
      if r.v {
        assert Replaces(clauses, i, k);
      } else {
        SelectIdle(c, fuel, tv, clauses, i, k + 1, st);
      }
    }
  }

  lemma {:induction false} SelectLater(c: Ctx, fuel: nat, tv: Option<Value>, clauses: seq<Clause>, i: nat, k: nat,
                                       st: State)
    requires i < k <= |clauses|
    ensures Select(c, fuel, tv, Dropped(clauses, i), k, st) == Select(c, fuel, tv, clauses, k, st)
    decreases |clauses| - k
  {
    if k < |clauses| {
      assert Dropped(clauses, i)[k].list == clauses[k].list;
      var r := MatchList(c, fuel, tv, clauses[k].list, st);
      if r.Val? && !r.v {
        SelectLater(c, fuel, tv, clauses, i, k + 1, r.st);
      }
    }
  }

  /** Both selections agree, or both leave the state alone and hit nothing that
      runs. */
  lemma {:induction false} SelectDropped(c: Ctx, fuel: nat, tv: Option<Value>, clauses: seq<Clause>, i: nat, k: nat,
                                         st: State)
    requires k <= i < |clauses| && !Live(clauses, i) && AllSilent(c, fuel, clauses)
    ensures var a, b := Select(c, fuel, tv, clauses, k, st), Select(c, fuel, tv, Dropped(clauses, i), k, st);
            || a == b
            || (a.Val? && b.Val? && a.st == b.st && (a.v.Some? ==> Idle(clauses, a.v.value))
                && (b.v.Some? ==> Idle(clauses, b.v.value)))
    decreases i - k
  {
    assert Silent(c, fuel, clauses[k].list);
    var r := MatchList(c, fuel, tv, clauses[k].list, st);
    assert LeavesAlone(r, st);
    if k < i {
      assert Dropped(clauses, i)[k].list == clauses[k].list;
      if !r.v {
        SelectDropped(c, fuel, tv, clauses, i, k + 1, st);
      }
    } else {
      assert MatchList(c, fuel, tv, [], st) == Val(st, false);
      SelectLater(c, fuel, tv, clauses, i, i + 1, st);
      SelectIdle(c, fuel, tv, clauses, i, i + 1, st);
    }
  }

  lemma DefaultIdle(clauses: seq<Clause>, i: nat)
    requires i < |clauses| && !clauses[i].dflt && !Live(clauses, i)
    ensures Idle(clauses, DefaultOf(clauses, |clauses|))
  {
    var d := DefaultOf(clauses, |clauses|);
    if d >= 0 {
      assert Replaces(clauses, i, d);
    }
  }

  /** Where nothing lives, dropping the clause changes no run. */
  lemma {:induction false} DropUnseen(c: Ctx, fuel: nat, id: nat, tag: Option<Expr>, clauses: seq<Clause>, i: nat,
                                      st: State)
    requires i < |clauses| && !clauses[i].dflt && !Live(clauses, i) && AllSilent(c, fuel, clauses)
    ensures Exec(c, fuel, Switch(id, tag, clauses, -1), st) ==
            Exec(c, fuel, Switch(id, tag, Dropped(clauses, i), -1), st)
  {
    var less := Dropped(clauses, i);
    ExecSwitch(c, fuel, id, tag, clauses, -1, st);
    ExecSwitch(c, fuel, id, tag, less, -1, st);
    var r := EvalTag(c, fuel, tag, st);
    if r.Val? {
      SelectDropped(c, fuel, r.v, clauses, i, 0, r.st);
      SameDefault(clauses, i, |clauses|);
      DefaultIdle(clauses, i);
      var a, b := Selected(c, fuel, tag, clauses, st), Selected(c, fuel, tag, less, st);
      if a.Val? {
        SameBodies(c, fuel, clauses, less, b.v, b.st);
        if a != b {
          IdleRuns(c, fuel, clauses, a.v, a.st);
          IdleRuns(c, fuel, clauses, b.v, b.st);
        }
      }
    }
  }

  // ----- A drop that shows -----

  /** The same clauses in the same order, cases and default, with bodies in the
      same places. */
  predicate SameLayout(a: seq<Clause>, b: seq<Clause>) {
    && |a| == |b|
    && forall j :: 0 <= j < |a| ==> a[j].dflt == b[j].dflt && (a[j].body == [] <==> b[j].body == [])
  }

  /** Clauses of a layout: a body assigns its clause's number, a case compares
      with the number in `keys`. */
  function Probe(clauses: seq<Clause>, keys: seq<nat>): (r: seq<Clause>)
    requires |keys| == |clauses|
    ensures |r| == |clauses| && SameLayout(clauses, r)
  {
    seq(|clauses|, j requires 0 <= j < |clauses| =>
          Clause(j, clauses[j].dflt, if clauses[j].dflt then [] else [Lit(0, Mark(keys[j]))],
                 if clauses[j].body == [] then [] else [Assign(LVar("x"), Lit(0, Mark(j)))]))
  }

  lemma {:induction false} ListAnswers(c: Ctx, fuel: nat, tv: Option<Value>, key: nat, st: State)
    ensures MatchList(c, fuel, tv, [], st) == Val(st, false)
    ensures MatchList(c, fuel, tv, [Lit(0, Mark(key))], st) == Val(st, Matches(tv, Mark(key)))
  {
    var list := [Lit(0, Mark(key))];
    assert list[1..] == [] && Eval(c, fuel, list[0], st) == Val(st, Mark(key));
  }

  lemma {:induction false} ProbeSilent(c: Ctx, fuel: nat, clauses: seq<Clause>, keys: seq<nat>)
    requires |keys| == |clauses|
    ensures AllSilent(c, fuel, Probe(clauses, keys))
  {
    forall j, tv, st | 0 <= j < |clauses|
      ensures LeavesAlone(MatchList(c, fuel, tv, Probe(clauses, keys)[j].list, st), st)
    {
      ListAnswers(c, fuel, tv, keys[j], st);
    }
  }

  function FirstTrue(hits: seq<bool>, k: nat): (r: Option<int>)
    requires k <= |hits|
    ensures r.Some? ==> k <= r.value < |hits| && hits[r.value] && forall j :: k <= j < r.value ==> !hits[j]
    ensures r.None? ==> forall j :: k <= j < |hits| ==> !hits[j]
    decreases |hits| - k
  {
    if k == |hits| then None else if hits[k] then Some(k) else FirstTrue(hits, k + 1)
  }

  ghost predicate Answers(c: Ctx, fuel: nat, tv: Option<Value>, clauses: seq<Clause>, hits: seq<bool>) {
    |hits| == |clauses| &&
    forall j, st :: 0 <= j < |clauses| ==> MatchList(c, fuel, tv, clauses[j].list, st) == Val(st, hits[j])
  }

  lemma {:induction false} SelectFirst(c: Ctx, fuel: nat, tv: Option<Value>, clauses: seq<Clause>, hits: seq<bool>,
                                       k: nat, st: State)
    requires k <= |clauses| && Answers(c, fuel, tv, clauses, hits)
    ensures Select(c, fuel, tv, clauses, k, st) == Val(st, FirstTrue(hits, k))
    decreases |clauses| - k
  {
    if k < |clauses| {
      assert MatchList(c, fuel, tv, clauses[k].list, st) == Val(st, hits[k]);
      if !hits[k] {
        SelectFirst(c, fuel, tv, clauses, hits, k + 1, st);
      }
    }
  }

  /** What entering a probe at e leaves in the trace. */
  function ProbeTrace(clauses: seq<Clause>, e: int): seq<Event> {
    if 0 <= e < |clauses| && clauses[e].body != [] then [Write("x", Mark(e))] else []
  }

  lemma {:induction false} ProbeRuns(c: Ctx, fuel: nat, clauses: seq<Clause>, keys: seq<nat>, e: int, st: State)
    requires |keys| == |clauses|
    ensures var r := ExecFrom(c, fuel, Probe(clauses, keys), e, st);
            r.Val? && r.v == Next && r.st.trace == st.trace + ProbeTrace(clauses, e)
  {
    if 0 <= e < |clauses| {
      var body := Probe(clauses, keys)[e].body;
      if clauses[e].body == [] {
        assert ExecAll(c, fuel, body, st) == Val(st, Next);
      } else {
        var st1 := Marked(e, false, st).st;
        MarkRuns(c, fuel, e, st);
        assert body[1..] == [] && ExecAll(c, fuel, [], st1) == Val(st1, Next);
        assert ExecAll(c, fuel, body, st) == Val(st1, Next);
      }
    }
  }

  /** Where i is selected, and where it is not once it is dropped. */
  function Keys(clauses: seq<Clause>, i: nat, k: nat): seq<nat> {
    seq(|clauses|, j => if j == k then i else j)
  }

  /** The clauses hit by a tag i, before and after the drop. */
  function Hits(clauses: seq<Clause>, i: nat, k: nat): seq<bool> {
    seq(|clauses|, j requires 0 <= j < |clauses| => !clauses[j].dflt && (j == k || j == i))
  }

  function HitsLess(clauses: seq<Clause>, i: nat, k: nat): seq<bool> {
    seq(|clauses|, j requires 0 <= j < |clauses| => !clauses[j].dflt && j == k && j != i)
  }

  lemma {:induction false} ProbeAnswers(c: Ctx, fuel: nat, clauses: seq<Clause>, i: nat, k: nat)
    requires i < |clauses|
    ensures Answers(c, fuel, Some(Mark(i)), Probe(clauses, Keys(clauses, i, k)), Hits(clauses, i, k))
    ensures Answers(c, fuel, Some(Mark(i)), Dropped(Probe(clauses, Keys(clauses, i, k)), i), HitsLess(clauses, i, k))
  {
    var ws := Probe(clauses, Keys(clauses, i, k));
    forall j, st | 0 <= j < |ws|
      ensures MatchList(c, fuel, Some(Mark(i)), ws[j].list, st) == Val(st, Hits(clauses, i, k)[j])
      ensures MatchList(c, fuel, Some(Mark(i)), Dropped(ws, i)[j].list, st) == Val(st, HitsLess(clauses, i, k)[j])
    {
      ListAnswers(c, fuel, Some(Mark(i)), Keys(clauses, i, k)[j], st);
    }
  }

  /** What runs in place of clause i when k is the probe's other match. */
  function Instead(clauses: seq<Clause>, i: nat, k: nat): int
    requires i < |clauses| && k < |clauses|
  {
    if k > i && !clauses[k].dflt then k else DefaultOf(clauses, |clauses|)
  }

  lemma {:induction false} ProbeDefault(clauses: seq<Clause>, keys: seq<nat>, n: nat)
    requires |keys| == |clauses| && n <= |clauses|
    ensures DefaultOf(Probe(clauses, keys), n) == DefaultOf(clauses, n)
  {
    if n > 0 {
      ProbeDefault(clauses, keys, n - 1);
    }
  }

  lemma {:induction false} ProbeSelected(c: Ctx, fuel: nat, clauses: seq<Clause>, i: nat, k: nat, st: State)
    requires i < |clauses| && k < |clauses| && !clauses[i].dflt && (k >= i || clauses[k].dflt)
    ensures var ws, tag := Probe(clauses, Keys(clauses, i, k)), Some(Lit(0, Mark(i)));
            && Selected(c, fuel, tag, ws, st) == Val(st, i)
            && Selected(c, fuel, tag, Dropped(ws, i), st) == Val(st, Instead(clauses, i, k))
  {
    var ws := Probe(clauses, Keys(clauses, i, k));
    ProbeAnswers(c, fuel, clauses, i, k);
    SelectFirst(c, fuel, Some(Mark(i)), ws, Hits(clauses, i, k), 0, st);
    SelectFirst(c, fuel, Some(Mark(i)), Dropped(ws, i), HitsLess(clauses, i, k), 0, st);
    ProbeDefault(clauses, Keys(clauses, i, k), |clauses|);
    SameDefault(ws, i, |ws|);
    assert Hits(clauses, i, k)[i];
    assert HitsLess(clauses, i, k)[k] <==> k > i && !clauses[k].dflt;
    assert EvalTag(c, fuel, Some(Lit(0, Mark(i))), st) == Val(st, Some(Mark(i)));
  }

  lemma {:induction false} ProbeEntered(c: Ctx, fuel: nat, clauses: seq<Clause>, keys: seq<nat>, e: int, st: State)
    requires |keys| == |clauses|
    ensures var r := EnterAt(c, fuel, Probe(clauses, keys), -1, e, st);
            r.Val? && r.st.trace == st.trace + ProbeTrace(clauses, e)
  {
    ProbeRuns(c, fuel, clauses, keys, e, st);
  }

  lemma {:induction false} DroppedEntered(c: Ctx, fuel: nat, clauses: seq<Clause>, keys: seq<nat>, i: nat, e: int,
                                          st: State)
    requires |keys| == |clauses| && i < |clauses|
    ensures var r := EnterAt(c, fuel, Dropped(Probe(clauses, keys), i), -1, e, st);
            r.Val? && r.st.trace == st.trace + ProbeTrace(clauses, e)
  {
    ProbeRuns(c, fuel, clauses, keys, e, st);
    SameBodies(c, fuel, Probe(clauses, keys), Dropped(Probe(clauses, keys), i), e, st);
  }

  lemma {:induction false} ProbeShows(c: Ctx, fuel: nat, clauses: seq<Clause>, i: nat, k: nat, st: State)
    requires i < |clauses| && k < |clauses| && !clauses[i].dflt && (k >= i || clauses[k].dflt)
    requires ProbeTrace(clauses, i) != ProbeTrace(clauses, Instead(clauses, i, k))
    ensures var ws, tag := Probe(clauses, Keys(clauses, i, k)), Some(Lit(0, Mark(i)));
            Exec(c, fuel, Switch(0, tag, ws, -1), st) != Exec(c, fuel, Switch(0, tag, Dropped(ws, i), -1), st)
  {
    var keys, tag := Keys(clauses, i, k), Some(Lit(0, Mark(i)));
    var ws := Probe(clauses, keys);
    ExecSwitch(c, fuel, 0, tag, ws, -1, st);
    ExecSwitch(c, fuel, 0, tag, Dropped(ws, i), -1, st);
    ProbeSelected(c, fuel, clauses, i, k, st);
    ProbeEntered(c, fuel, clauses, keys, i, st);
    DroppedEntered(c, fuel, clauses, keys, i, Instead(clauses, i, k), st);
    var n := |st.trace|;
    assert (st.trace + ProbeTrace(clauses, i))[n..] == ProbeTrace(clauses, i);
    var other := ProbeTrace(clauses, Instead(clauses, i, k));
    assert (st.trace + other)[n..] == other;
  }

  ghost predicate OneDefault(clauses: seq<Clause>) {
    forall a, b :: 0 <= a < b < |clauses| ==> !(clauses[a].dflt && clauses[b].dflt)
  }

  lemma {:induction false} LiveShows(clauses: seq<Clause>, i: nat) returns (k: nat)
    requires i < |clauses| && !clauses[i].dflt && Live(clauses, i) && OneDefault(clauses)
    ensures k < |clauses| && (k >= i || clauses[k].dflt)
    ensures ProbeTrace(clauses, i) != ProbeTrace(clauses, Instead(clauses, i, k))
  {
    var d := DefaultOf(clauses, |clauses|);
    if clauses[i].body != [] {
      k := i;
      assert ProbeTrace(clauses, i)[0] == Write("x", Mark(i));
    } else {
      k :| 0 <= k < |clauses| && Replaces(clauses, i, k) && clauses[k].body != [];
      assert clauses[k].dflt ==> d == k;
      assert Instead(clauses, i, k) == k;
    }
  }

  /** A switch of the layout, with silent case expressions, that runs
      differently without clause i. */
  ghost predicate Shows(c: Ctx, fuel: nat, clauses: seq<Clause>, i: nat, ws: seq<Clause>, tag: Option<Expr>, st: State)
    requires i < |clauses|
  {
    && SameLayout(clauses, ws) && AllSilent(c, fuel, ws)
    && Exec(c, fuel, Switch(0, tag, ws, -1), st) != Exec(c, fuel, Switch(0, tag, Dropped(ws, i), -1), st)
  }

  lemma LayoutLive(a: seq<Clause>, b: seq<Clause>, i: nat)
    requires SameLayout(a, b) && i < |a|
    ensures Live(a, i) <==> Live(b, i)
  {
    forall k | 0 <= k < |a|
      ensures Replaces(a, i, k) == Replaces(b, i, k)
    {
    }
  }

  lemma {:induction false} LiveDiffers(c: Ctx, fuel: nat, clauses: seq<Clause>, i: nat, st: State)
    requires i < |clauses| && !clauses[i].dflt && Live(clauses, i) && OneDefault(clauses)
    ensures exists ws, tag :: Shows(c, fuel, clauses, i, ws, tag, st)
  {
    var k := LiveShows(clauses, i);
    var ws := Probe(clauses, Keys(clauses, i, k));
    ProbeSilent(c, fuel, clauses, Keys(clauses, i, k));
    ProbeShows(c, fuel, clauses, i, k, st);
    assert Shows(c, fuel, clauses, i, ws, Some(Lit(0, Mark(i))), st);
  }

  /** Whether a drop can show at all, in switches of one layout whose case
      expressions leave state and trace alone: exactly if something runs in the
      clause or in its place. */
  lemma {:induction false} DropExactly(c: Ctx, fuel: nat, clauses: seq<Clause>, i: nat)
    requires i < |clauses| && !clauses[i].dflt && OneDefault(clauses)
    ensures (exists ws, tag, st :: Shows(c, fuel, clauses, i, ws, tag, st)) <==> Live(clauses, i)
  {
    if Live(clauses, i) {
      LiveDiffers(c, fuel, clauses, i, State(map[], []));
    }
    forall ws, tag, st | Shows(c, fuel, clauses, i, ws, tag, st)
      ensures Live(clauses, i)
    {
      LayoutLive(clauses, ws, i);
      if !Live(ws, i) {
        DropUnseen(c, fuel, 0, tag, ws, i, st);
      }
    }
  }

  // ----- A drop that skips an effect -----

  /** A probe whose one case expression reads a variable. */
  function Reader(clauses: seq<Clause>, i: nat): (r: seq<Clause>)
    requires i < |clauses|
    ensures |r| == |clauses| && SameLayout(clauses, r)
  {
    var ws := Probe(clauses, Keys(clauses, i, i));
    seq(|clauses|, j requires 0 <= j < |clauses| => ws[j].(list := if j == i then [Var(0, "y")] else []))
  }

  lemma {:induction false} NoneSelected(c: Ctx, fuel: nat, tv: Option<Value>, clauses: seq<Clause>, k: nat, st: State)
    requires k <= |clauses| && forall j :: k <= j < |clauses| ==> clauses[j].list == []
    ensures Select(c, fuel, tv, clauses, k, st) == Val(st, None)
    decreases |clauses| - k
  {
    if k < |clauses| {
      ListAnswers(c, fuel, tv, 0, st);
      NoneSelected(c, fuel, tv, clauses, k + 1, st);
    }
  }

  lemma {:induction false} ReaderSelected(c: Ctx, fuel: nat, clauses: seq<Clause>, i: nat, k: nat, st: State)
    requires k <= i < |clauses| && "y" in st.env && st.env["y"] == BoolV(false)
    ensures Select(c, fuel, None, Reader(clauses, i), k, st) == Val(st.Log(Read("y")), None)
    decreases i - k
  {
    var list := Reader(clauses, i)[k].list;
    ListAnswers(c, fuel, None, 0, st);
    if k < i {
      ReaderSelected(c, fuel, clauses, i, k + 1, st);
    } else {
      var st1 := st.Log(Read("y"));
      ListAnswers(c, fuel, None, 0, st1);
      assert list[0] == Var(0, "y") && list[1..] == [] && Eval(c, fuel, list[0], st) == Val(st1, BoolV(false));
      assert MatchList(c, fuel, None, list, st) == Val(st1, false);
      NoneSelected(c, fuel, None, Reader(clauses, i), i + 1, st1);
    }
  }

  lemma {:induction false} ReaderEntered(c: Ctx, fuel: nat, clauses: seq<Clause>, i: nat, e: int, st: State)
    requires i < |clauses|
    ensures var a := EnterAt(c, fuel, Reader(clauses, i), -1, e, st);
            var b := EnterAt(c, fuel, Dropped(Reader(clauses, i), i), -1, e, st);
            a.Val? && b.Val? && a.st.trace == b.st.trace == st.trace + ProbeTrace(clauses, e)
  {
    var ws := Probe(clauses, Keys(clauses, i, i));
    ProbeRuns(c, fuel, clauses, Keys(clauses, i, i), e, st);
    SameBodies(c, fuel, Reader(clauses, i), ws, e, st);
    SameBodies(c, fuel, Dropped(Reader(clauses, i), i), ws, e, st);
  }

  /** Case expressions with effects are another matter: in every layout, the
      drop of every case shows where its expression reads a variable, which a
      dropped clause does not. */
  lemma {:induction false} EffectShows(c: Ctx, fuel: nat, clauses: seq<Clause>, i: nat, st: State)
    requires i < |clauses| && !clauses[i].dflt && "y" in st.env && st.env["y"] == BoolV(false)
    ensures var ws := Reader(clauses, i);
            && SameLayout(clauses, ws)
            && Exec(c, fuel, Switch(0, None, ws, -1), st) != Exec(c, fuel, Switch(0, None, Dropped(ws, i), -1), st)
  {
    var ws := Reader(clauses, i);
    var e := DefaultOf(ws, |ws|);
    ExecSwitch(c, fuel, 0, None, ws, -1, st);
    ExecSwitch(c, fuel, 0, None, Dropped(ws, i), -1, st);
    ReaderSelected(c, fuel, clauses, i, 0, st);
    NoneSelected(c, fuel, None, Dropped(ws, i), 0, st);
    SameDefault(ws, i, |ws|);
    ReaderEntered(c, fuel, clauses, i, e, st);
    ReaderEntered(c, fuel, clauses, i, e, st.Log(Read("y")));
  }

  // ----- What the operator finds -----

  /** Every drop that can show is found. */
  lemma {:induction false} LiveIsFound(info: Info, same: (int, int) -> bool, ns: seq<Node>, s: Stmt, i: nat)
    requires NodeS(s) in ns && s.Switch? && info.ok(SwitchCase, s.id) && i < |s.clauses|
    requires !s.clauses[i].dflt && Live(s.clauses, i)
    ensures Cand(s.id, s.clauses[i].pos, EmptyText) in Find(info, same, SwitchCase, ns)
  {
    FindsSwitch(info, same, ns, s, i);
  }

  /** The one kind of case it leaves out cannot show.  It is not the only kind:
      of two empty cases without a default, neither drop can show and the first
      is found. */
  lemma {:induction false} LeftOutIsIdle(info: Info, same: (int, int) -> bool, s: Stmt, i: nat)
    requires s.Switch? && info.ok(SwitchCase, s.id) && i < |s.clauses| && !s.clauses[i].dflt
    ensures Cand(s.id, s.clauses[i].pos, EmptyText) !in Find(info, same, SwitchCase, [NodeS(s)]) ==> !Live(s.clauses, i)
    ensures var two := [Clause(0, false, [], []), Clause(1, false, [], [])];
            && !Live(two, 0)
            && Cand(s.id, 0, EmptyText) in Find(info, same, SwitchCase, [NodeS(Switch(s.id, None, two, -1))])
  {
    if Live(s.clauses, i) {
      LiveIsFound(info, same, [NodeS(s)], s, i);
    }
    var two := [Clause(0, false, [], []), Clause(1, false, [], [])];
    FindsSwitch(info, same, [NodeS(Switch(s.id, None, two, -1))], Switch(s.id, None, two, -1), 0);
  }
}
