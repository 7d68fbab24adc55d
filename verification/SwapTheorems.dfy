/** The swap mutant against its description on whole switch statements: they
    agree on every switch whose clauses fall through where `falls` says so,
    exactly when no clause near the pair does. */
module SwapTheorems {
  import opened Seqs
  import opened Syntax
  import opened Mutations
  import opened Semantics
  import opened SwitchSwaps

  // ----- Where a body falls through -----

  /** Running the statement may end its clause in fallthrough.  Loops and inner
      switches keep theirs to themselves. */
  predicate MayFall(s: Stmt) {
    match s
    case Fallthrough => true
    case If(_, thn, els) => MayFallIn(thn) || MayFallIn(els)
    case _ => false
  }

  predicate MayFallIn(ss: seq<Stmt>) {
    ss != [] && (MayFall(ss[0]) || MayFallIn(ss[1..]))
  }

  predicate EndsInFall(body: seq<Stmt>) {
    body != [] && body[|body| - 1] == Fallthrough
  }

  /** Go allows fallthrough only as the last statement of a clause, and not in
      the last clause. */
  predicate FallsLast(body: seq<Stmt>) {
    forall k :: 0 <= k < |body| && MayFall(body[k]) ==> k == |body| - 1 && body[k] == Fallthrough
  }

  predicate WellPlaced(clauses: seq<Clause>) {
    && (forall j :: 0 <= j < |clauses| ==> FallsLast(clauses[j].body))
    && (clauses != [] ==> !EndsInFall(clauses[|clauses| - 1].body))
  }

  function Falls(clauses: seq<Clause>): (r: seq<bool>)
    ensures |r| == |clauses| && forall j :: 0 <= j < |r| ==> r[j] == EndsInFall(clauses[j].body)
  {
    seq(|clauses|, j requires 0 <= j < |clauses| => EndsInFall(clauses[j].body))
  }

  lemma {:induction false} FallExact(body: seq<Stmt>)
    requires FallsLast(body)
    ensures MayFallIn(body) <==> EndsInFall(body)
  {
    if body != [] {
      forall k | 0 <= k < |body[1..]| && MayFall(body[1..][k])
        ensures k == |body[1..]| - 1 && body[1..][k] == Fallthrough
      {
        assert MayFall(body[k + 1]);
      }
      FallExact(body[1..]);
      assert body[|body| - 1] == Fallthrough ==> MayFall(body[|body| - 1]);
    }
  }

  lemma {:induction false} SwitchKeeps(c: Ctx, fuel: nat, clauses: seq<Clause>, e: int, st: State)
    ensures !FallsThrough(ExecFrom(c, fuel, clauses, e, st))
    decreases if e < 0 || e > |clauses| then 0 else |clauses| - e
  {
    if 0 <= e < |clauses| {
      var r := ExecAll(c, fuel, clauses[e].body, st);
      if r.Val? && r.v == Fall {
        SwitchKeeps(c, fuel, clauses, e + 1, r.st);
      }
    }
  }

  lemma {:induction false} LoopKeeps(c: Ctx, fuel: nat, s: Stmt, st: State)
    requires s.For?
    ensures !FallsThrough(Exec(c, fuel, s, st))
    decreases fuel
  {
    var r0 := Eval(c, fuel, s.cond, st);
    if r0.Val? && r0.v == BoolV(true) {
      var r1 := ExecAll(c, fuel, s.body, r0.st);
      if r1.Val? && r1.v != Brk && !r1.v.Ret? {
        var r2 := ExecAll(c, fuel, s.post, r1.st);
        if r2.Val? && fuel > 0 {
          LoopKeeps(c, fuel - 1, s, r2.st);
        }
      }
    }
  }

  lemma PlainKeeps(c: Ctx, fuel: nat, s: Stmt, st: State)
    requires !s.For? && !s.Switch? && !s.If? && !s.Fallthrough?
    ensures !FallsThrough(Exec(c, fuel, s, st))
  {
  }

  lemma {:induction false} OnlyMayFall(c: Ctx, fuel: nat, s: Stmt, st: State)
    ensures FallsThrough(Exec(c, fuel, s, st)) ==> MayFall(s)
    decreases s, 0
  {
    match s
    case If(cond, thn, els) =>
      var r := Eval(c, fuel, cond, st);
      if r.Val? {
        OnlyMayFallIn(c, fuel, thn, r.st);
        OnlyMayFallIn(c, fuel, els, r.st);
      }
    case For(_, _, _) => LoopKeeps(c, fuel, s, st);
    case Switch(_, tag, clauses, swapped) =>
      var r := EvalTag(c, fuel, tag, st);
      if r.Val? {
        var hit := Select(c, fuel, r.v, clauses, 0, r.st);
        if hit.Val? {
          var entry := if hit.v.Some? then hit.v.value else DefaultOf(clauses, |clauses|);
          SwitchKeeps(c, fuel, clauses, Transpose(swapped, entry), hit.st);
        }
      }
    case Fallthrough =>
    case _ => PlainKeeps(c, fuel, s, st);
  }

  lemma {:induction false} OnlyMayFallIn(c: Ctx, fuel: nat, ss: seq<Stmt>, st: State)
    ensures FallsThrough(ExecAll(c, fuel, ss, st)) ==> MayFallIn(ss)
    decreases ss, 0
  {
    if ss != [] {
      OnlyMayFall(c, fuel, ss[0], st);
      var r := Exec(c, fuel, ss[0], st);
      if r.Val? && r.v == Next {
        OnlyMayFallIn(c, fuel, ss[1..], r.st);
      }
    }
  }

  /** A body falls through only if it ends in fallthrough. */
  lemma {:induction false} OnlyWrittenFalls(c: Ctx, fuel: nat, clauses: seq<Clause>)
    requires WellPlaced(clauses)
    ensures FallsAt(BodyOf(c, fuel, clauses), Falls(clauses))
  {
    forall j: nat, st | j < |clauses| && FallsThrough(BodyOf(c, fuel, clauses)(j, st))
      ensures Falls(clauses)[j]
    {
      OnlyMayFallIn(c, fuel, clauses[j].body, st);
      FallExact(clauses[j].body);
    }
  }

  // ----- The whole statement -----

  lemma {:induction false} SelectSame(c: Ctx, fuel: nat, tv: Option<Value>, clauses: seq<Clause>, i: nat, k: nat,
                                      st: State)
    requires i + 1 < |clauses| && k <= |clauses|
    ensures var r := Select(c, fuel, tv, clauses, k, st);
            && Select(c, fuel, tv, Exchanged(clauses, i), k, st) == r
            && (r.Val? && r.v.Some? ==> 0 <= r.v.value < |clauses|)
    decreases |clauses| - k
  {
    if k < |clauses| {
      assert Exchanged(clauses, i)[k].list == clauses[k].list;
      var r := MatchList(c, fuel, tv, clauses[k].list, st);
      if r.Val? && !r.v {
        SelectSame(c, fuel, tv, clauses, i, k + 1, r.st);
      }
    }
  }

  lemma {:induction false} DefaultSame(clauses: seq<Clause>, i: nat, n: nat)
    requires i + 1 < |clauses| && n <= |clauses|
    ensures DefaultOf(Exchanged(clauses, i), n) == DefaultOf(clauses, n)
  {
    if n > 0 {
      DefaultSame(clauses, i, n - 1);
    }
  }

  /** The switch once its clause has been selected. */
  function EnterAt(c: Ctx, fuel: nat, clauses: seq<Clause>, swapped: int, entry: int, st: State): Out<Ctl> {
    var (s1, ctl) :- ExecFrom(c, fuel, clauses, Transpose(swapped, entry), st);
    Val(s1, if ctl == Brk then Next else ctl)
  }

  function Selected(c: Ctx, fuel: nat, tag: Option<Expr>, clauses: seq<Clause>, st: State): Out<int> {
    var (s1, tv) :- EvalTag(c, fuel, tag, st);
    var (s2, hit) :- Select(c, fuel, tv, clauses, 0, s1);
    Val(s2, if hit.Some? then hit.value else DefaultOf(clauses, |clauses|))
  }

  lemma ExecSwitch(c: Ctx, fuel: nat, id: nat, tag: Option<Expr>, clauses: seq<Clause>, swapped: int, st: State)
    ensures var r := Selected(c, fuel, tag, clauses, st);
            Exec(c, fuel, Switch(id, tag, clauses, swapped), st)
            == if r.Val? then EnterAt(c, fuel, clauses, swapped, r.v, r.st) else Stop(r.trace, r.why)
  {
  }

  lemma SelectedSame(c: Ctx, fuel: nat, tag: Option<Expr>, clauses: seq<Clause>, i: nat, st: State)
    requires i + 1 < |clauses|
    ensures var r := Selected(c, fuel, tag, clauses, st);
            Selected(c, fuel, tag, Exchanged(clauses, i), st) == r && (r.Val? ==> -1 <= r.v < |clauses|)
  {
    DefaultSame(clauses, i, |clauses|);
    var r := EvalTag(c, fuel, tag, st);
    if r.Val? {
      SelectSame(c, fuel, r.v, clauses, i, 0, r.st);
    }
  }

  lemma EnterSame(c: Ctx, fuel: nat, clauses: seq<Clause>, i: nat, entry: int, st: State)
    requires i + 1 < |clauses| && -1 <= entry < |clauses|
    requires WellPlaced(clauses) && NoFallNear(Falls(clauses), i)
    ensures EnterAt(c, fuel, clauses, i, entry, st) == EnterAt(c, fuel, Exchanged(clauses, i), -1, entry, st)
  {
    if entry >= 0 {
      OnlyWrittenFalls(c, fuel, clauses);
      SwapRunsAsDescribed(c, fuel, clauses, Falls(clauses), i, entry, st);
    }
  }

  /** The switch with clauses i and i+1 swapped runs as the operator's
      documentation says: as the switch with the two bodies exchanged. */
  ghost predicate AsDescribed(c: Ctx, fuel: nat, id: nat, tag: Option<Expr>, clauses: seq<Clause>, i: nat, st: State)
    requires i + 1 < |clauses|
  {
    Exec(c, fuel, Switch(id, tag, clauses, i), st) == Exec(c, fuel, Switch(id, tag, Exchanged(clauses, i), -1), st)
  }

  /** With no fallthrough near the pair it does. */
  lemma SwapOfStatement(c: Ctx, fuel: nat, id: nat, tag: Option<Expr>, clauses: seq<Clause>, i: nat, st: State)
    requires i + 1 < |clauses| && WellPlaced(clauses) && NoFallNear(Falls(clauses), i)
    ensures AsDescribed(c, fuel, id, tag, clauses, i, st)
  {
    ExecSwitch(c, fuel, id, tag, clauses, i, st);
    ExecSwitch(c, fuel, id, tag, Exchanged(clauses, i), -1, st);
    SelectedSame(c, fuel, tag, clauses, i, st);
    var r := Selected(c, fuel, tag, clauses, st);
    if r.Val? {
      EnterSame(c, fuel, clauses, i, r.v, r.st);
    }
  }

  // ----- A switch that shows a fallthrough near the pair -----

  function Mark(j: nat): Value {
    IntV(INT, j)
  }

  /** x = j, and fallthrough where `falls` asks for it. */
  function Marker(falls: seq<bool>, j: nat): Clause
    requires j < |falls|
  {
    Clause(j, false, [Lit(0, Mark(j))],
           [Assign(LVar("x"), Lit(0, Mark(j)))] + if falls[j] then [Fallthrough] else [])
  }

  function Markers(falls: seq<bool>): (r: seq<Clause>)
    ensures |r| == |falls| && forall j :: 0 <= j < |r| ==> r[j] == Marker(falls, j)
  {
    seq(|falls|, j requires 0 <= j < |falls| => Marker(falls, j))
  }

  lemma MarkersFall(falls: seq<bool>)
    requires falls != [] && !falls[|falls| - 1]
    ensures WellPlaced(Markers(falls)) && Falls(Markers(falls)) == falls
  {
  }

  function Marked(j: nat, falls: bool, st: State): Out<Ctl> {
    Val(State(st.env["x" := Mark(j)], st.trace + [Write("x", Mark(j))]), if falls then Fall else Next)
  }

  lemma MarkRuns(c: Ctx, fuel: nat, j: nat, st: State)
    ensures Exec(c, fuel, Assign(LVar("x"), Lit(0, Mark(j))), st) == Marked(j, false, st)
  {
    assert EvalLhs(c, fuel, LVar("x"), st) == Val(st, PVar("x"));
    assert Eval(c, fuel, Lit(0, Mark(j)), st) == Val(st, Mark(j));
  }

  lemma MarkerRuns(c: Ctx, fuel: nat, falls: seq<bool>, j: nat, st: State)
    requires j < |falls|
    ensures ExecAll(c, fuel, Marker(falls, j).body, st) == Marked(j, falls[j], st)
  {
    var body := Marker(falls, j).body;
    MarkRuns(c, fuel, j, st);
    var st1 := Marked(j, false, st).st;
    assert ExecAll(c, fuel, [], st1) == Val(st1, Next);
    assert [Fallthrough][0] == Fallthrough && Exec(c, fuel, Fallthrough, st1) == Val(st1, Fall);
    assert ExecAll(c, fuel, [Fallthrough], st1) == Val(st1, Fall);
    assert body[1..] == if falls[j] then [Fallthrough] else [];
  }

  /** The writes of a chain of bodies, the chain given by their original
      clauses. */
  function Writes(chain: seq<nat>): seq<Event> {
    seq(|chain|, k requires 0 <= k < |chain| => Write("x", Mark(chain[k])))
  }

  lemma WritesTell(t: seq<Event>, a: seq<nat>, b: seq<nat>)
    requires t + Writes(a) == t + Writes(b)
    ensures a == b
  {
    assert Writes(a) == (t + Writes(a))[|t|..] == (t + Writes(b))[|t|..] == Writes(b);
    assert |a| == |b|;
    forall k | 0 <= k < |a|
      ensures a[k] == b[k]
    {
      assert Writes(a)[k] == Writes(b)[k];
    }
  }

  function Origins(origin: nat -> nat, chain: seq<nat>): seq<nat> {
    seq(|chain|, k requires 0 <= k < |chain| => origin(chain[k]))
  }

  /** Bodies that write their original clause leave their chain in the trace. */
  lemma {:induction false} ChainWritten(run: Body, falls: seq<bool>, origin: nat -> nat, e: nat, st: State)
    requires forall j: nat, s :: j < |falls| ==> run(j, s) == Marked(origin(j), falls[j], s)
    ensures var r := RunFrom(run, |falls|, e, st);
            r.Val? && r.st.trace == st.trace + Writes(Origins(origin, Chain(falls, e)))
    decreases if e < |falls| then |falls| - e else 0
  {
    if e < |falls| {
      var r := run(e, st);
      var chain := Chain(falls, e);
      assert r == Marked(origin(e), falls[e], st);
      assert chain[1..] == if falls[e] then Chain(falls, e + 1) else [];
      assert Writes(Origins(origin, chain)) == [Write("x", Mark(origin(e)))] + Writes(Origins(origin, chain[1..]));
      if falls[e] {
        ChainWritten(run, falls, origin, e + 1, r.st);
      }
    }
  }

  lemma SwappedOrigins(i: nat, chain: seq<nat>)
    ensures Origins(j => Swapped(i, j), chain) == Bodies(i, chain)
    ensures Origins(j => j, chain) == chain
  {
    if chain != [] {
      BodiesAt(i, chain, 0);
    }
    forall k | 0 <= k < |chain|
      ensures Bodies(i, chain)[k] == Swapped(i, chain[k])
    {
      BodiesAt(i, chain, k);
    }
  }

  /** Entered at a clause, the switch leaves the chain that the rewrite makes
      it run, and with its bodies exchanged the chain described. */
  lemma MarkersEntered(c: Ctx, fuel: nat, falls: seq<bool>, i: nat, e: nat, st: State)
    requires i + 1 < |falls| && e < |falls|
    ensures var r := ExecFrom(c, fuel, Markers(falls), Swapped(i, e), st);
            r.Val? && r.st.trace == st.trace + Writes(Actual(falls, i, e))
    ensures var r := ExecFrom(c, fuel, Exchanged(Markers(falls), i), e, st);
            r.Val? && r.st.trace == st.trace + Writes(Described(falls, i, e))
  {
    var ms := Markers(falls);
    var run, other := BodyOf(c, fuel, ms), BodyOf(c, fuel, Exchanged(ms, i));
    forall j: nat, s | j < |falls|
      ensures run(j, s) == Marked(j, falls[j], s)
    {
      MarkerRuns(c, fuel, falls, j, s);
    }
    SwappedBodies(c, fuel, ms, i);
    ExecIsRun(c, fuel, ms, Swapped(i, e), st);
    ExecIsRun(c, fuel, Exchanged(ms, i), e, st);
    ChainWritten(run, falls, j => j, Swapped(i, e), st);
    ChainWritten(other, Moved(falls, i), j => Swapped(i, j), e, st);
    SwappedOrigins(i, Chain(falls, Swapped(i, e)));
    SwappedOrigins(i, Chain(Moved(falls, i), e));
  }

  lemma {:induction false} MarkerSelected(c: Ctx, fuel: nat, clauses: seq<Clause>, e: nat, k: nat, st: State)
    requires k <= e < |clauses|
    requires forall j :: 0 <= j < |clauses| ==> clauses[j].list == [Lit(0, Mark(j))]
    ensures Select(c, fuel, Some(Mark(e)), clauses, k, st) == Val(st, Some(e))
    decreases e - k
  {
    var list := clauses[k].list;
    assert list[1..] == [] && Eval(c, fuel, list[0], st) == Val(st, Mark(k));
    assert MatchList(c, fuel, Some(Mark(e)), list, st) == Val(st, k == e);
    if k < e {
      MarkerSelected(c, fuel, clauses, e, k + 1, st);
    }
  }

  /** A chain that the rewrite gets wrong shows in the trace. */
  lemma WrongChainShows(c: Ctx, fuel: nat, falls: seq<bool>, i: nat, e: nat, st: State)
    requires i + 1 < |falls| && e < |falls| && Described(falls, i, e) != Actual(falls, i, e)
    ensures !AsDescribed(c, fuel, 0, Some(Lit(0, Mark(e))), Markers(falls), i, st)
  {
    var ms, tag := Markers(falls), Some(Lit(0, Mark(e)));
    ExecSwitch(c, fuel, 0, tag, ms, i, st);
    ExecSwitch(c, fuel, 0, tag, Exchanged(ms, i), -1, st);
    SelectedSame(c, fuel, tag, ms, i, st);
    assert EvalTag(c, fuel, tag, st) == Val(st, Some(Mark(e)));
    MarkerSelected(c, fuel, ms, e, 0, st);
    MarkersEntered(c, fuel, falls, i, e, st);
    if AsDescribed(c, fuel, 0, tag, ms, i, st) {
      WritesTell(st.trace, Actual(falls, i, e), Described(falls, i, e));
    }
  }

  /** The description fits every run of every switch with these
      fallthroughs. */
  ghost predicate AlwaysAsDescribed(falls: seq<bool>, i: nat)
    requires i + 1 < |falls|
  {
    forall c, fuel, id, tag, clauses, st | WellPlaced(clauses) && Falls(clauses) == falls ::
      AsDescribed(c, fuel, id, tag, clauses, i, st)
  }

  lemma {:induction false} DescribedIfNoneNear(falls: seq<bool>, i: nat)
    requires i + 1 < |falls| && NoFallNear(falls, i)
    ensures AlwaysAsDescribed(falls, i)
  {
    forall c, fuel, id, tag, clauses, st | WellPlaced(clauses) && Falls(clauses) == falls
      ensures AsDescribed(c, fuel, id, tag, clauses, i, st)
    {
      SwapOfStatement(c, fuel, id, tag, clauses, i, st);
    }
  }

  lemma {:induction false} NotDescribed(falls: seq<bool>, i: nat, e: nat)
    requires i + 1 < |falls| && e < |falls| && !falls[|falls| - 1]
    requires Described(falls, i, e) != Actual(falls, i, e)
    ensures !AlwaysAsDescribed(falls, i)
  {
    MarkersFall(falls);
    WrongChainShows(Ctx(-1, map[], map[], (_, _) => Blocks), 0, falls, i, e, State(map[], []));
  }

  /** It does exactly when no body near the pair ends in fallthrough. */
  lemma {:induction false} SwapExactly(falls: seq<bool>, i: nat)
    requires i + 1 < |falls| && !falls[|falls| - 1]
    ensures AlwaysAsDescribed(falls, i) <==> NoFallNear(falls, i)
  {
    if NoFallNear(falls, i) {
      DescribedIfNoneNear(falls, i);
    } else {
      SwapAsDescribed(falls, i);
      var e: nat :| e < |falls| && Described(falls, i, e) != Actual(falls, i, e);
      NotDescribed(falls, i, e);
    }
  }
}
