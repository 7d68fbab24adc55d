/** The swap mutant against its description, "swaps the bodies of adjacent
    clauses".  The rewrite exchanges the entry clause instead, and a body that
    ends in fallthrough still continues with the clause textually after it. */
module SwitchSwaps {
  import opened Syntax
  import opened Semantics

  /** The clauses that run when a switch is entered at e, if every body that
      may end in fallthrough does. */
  function Chain(falls: seq<bool>, e: nat): seq<nat>
    decreases if e < |falls| then |falls| - e else 0
  {
    if e >= |falls| then [] else [e] + (if falls[e] then Chain(falls, e + 1) else [])
  }

  function Swapped(i: nat, p: nat): nat {
    if p == i then i + 1 else if p == i + 1 then i else p
  }

  /** The clauses' fallthroughs once bodies i and i+1 have changed places. */
  function Moved(falls: seq<bool>, i: nat): seq<bool>
    requires i + 1 < |falls|
  {
    seq(|falls|, p requires 0 <= p < |falls| => falls[Swapped(i, p)])
  }

  function Bodies(i: nat, chain: seq<nat>): seq<nat> {
    if chain == [] then [] else [Swapped(i, chain[0])] + Bodies(i, chain[1..])
  }

  /** The bodies run, by their original clause, when a switch selects clause e:
      with the bodies exchanged, and as the rewritten switch runs them. */
  function Described(falls: seq<bool>, i: nat, e: nat): seq<nat>
    requires i + 1 < |falls|
  {
    Bodies(i, Chain(Moved(falls, i), e))
  }

  function Actual(falls: seq<bool>, i: nat, e: nat): seq<nat> {
    Chain(falls, Swapped(i, e))
  }

  /** Neither swapped body falls through, and nothing falls into them. */
  predicate NoFallNear(falls: seq<bool>, i: nat)
    requires i + 1 < |falls|
  {
    !falls[i] && !falls[i + 1] && (i > 0 ==> !falls[i - 1])
  }

  lemma {:induction false} SameBeyond(falls: seq<bool>, i: nat, e: nat)
    requires i + 1 < |falls| && e > i + 1
    ensures Described(falls, i, e) == Chain(falls, e)
    decreases |falls| - e
  {
    if e < |falls| {
      var chain := Chain(Moved(falls, i), e);
      assert chain[0] == e;
      assert chain[1..] == if falls[e] then Chain(Moved(falls, i), e + 1) else [];
      assert Bodies(i, chain) == [e] + Bodies(i, chain[1..]);
      if falls[e] {
        SameBeyond(falls, i, e + 1);
      }
    }
  }

  lemma {:induction false} SameElsewhere(falls: seq<bool>, i: nat, e: nat)
    requires i + 1 < |falls| && NoFallNear(falls, i) && e < |falls|
    ensures Described(falls, i, e) == Actual(falls, i, e)
    decreases |falls| - e
  {
    var chain := Chain(Moved(falls, i), e);
    if e > i + 1 {
      SameBeyond(falls, i, e);
    } else {
      assert chain[1..] == if e < i && falls[e] then Chain(Moved(falls, i), e + 1) else [];
      assert Bodies(i, chain) == [Swapped(i, e)] + Bodies(i, chain[1..]);
      if e < i && falls[e] {
        SameElsewhere(falls, i, e + 1);
      }
    }
  }

  lemma Second(falls: seq<bool>, e: nat)
    requires e + 1 < |falls|
    ensures |Chain(falls, e)| > 1 <==> falls[e]
    ensures falls[e] ==> Chain(falls, e)[1] == e + 1
  {
  }

  lemma {:induction false} BodiesAt(i: nat, chain: seq<nat>, k: nat)
    requires k < |chain|
    ensures |Bodies(i, chain)| == |chain| && Bodies(i, chain)[k] == Swapped(i, chain[k])
  {
    if k > 0 {
      BodiesAt(i, chain[1..], k - 1);
    } else if |chain| > 1 {
      BodiesAt(i, chain[1..], 0);
    }
  }

  lemma FallBreaks(falls: seq<bool>, i: nat, e: nat)
    requires i + 1 < |falls| && !falls[|falls| - 1]
    requires (e == i && falls[i + 1]) || (e == i + 1 && falls[i]) || (e + 1 == i && falls[e])
    ensures Described(falls, i, e) != Actual(falls, i, e)
  {
    var chain, moved := Chain(Moved(falls, i), e), Moved(falls, i);
    BodiesAt(i, chain, 0);
    if e + 1 < |falls| {
      Second(moved, e);
      Second(falls, Swapped(i, e));
      BodiesAt(i, chain, 1);
    } else {
      assert chain == [e];
      Second(falls, i);
    }
  }

  /** Swap mutants do what they say, for every selected clause, exactly when no
      body near the pair ends in fallthrough. */
  lemma SwapAsDescribed(falls: seq<bool>, i: nat)
    requires i + 1 < |falls| && !falls[|falls| - 1]
    ensures (forall e :: 0 <= e < |falls| ==> Described(falls, i, e) == Actual(falls, i, e)) <==> NoFallNear(falls, i)
  {
    if NoFallNear(falls, i) {
      forall e | 0 <= e < |falls|
        ensures Described(falls, i, e) == Actual(falls, i, e)
      {
        SameElsewhere(falls, i, e);
      }
    } else {
      var e := if falls[i] then i + 1 else if falls[i + 1] then i else i - 1;
      FallBreaks(falls, i, e);
    }
  }

  // ----- In the evaluator -----

  /** Running the body of a clause. */
  type Body = (nat, State) -> Out<Ctl>

  function BodyOf(c: Ctx, fuel: nat, clauses: seq<Clause>): Body {
    (j: nat, st: State) => if j < |clauses| then ExecAll(c, fuel, clauses[j].body, st) else Val(st, Next)
  }

  predicate FallsThrough(r: Out<Ctl>) {
    r.Val? && r.v == Fall
  }

  /** A body may end in fallthrough only where `falls` says so. */
  ghost predicate FallsAt(run: Body, falls: seq<bool>) {
    forall j: nat, st :: j < |falls| && FallsThrough(run(j, st)) ==> falls[j]
  }

  /** Runs the listed bodies one after another while they fall through. */
  function RunChain(run: Body, chain: seq<nat>, st: State): Out<Ctl> {
    if chain == [] then Val(st, Next)
    else
      var (s1, ctl) :- run(chain[0], st);
      if ctl == Fall && |chain| > 1 then RunChain(run, chain[1..], s1) else Val(s1, ctl)
  }

  function RunFrom(run: Body, n: nat, e: nat, st: State): Out<Ctl>
    decreases if e < n then n - e else 0
  {
    if e >= n then Val(st, Next)
    else
      var (s1, ctl) :- run(e, st);
      if ctl == Fall then RunFrom(run, n, e + 1, s1) else Val(s1, ctl)
  }

  lemma {:induction false} ExecIsRun(c: Ctx, fuel: nat, clauses: seq<Clause>, e: nat, st: State)
    ensures ExecFrom(c, fuel, clauses, e, st) == RunFrom(BodyOf(c, fuel, clauses), |clauses|, e, st)
    decreases if e < |clauses| then |clauses| - e else 0
  {
    if e < |clauses| {
      var r := ExecAll(c, fuel, clauses[e].body, st);
      if FallsThrough(r) {
        ExecIsRun(c, fuel, clauses, e + 1, r.st);
      }
    }
  }

  lemma {:induction false} RunIsChain(run: Body, falls: seq<bool>, e: nat, st: State)
    requires FallsAt(run, falls) && falls != [] && !falls[|falls| - 1]
    ensures RunFrom(run, |falls|, e, st) == RunChain(run, Chain(falls, e), st)
    decreases if e < |falls| then |falls| - e else 0
  {
    if e < |falls| {
      var r := run(e, st);
      if FallsThrough(r) {
        assert falls[e] && Chain(falls, e)[1..] == Chain(falls, e + 1);
        RunIsChain(run, falls, e + 1, r.st);
      }
    }
  }

  lemma {:induction false} ExchangedChain(run: Body, other: Body, i: nat, chain: seq<nat>, st: State)
    requires forall j, s :: other(j, s) == run(Swapped(i, j), s)
    ensures RunChain(other, chain, st) == RunChain(run, Bodies(i, chain), st)
    decreases |chain|
  {
    if chain != [] {
      var bodies := Bodies(i, chain);
      BodiesAt(i, chain, 0);
      assert bodies[1..] == Bodies(i, chain[1..]);
      var r := other(chain[0], st);
      if FallsThrough(r) && |chain| > 1 {
        ExchangedChain(run, other, i, chain[1..], r.st);
      }
    }
  }

  /** The clauses with the bodies of i and i+1 exchanged. */
  function Exchanged(clauses: seq<Clause>, i: nat): seq<Clause>
    requires i + 1 < |clauses|
  {
    clauses[i := clauses[i].(body := clauses[i + 1].body)][i + 1 := clauses[i + 1].(body := clauses[i].body)]
  }

  lemma SwappedBodies(c: Ctx, fuel: nat, clauses: seq<Clause>, i: nat)
    requires i + 1 < |clauses|
    ensures forall j, s :: BodyOf(c, fuel, Exchanged(clauses, i))(j, s) == BodyOf(c, fuel, clauses)(Swapped(i, j), s)
  {
  }

  lemma SwapRuns(run: Body, other: Body, falls: seq<bool>, i: nat, e: nat, st: State)
    requires i + 1 < |falls| && e < |falls| && FallsAt(run, falls) && !falls[|falls| - 1] && NoFallNear(falls, i)
    requires forall j, s :: other(j, s) == run(Swapped(i, j), s)
    ensures RunFrom(run, |falls|, Swapped(i, e), st) == RunFrom(other, |falls|, e, st)
  {
    var moved := Moved(falls, i);
    SameElsewhere(falls, i, e);
    RunIsChain(run, falls, Swapped(i, e), st);
    RunIsChain(other, moved, e, st);
    ExchangedChain(run, other, i, Chain(moved, e), st);
  }

  /** With no fallthrough near the pair, entering the switch through the
      exchanged index runs it as if the two bodies were exchanged. */
  lemma SwapRunsAsDescribed(c: Ctx, fuel: nat, clauses: seq<Clause>, falls: seq<bool>, i: nat, e: nat, st: State)
    requires i + 1 < |clauses| == |falls| && e < |clauses| && FallsAt(BodyOf(c, fuel, clauses), falls)
    requires !falls[|falls| - 1] && NoFallNear(falls, i)
    ensures ExecFrom(c, fuel, clauses, Transpose(i, e), st) == ExecFrom(c, fuel, Exchanged(clauses, i), e, st)
  {
    SwappedBodies(c, fuel, clauses, i);
    SwapRuns(BodyOf(c, fuel, clauses), BodyOf(c, fuel, Exchanged(clauses, i)), falls, i, e, st);
    ExecIsRun(c, fuel, clauses, Swapped(i, e), st);
    ExecIsRun(c, fuel, Exchanged(clauses, i), e, st);
  }
}
