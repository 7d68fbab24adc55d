/** The mutant loop of one package: which mutants run, in what order they
    start, and the results once every worker has finished. */
module MutantLoop {
  import opened Seqs
  import opened Verdicts
  import opened KillCache

  /** tests[j] are the tests of suite j that cover the mutant. */
  datatype Mutant = Mutant(fp: string, key: string, tests: seq<seq<string>>, cost: nat)

  /** A process run in the parallel loop, alone with a longer budget, or alone
      with the first one. */
  datatype Attempt = Parallel | AloneLonger | AloneSame

  /** One run of the tool on a package; run(i, j, a) is what suite j's process
      reports about mutant i. */
  datatype Session = Session(
    suites: seq<Suite>, mutants: seq<Mutant>, testHash: map<string, string>,
    failFast: bool, verifyKills: bool, run: (nat, nat, Attempt) -> Outcome)

  predicate WellFormed(s: Session) {
    forall i :: 0 <= i < |s.mutants| ==> |s.mutants[i].tests| == |s.suites|
  }

  function Tests(s: Session, i: nat): seq<seq<string>>
    requires WellFormed(s) && i < |s.mutants|
  {
    s.mutants[i].tests
  }

  /** The covering tests over the first n suites, by result name. */
  function Covering(s: Session, i: nat, n: nat): seq<string>
    requires WellFormed(s) && i < |s.mutants| && n <= |s.suites|
  {
    if n == 0 then [] else Covering(s, i, n - 1) + ResultNames(s.suites[n - 1], Tests(s, i)[n - 1])
  }

  function Covers(s: Session, i: nat): seq<string>
    requires WellFormed(s) && i < |s.mutants|
  {
    Covering(s, i, |s.suites|)
  }

  lemma {:induction false} CoveringHas(s: Session, i: nat, n: nat, j: nat, k: nat)
    requires WellFormed(s) && i < |s.mutants| && j < n <= |s.suites| && k < |Tests(s, i)[j]|
    ensures ResultName(s.suites[j], Tests(s, i)[j][k]) in Covering(s, i, n)
  {
    if j < n - 1 {
      CoveringHas(s, i, n - 1, j, k);
    } else {
      assert ResultNames(s.suites[j], Tests(s, i)[j])[k] == ResultName(s.suites[j], Tests(s, i)[j][k]);
    }
  }

  /** A mutant is not covered exactly if no suite, the package's own or a
      dependent's, has a test for it. */
  lemma {:induction false} NotCoveredIff(s: Session, i: nat, stored: Store)
    requires WellFormed(s) && i < |s.mutants|
    ensures Final(s, i, stored).status == NotCovered <==>
              forall j :: 0 <= j < |s.suites| ==> s.mutants[i].tests[j] == []
  {
    if Covers(s, i) != [] {
      var j, k := CoveringFrom(s, i, |s.suites|, Covers(s, i)[0]);
    }
    forall j | 0 <= j < |s.suites| && s.mutants[i].tests[j] != []
      ensures Covers(s, i) != []
    {
      CoveringHas(s, i, |s.suites|, j, 0);
    }
    Partition(s, stored, i);
  }

  lemma {:induction false} CoveringFrom(s: Session, i: nat, n: nat, name: string) returns (j: nat, k: nat)
    requires WellFormed(s) && i < |s.mutants| && n <= |s.suites| && name in Covering(s, i, n)
    ensures j < n && k < |Tests(s, i)[j]| && name == ResultName(s.suites[j], Tests(s, i)[j][k])
  {
    if name in Covering(s, i, n - 1) {
      j, k := CoveringFrom(s, i, n - 1, name);
    } else {
      j := n - 1;
      k :| 0 <= k < |Tests(s, i)[j]| && ResultNames(s.suites[j], Tests(s, i)[j])[k] == name;
    }
  }

  function RunOf(s: Session, i: nat, a: Attempt): nat -> Outcome {
    (j: nat) => s.run(i, j, a)
  }

  function Judge(s: Session, i: nat, a: Attempt): Verdict
    requires WellFormed(s) && i < |s.mutants|
  {
    VerdictOf(s.suites, Tests(s, i), RunOf(s, i, a), s.failFast)
  }

  /** Earlier kills count only for a verdict alone. */
  function Usable(s: Session, cache: Store): Store {
    if s.failFast && !s.verifyKills then cache else map[]
  }

  function Reused(s: Session, i: nat, stored: Store): string
    requires WellFormed(s) && i < |s.mutants|
  {
    ReusedKiller(EntryOf(stored, s.mutants[i].fp), s.mutants[i].key, s.testHash, Covers(s, i))
  }

  predicate Runs(s: Session, i: nat, stored: Store)
    requires WellFormed(s)
  {
    i < |s.mutants| && Covers(s, i) != [] && Reused(s, i, stored) == ""
  }

  /** Mutant i's result before and after uncertain verdicts are confirmed. */
  function First(s: Session, i: nat, stored: Store): Result
    requires WellFormed(s) && i < |s.mutants|
  {
    if Covers(s, i) == [] then Uncovered()
    else if Reused(s, i, stored) != "" then Result(Killed, [Reused(s, i, stored)], Covers(s, i), true, NoNote)
    else
      var v := Judge(s, i, Parallel);
      Result(v.status, v.killers, Covers(s, i), false, NoNote)
  }

  function Again(s: Session, i: nat, longer: bool): Verdict
    requires WellFormed(s)
  {
    if i < |s.mutants| then Judge(s, i, if longer then AloneLonger else AloneSame) else Verdict(Unset, [])
  }

  function Final(s: Session, i: nat, stored: Store): Result
    requires WellFormed(s) && i < |s.mutants|
  {
    Confirmed(First(s, i, stored), s.verifyKills, Again(s, i, true), Again(s, i, false))
  }

  function Results(s: Session, stored: Store): seq<Result>
    requires WellFormed(s)
  {
    seq(|s.mutants|, i requires 0 <= i < |s.mutants| => Final(s, i, stored))
  }

  // ----- The start order -----

  /** i starts before j: it costs more, or as much and comes first. */
  predicate Before(cost: seq<nat>, i: nat, j: nat)
    requires i < |cost| && j < |cost|
  {
    cost[i] > cost[j] || (cost[i] == cost[j] && i < j)
  }

  predicate Within(order: seq<nat>, n: nat) {
    forall a :: 0 <= a < |order| ==> order[a] < n
  }

  ghost predicate Ranked(cost: seq<nat>, order: seq<nat>)
    requires Within(order, |cost|)
  {
    forall a, b :: 0 <= a < b < |order| ==> Before(cost, order[a], order[b])
  }

  /** Stable insertion: an element goes after those of the same cost. */
  function Place(cost: seq<nat>, i: nat, order: seq<nat>): (r: seq<nat>)
    requires Within(order, |cost|) && i < |cost|
    ensures Within(r, |cost|)
    ensures forall k :: k in r <==> k == i || k in order
  {
    if order == [] || cost[i] > cost[order[0]] then [i] + order
    else
      var r := Place(cost, i, order[1..]);
      assert order == [order[0]] + order[1..];
      [order[0]] + r
  }

  lemma {:induction false} PlaceRanked(cost: seq<nat>, i: nat, order: seq<nat>)
    requires i < |cost| && Within(order, i) && Ranked(cost, order)
    ensures Ranked(cost, Place(cost, i, order))
  {
    if order == [] || cost[i] > cost[order[0]] {
    } else {
      PlaceRanked(cost, i, order[1..]);
      var r := Place(cost, i, order[1..]);
      forall b | 0 <= b < |r|
        ensures Before(cost, order[0], r[b])
      {
        assert r[b] in r && order[0] in order;
      }
    }
  }

  lemma RankedDistinct(cost: seq<nat>, order: seq<nat>)
    requires Within(order, |cost|) && Ranked(cost, order)
    ensures Distinct(order)
  {
  }

  /** Those of the first n mutants that run, longest first, each once. */
  function Order(cost: seq<nat>, runs: seq<bool>, n: nat): (r: seq<nat>)
    requires n <= |runs| <= |cost|
    ensures Within(r, n) && Ranked(cost, r) && Distinct(r)
    ensures forall i: nat :: i in r <==> i < n && runs[i]
  {
    if n == 0 then []
    else
      var before := Order(cost, runs, n - 1);
      if !runs[n - 1] then before
      else
        PlaceRanked(cost, n - 1, before);
        var r := Place(cost, n - 1, before);
        assert forall k :: 0 <= k < |r| ==> r[k] in r;
        RankedDistinct(cost, r);
        r
  }

  /** Of two that run, the costlier one starts first, and of two that cost as
      much the one with the lower index. */
  lemma {:induction false} LongestFirst(cost: seq<nat>, runs: seq<bool>, a: nat, b: nat)
    requires |runs| == |cost| && a < b < |Order(cost, runs, |cost|)|
    ensures var order := Order(cost, runs, |cost|);
            && order[a] < |cost| && order[b] < |cost|
            && (cost[order[a]] > cost[order[b]] || (cost[order[a]] == cost[order[b]] && order[a] < order[b]))
  {
    var order := Order(cost, runs, |cost|);
    assert Before(cost, order[a], order[b]);
  }

  lemma {:induction false} OrderStep(cost: seq<nat>, runs: seq<bool>, n: nat)
    requires n < |runs| <= |cost|
    ensures Order(cost, runs, n + 1) ==
            if runs[n] then Place(cost, n, Order(cost, runs, n)) else Order(cost, runs, n)
  {
  }

  /** There is only one such order of the same mutants. */
  lemma {:induction false} RankedUnique(cost: seq<nat>, a: seq<nat>, b: seq<nat>)
    requires Within(a, |cost|) && Within(b, |cost|) && Ranked(cost, a) && Ranked(cost, b)
    requires forall i :: i in a <==> i in b
    ensures a == b
  {
    if a == [] {
      assert forall k :: 0 <= k < |b| ==> b[k] in a;
    } else {
      assert a[0] in a;
      var k :| 0 <= k < |b| && b[k] == a[0];
      assert b[0] in b;
      var j :| 0 <= j < |a| && a[j] == b[0];
      assert k == 0;
      assert a == [a[0]] + a[1..] && b == [b[0]] + b[1..];
      forall i | i in a[1..]
        ensures i in b[1..]
      {
        assert i in a && i != a[0];
      }
      forall i | i in b[1..]
        ensures i in a[1..]
      {
        assert i in b && i != b[0];
      }
      RankedUnique(cost, a[1..], b[1..]);
    }
  }

  function Costs(s: Session): seq<nat> {
    seq(|s.mutants|, i requires 0 <= i < |s.mutants| => s.mutants[i].cost)
  }

  function RunsOf(s: Session, stored: Store): seq<bool>
    requires WellFormed(s)
  {
    seq(|s.mutants|, i requires 0 <= i < |s.mutants| => Runs(s, i, stored))
  }

  // ----- The loop -----

  function Uncovered(): Result {
    Result(NotCovered, [], [], false, NoNote)
  }

  function Blank(): Result {
    Result(Unset, [], [], false, NoNote)
  }

  /** Mutant i's slot once kills are reused. */
  function Cached(s: Session, i: nat, stored: Store): Result
    requires WellFormed(s) && i < |s.mutants|
  {
    if Covers(s, i) != [] && Reused(s, i, stored) != "" then First(s, i, stored) else Blank()
  }

  /** Reuses the kills that still stand. */
  method ReuseKills(s: Session, stored: Store) returns (results: array<Result>)
    requires WellFormed(s)
    ensures fresh(results) && results.Length == |s.mutants|
    ensures forall k :: 0 <= k < results.Length ==>
              results[k] == Cached(s, k, stored)
  {
    results := new Result[|s.mutants|](_ => Blank());
    for i := 0 to results.Length
      invariant forall k :: 0 <= k < i ==>
                  results[k] == Cached(s, k, stored)
      invariant forall k :: i <= k < results.Length ==> results[k] == Blank()
    {
      if Covers(s, i) == [] {
        continue;
      }
      var killer := Reused(s, i, stored);
      if killer != "" {
        results[i] := Result(Killed, [killer], Covers(s, i), true, NoNote);
      }
    }
  }

  function ToRun(covering: seq<seq<string>>, reused: seq<Result>): (r: seq<bool>)
    requires |covering| == |reused|
  {
    seq(|covering|, i requires 0 <= i < |covering| => covering[i] != [] && !reused[i].cached)
  }

  /** Marks what no test covers and orders what is left to run. */
  method Plan(covering: seq<seq<string>>, cost: seq<nat>, results: array<Result>) returns (order: seq<nat>)
    requires |covering| == |cost| == results.Length
    modifies results
    ensures order == Order(cost, ToRun(covering, old(results[..])), results.Length)
    ensures forall k :: 0 <= k < results.Length ==>
              results[k] == if covering[k] == [] then Uncovered() else old(results[k])
  {
    order := [];
    ghost var runs := ToRun(covering, results[..]);
    for i := 0 to results.Length
      invariant order == Order(cost, runs, i)
      invariant forall k :: 0 <= k < results.Length ==>
                  results[k] == if k < i && covering[k] == [] then Uncovered() else old(results[k])
    {
      OrderStep(cost, runs, i);
      if covering[i] == [] {
        results[i] := Uncovered();
      } else if !results[i].cached {
        order := Place(cost, i, order);
      }
    }
  }

  /** The workers write their results in the order they finish. */
  method RunWorkers(s: Session, stored: Store, finish: seq<nat>, results: array<Result>)
    requires WellFormed(s) && results.Length == |s.mutants|
    requires forall i :: i in finish ==> Runs(s, i, stored)
    modifies results
    ensures forall k :: 0 <= k < results.Length ==>
              results[k] == if k in finish then First(s, k, stored) else old(results[k])
  {
    for f := 0 to |finish|
      invariant forall k :: 0 <= k < results.Length ==>
                  results[k] == if k in finish[..f] then First(s, k, stored) else old(results[k])
    {
      var i := finish[f];
      assert i in finish;
      var v := RunMutantSuites(s.suites, Tests(s, i), RunOf(s, i, Parallel), s.failFast);
      results[i] := Result(v.status, v.killers, Covers(s, i), false, NoNote);
      assert finish[..f + 1] == finish[..f] + [i];
    }
    assert finish[..|finish|] == finish;
  }

  function Coverings(s: Session): seq<seq<string>>
    requires WellFormed(s)
  {
    seq(|s.mutants|, i requires 0 <= i < |s.mutants| => Covers(s, i))
  }

  lemma Planned(s: Session, stored: Store, i: nat)
    requires WellFormed(s) && i < |s.mutants|
    ensures RunsOf(s, stored)[i] == (Coverings(s)[i] != [] && !Cached(s, i, stored).cached)
    ensures !Runs(s, i, stored) ==>
              First(s, i, stored) == if Covers(s, i) == [] then Uncovered() else Cached(s, i, stored)
  {
  }

  lemma PlannedAll(s: Session, stored: Store, reused: seq<Result>)
    requires WellFormed(s) && |reused| == |s.mutants|
    requires forall k :: 0 <= k < |reused| ==> reused[k] == Cached(s, k, stored)
    ensures ToRun(Coverings(s), reused) == RunsOf(s, stored)
  {
    forall i | 0 <= i < |reused|
      ensures ToRun(Coverings(s), reused)[i] == RunsOf(s, stored)[i]
    {
      Planned(s, stored, i);
    }
  }

  method RunLoop(s: Session, stored: Store, finish: seq<nat>) returns (results: array<Result>, order: seq<nat>)
    requires WellFormed(s)
    requires forall i :: i in finish <==> Runs(s, i, stored)
    ensures fresh(results) && results.Length == |s.mutants|
    ensures forall k :: 0 <= k < results.Length ==> results[k] == First(s, k, stored)
    ensures order == Order(Costs(s), RunsOf(s, stored), |s.mutants|)
  {
    results := ReuseKills(s, stored);
    ghost var reused := results[..];
    PlannedAll(s, stored, reused);
    order := Plan(Coverings(s), Costs(s), results);
    RunWorkers(s, stored, finish, results);
    forall i | 0 <= i < results.Length
      ensures results[i] == First(s, i, stored)
    {
      Planned(s, stored, i);
    }
  }

  /** Whatever order the workers finish in, they write the same results. */
  method RunMutants(s: Session, stored: Store, finish: seq<nat>) returns (results: array<Result>, order: seq<nat>)
    requires WellFormed(s)
    requires forall i :: i in finish <==> Runs(s, i, stored)
    ensures fresh(results) && results[..] == Results(s, stored)
    ensures order == Order(Costs(s), RunsOf(s, stored), |s.mutants|)
  {
    results, order := RunLoop(s, stored, finish);
    ConfirmVerdicts(results, s.verifyKills, (i: nat, longer: bool) => Again(s, i, longer));
  }

  /** Without reuse, which process decides: the parallel one, unless it timed
      out, when it is the one alone with the longer budget, or killed and kills
      are verified, when it is the one alone with the first budget. */
  lemma FinalMeans(s: Session, i: nat)
    requires WellFormed(s) && i < |s.mutants| && Covers(s, i) != []
    ensures var r, first := Final(s, i, map[]), Judge(s, i, Parallel);
            var longer, same := Judge(s, i, AloneLonger), Judge(s, i, AloneSame);
            && !r.cached && r.covering == Covers(s, i)
            && (first.status == Timeout ==> r.status == longer.status && r.killing == longer.killers)
            && (first.status == Killed && s.verifyKills && same.status == Survived ==>
                  r.status == Survived && r.killing == same.killers && r.note == NotReproducible)
            && (first.status == Killed && !(s.verifyKills && same.status == Survived) ==>
                  r.status == Killed && r.killing == first.killers)
            && (first.status == Survived ==> r.status == Survived && r.killing == first.killers)
  {
  }

  /** A kill matrix needs every killer, and verified kills a fresh run: neither
      reuses anything. */
  lemma NothingReused(s: Session, cache: Store)
    requires WellFormed(s) && (!s.failFast || s.verifyKills)
    ensures Results(s, Usable(s, cache)) == Results(s, map[])
  {
  }

  /** Otherwise a kill that still stands is reused: a covering test is stored
      for the mutant under its present key, with its present source hash. */
  lemma StandingKillReused(s: Session, cache: Store, i: nat, name: string)
    requires WellFormed(s) && i < |s.mutants| && s.failFast && !s.verifyKills
    requires name in Covers(s, i) && name != "" && s.mutants[i].key != "" && s.mutants[i].fp in cache
    requires var e := cache[s.mutants[i].fp];
             && e.key == s.mutants[i].key && name in e.killers && name in s.testHash
             && e.killers[name] == s.testHash[name] && s.testHash[name] != ""
    ensures var r := Final(s, i, Usable(s, cache));
            r.cached && r.status == Killed && |r.killing| == 1 && r.killing[0] in Covers(s, i)
  {
  }

  /** Every mutant is not covered, reused or run, and only one of them. */
  lemma Partition(s: Session, stored: Store, i: nat)
    requires WellFormed(s) && i < |s.mutants|
    ensures var r := Final(s, i, stored);
            && (r.status == NotCovered <==> Covers(s, i) == [])
            && (r.cached <==> Covers(s, i) != [] && !Runs(s, i, stored))
            && r.status != Unset
  {
  }
}
