/** From the outcomes of test processes to a mutant's verdict. */
module Verdicts {

  /** Unset is the zero value of a result not yet written. */
  datatype Status = Unset | Survived | Killed | Timeout | NotCovered

  /** What one suite's process against a mutant reports. */
  datatype Outcome = Outcome(status: Status, killers: seq<string>)

  /** A test suite: the package's own tests, or a dependent's. */
  datatype Suite = Suite(pkg: string, own: bool)

  function ResultName(s: Suite, test: string): string {
    if s.own then test else s.pkg + "." + test
  }

  function ResultNames(s: Suite, tests: seq<string>): (r: seq<string>)
    ensures |r| == |tests| && forall k :: 0 <= k < |r| ==> r[k] == ResultName(s, tests[k])
    ensures forall k :: 0 <= k < |r| ==> r[k] == if s.own then tests[k] else s.pkg + "." + tests[k]
  {
    seq(|tests|, k requires 0 <= k < |tests| => ResultName(s, tests[k]))
  }

  datatype Verdict = Verdict(status: Status, killers: seq<string>)

  // ----- One mutant over all suites -----

  /** Suite j has tests to run and they end with status st. */
  predicate Ends(tests: seq<seq<string>>, run: nat -> Outcome, j: nat, st: Status) {
    j < |tests| && tests[j] != [] && run(j).status == st
  }

  /** The killing tests of the suites before n. */
  function Killers(suites: seq<Suite>, tests: seq<seq<string>>, run: nat -> Outcome, n: nat): seq<string>
    requires n <= |suites| == |tests|
  {
    if n == 0 then []
    else Killers(suites, tests, run, n - 1)
         + if Ends(tests, run, n - 1, Killed) then ResultNames(suites[n - 1], run(n - 1).killers) else []
  }

  /** Killed if any suite kills, else timed out if any suite does. */
  function Judged(tests: seq<seq<string>>, run: nat -> Outcome): Status {
    if exists j: nat :: j < |tests| && Ends(tests, run, j, Killed) then Killed
    else if exists j: nat :: j < |tests| && Ends(tests, run, j, Timeout) then Timeout
    else Survived
  }

  /** How many suites run: all, or up to the first that kills. */
  function Stop(tests: seq<seq<string>>, run: nat -> Outcome, failFast: bool, n: nat): (r: nat)
    requires n <= |tests|
    ensures n <= r <= |tests|
    ensures !failFast ==> r == |tests|
    ensures failFast ==> forall j: nat :: n <= j < r - 1 ==> !Ends(tests, run, j, Killed)
    ensures r < |tests| ==> failFast && r > n && Ends(tests, run, r - 1, Killed)
    decreases |tests| - n
  {
    if n == |tests| then n
    else if failFast && Ends(tests, run, n, Killed) then n + 1
    else Stop(tests, run, failFast, n + 1)
  }

  function VerdictOf(suites: seq<Suite>, tests: seq<seq<string>>, run: nat -> Outcome, failFast: bool): Verdict
    requires |suites| == |tests|
  {
    Verdict(Judged(tests, run), Killers(suites, tests, run, Stop(tests, run, failFast, 0)))
  }

  /** Runs the suites in turn; with fail-fast it returns at the first kill. */
  method RunMutantSuites(suites: seq<Suite>, tests: seq<seq<string>>, run: nat -> Outcome, failFast: bool)
    returns (v: Verdict)
    requires |suites| == |tests|
    ensures v == VerdictOf(suites, tests, run, failFast)
  {
    var status, killers := Survived, [];
    for i := 0 to |suites|
      invariant status == Killed <==> exists j: nat :: j < i && Ends(tests, run, j, Killed)
      invariant status == Timeout ==> exists j: nat :: j < i && Ends(tests, run, j, Timeout)
      invariant status == Survived ==> forall j: nat :: j < i ==> !Ends(tests, run, j, Timeout)
      invariant status in {Survived, Timeout, Killed}
      invariant failFast ==> status != Killed
      invariant killers == Killers(suites, tests, run, i)
      invariant Stop(tests, run, failFast, 0) == Stop(tests, run, failFast, i)
    {
      if tests[i] == [] {
        continue;
      }
      var out := run(i);
      match out.status {
        case Killed =>
          status := Killed;
          killers := killers + ResultNames(suites[i], out.killers);
          assert Ends(tests, run, i, Killed);
          if failFast {
            return Verdict(status, killers);
          }
        case Timeout =>
          assert Ends(tests, run, i, Timeout);
          if status != Killed {
            status := Timeout;
          }
        case _ =>
      }
    }
    return Verdict(status, killers);
  }

  lemma {:induction false} KillersPrefix(suites: seq<Suite>, tests: seq<seq<string>>, run: nat -> Outcome, m: nat,
                                         n: nat)
    requires m <= n <= |suites| == |tests|
    ensures Killers(suites, tests, run, m) <= Killers(suites, tests, run, n)
  {
    if m < n {
      KillersPrefix(suites, tests, run, m, n - 1);
    }
  }

  /** Stopping at the first killing suite loses killers, never the verdict. */
  lemma {:induction false} FailFastKillers(suites: seq<Suite>, tests: seq<seq<string>>, run: nat -> Outcome)
    requires |suites| == |tests|
    ensures var fast, all := Stop(tests, run, true, 0), Stop(tests, run, false, 0);
            && Killers(suites, tests, run, fast) <= Killers(suites, tests, run, all)
            && (Judged(tests, run) != Killed ==> fast == all)
  {
    var fast := Stop(tests, run, true, 0);
    KillersPrefix(suites, tests, run, fast, |tests|);
    assert fast < |tests| ==> Ends(tests, run, fast - 1, Killed);
  }

  lemma {:induction false} KillersAsked(suites: seq<Suite>, tests: seq<seq<string>>, run: nat -> Outcome,
                                        other: nat -> Outcome, n: nat)
    requires n <= |suites| == |tests|
    requires forall j: nat :: j < |tests| && tests[j] != [] ==> run(j) == other(j)
    ensures Killers(suites, tests, run, n) == Killers(suites, tests, other, n)
  {
    if n > 0 {
      KillersAsked(suites, tests, run, other, n - 1);
    }
  }

  lemma {:induction false} StopAsked(tests: seq<seq<string>>, run: nat -> Outcome, other: nat -> Outcome,
                                     failFast: bool, n: nat)
    requires n <= |tests|
    requires forall j: nat :: j < |tests| && tests[j] != [] ==> run(j) == other(j)
    ensures Stop(tests, run, failFast, n) == Stop(tests, other, failFast, n)
    decreases |tests| - n
  {
    if n < |tests| {
      StopAsked(tests, run, other, failFast, n + 1);
    }
  }

  /** A suite without tests that cover the mutant has no say. */
  lemma {:induction false} OnlyAskedSuites(suites: seq<Suite>, tests: seq<seq<string>>, run: nat -> Outcome,
                                           other: nat -> Outcome, failFast: bool)
    requires |suites| == |tests|
    requires forall j: nat :: j < |tests| && tests[j] != [] ==> run(j) == other(j)
    ensures VerdictOf(suites, tests, run, failFast) == VerdictOf(suites, tests, other, failFast)
  {
    assert forall j: nat, st :: Ends(tests, run, j, st) == Ends(tests, other, j, st);
    StopAsked(tests, run, other, failFast, 0);
    KillersAsked(suites, tests, run, other, Stop(tests, run, failFast, 0));
  }

  // ----- Confirming verdicts -----

  datatype Note = NoNote | TimedOutInParallel(alone: Status) | NotReproducible

  datatype Result = Result(status: Status, killing: seq<string>, covering: seq<string>, cached: bool, note: Note)

  /** Which re-run a verdict needs: none, one with a longer budget, or one as
      the first run was. */
  datatype Rerun = Keep | Longer | Same

  function Uncertain(r: Result, verifyKills: bool): Rerun {
    if r.status == Timeout then Longer else if r.status == Killed && verifyKills then Same else Keep
  }

  /** The result once confirmed, given what the two re-runs would report. */
  function Confirmed(r: Result, verifyKills: bool, longer: Verdict, same: Verdict): Result {
    match Uncertain(r, verifyKills)
    case Keep => r
    case Longer =>
      Result(longer.status, longer.killers, r.covering, r.cached,
             if longer.status == Timeout then r.note else TimedOutInParallel(longer.status))
    case Same =>
      if same.status == Survived then Result(same.status, same.killers, r.covering, r.cached, NotReproducible) else r
  }

  /** Re-runs the uncertain verdicts in place; rerun(i, longer) is mutant i
      alone on the machine. */
  method ConfirmVerdicts(results: array<Result>, verifyKills: bool, rerun: (nat, bool) -> Verdict)
    modifies results
    ensures forall i :: 0 <= i < results.Length ==>
              results[i] == Confirmed(old(results[i]), verifyKills, rerun(i, true), rerun(i, false))
  {
    for i := 0 to results.Length
      invariant forall k :: 0 <= k < i ==>
                  results[k] == Confirmed(old(results[k]), verifyKills, rerun(k, true), rerun(k, false))
      invariant forall k :: i <= k < results.Length ==> results[k] == old(results[k])
    {
      var r := results[i];
      if r.status == Timeout {
        var v := rerun(i, true);
        var again := r.(status := v.status, killing := v.killers);
        if again.status != Timeout {
          again := again.(note := TimedOutInParallel(again.status));
        }
        results[i] := again;
      } else if r.status == Killed && verifyKills {
        var v := rerun(i, false);
        var again := r.(status := v.status, killing := v.killers);
        if again.status == Survived {
          results[i] := again.(note := NotReproducible);
        }
      }
    }
  }

  /** The final results: a timeout has timed out twice, and, when kills are
      verified, a kill has been seen to fail alone unless its re-run only timed
      out.  A kill becomes a survivor exactly when its re-run survives.  A verdict
      that a re-run replaces comes with the killers of that re-run. */
  lemma ConfirmedMeans(r: Result, verifyKills: bool, longer: Verdict, same: Verdict)
    requires r.status != NotCovered
    ensures var c := Confirmed(r, verifyKills, longer, same);
            && (c.status == Timeout <==> r.status == Timeout && longer.status == Timeout)
            && (r.status == Killed ==> (c.status != Killed <==> verifyKills && same.status == Survived))
            && (r.status == Killed && c.status != Killed ==> c.status == Survived && c.note == NotReproducible)
            && (r.status == Survived ==> c == r)
            && (r.status == Timeout ==> c.status == longer.status)
            && c.covering == r.covering && c.cached == r.cached
            && (r.status == Timeout ==> c.killing == longer.killers)
            && (r.status == Timeout && longer.status != Timeout ==> c.note == TimedOutInParallel(longer.status))
            && (r.status == Killed ==> c.killing == if c.status == Killed then r.killing else same.killers)
  {
  }

  /** A verified kill ends as --verify-kills documents it, as a survivor if its
      re-run does not kill and as a kill otherwise, exactly when that re-run
      does not time out. */
  lemma VerifiedKill(r: Result, longer: Verdict, suites: seq<Suite>, tests: seq<seq<string>>, run: nat -> Outcome,
                     failFast: bool)
    requires r.status == Killed && |suites| == |tests|
    ensures var same := VerdictOf(suites, tests, run, failFast);
            var c := Confirmed(r, true, longer, same);
            && (c.status == Survived || c.status == Killed)
            && ((c.status == Survived <==> same.status != Killed) <==> same.status != Timeout)
  {
  }
}
