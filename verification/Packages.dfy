/** All packages of a run: their pipelines end in any order, and the report puts
    their results together in the order the packages were named. */
module Packages {
  import opened Seqs
  import opened Verdicts
  import opened KillCache
  import opened MutantLoop

  /** What a package's pipeline comes to.  A package that does not load has no
      pipeline, and a pipeline can fail at any stage before its mutant loop.
      `suppressed` counts the mutants left out by a directive or an accepted
      fingerprint, `session` holds the mutants left to run. */
  datatype Job =
    | Unloaded(pkg: string, error: string)
    | Loaded(pkg: string, failure: Option<string>, session: Session, stored: Store,
             suppressed: nat, stale: seq<string>, excluded: seq<string>, inventory: seq<string>)

  /** What one pipeline contributes to the report. */
  datatype PkgResult = PkgResult(results: seq<Result>, ignored: nat, stale: seq<string>, excluded: seq<string>,
                                 inventory: seq<string>)

  datatype Ending = Pending | Failed(error: string) | Finished(res: PkgResult)

  predicate Sound(jobs: seq<Job>) {
    forall i :: 0 <= i < |jobs| && jobs[i].Loaded? ==> WellFormed(jobs[i].session)
  }

  /** A pipeline without a mutant to run ends early, with its stale entries
      alone. */
  function Ran(j: Job): Ending
    requires j.Loaded? && WellFormed(j.session)
  {
    if j.failure.Some? then Failed(j.failure.value)
    else if |j.session.mutants| == 0 then Finished(PkgResult([], 0, j.stale, [], []))
    else
      var results := Results(j.session, Usable(j.session, j.stored));
      Finished(PkgResult(results, j.suppressed, j.stale, j.excluded, j.inventory))
  }

  function Ends(j: Job): Ending
    requires j.Loaded? ==> WellFormed(j.session)
  {
    if j.Unloaded? then Failed(j.error) else Ran(j)
  }

  // ----- The report -----

  datatype Report = Report(results: seq<Result>, errors: seq<(string, string)>, ignored: nat, stale: seq<string>,
                           excluded: seq<string>, inventory: map<string, seq<string>>)

  function Nothing(): Report {
    Report([], [], 0, [], [], map[])
  }

  /** One package alone. */
  function Part(pkg: string, end: Ending): Report {
    match end
    case Pending => Nothing()
    case Failed(e) => Report([], [(pkg, e)], 0, [], [], map[])
    case Finished(r) =>
      if r.results == [] then Report([], [], 0, r.stale, [], map[])
      else Report(r.results, [], r.ignored, r.stale, r.excluded, map[pkg := r.inventory])
  }

  /** a and then b, whose inventory replaces one that a has for the same
      package. */
  function Then(a: Report, b: Report): Report {
    Report(a.results + b.results, a.errors + b.errors, a.ignored + b.ignored, a.stale + b.stale,
           a.excluded + b.excluded, a.inventory + b.inventory)
  }

  function PartOf(j: Job): Report
    requires j.Loaded? ==> WellFormed(j.session)
  {
    Part(j.pkg, Ends(j))
  }

  function Collected(jobs: seq<Job>): Report
    requires Sound(jobs)
  {
    if jobs == [] then Nothing()
    else Then(PartOf(jobs[0]), Collected(jobs[1..]))
  }

  lemma InventoryAssoc(a: map<string, seq<string>>, b: map<string, seq<string>>, c: map<string, seq<string>>)
    ensures (a + b) + c == a + (b + c)
  {
  }

  lemma ThenAssoc(a: Report, b: Report, c: Report)
    ensures Then(Then(a, b), c) == Then(a, Then(b, c))
  {
    Assoc(a.results, b.results, c.results);
    Assoc(a.errors, b.errors, c.errors);
    Assoc(a.stale, b.stale, c.stale);
    Assoc(a.excluded, b.excluded, c.excluded);
    InventoryAssoc(a.inventory, b.inventory, c.inventory);
  }

  lemma ThenNothing(a: Report)
    ensures Then(Nothing(), a) == a && Then(a, Nothing()) == a
  {
    assert map[] + a.inventory == a.inventory && a.inventory + map[] == a.inventory;
  }

  lemma {:induction false} CollectedFirst(j: Job, rest: seq<Job>)
    requires Sound(rest) && (j.Loaded? ==> WellFormed(j.session))
    ensures Sound([j] + rest) && Collected([j] + rest) == Then(PartOf(j), Collected(rest))
  {
    assert ([j] + rest)[1..] == rest && ([j] + rest)[0] == j;
  }

  /** The report on two lists of packages is one report after the other: no
      package's part depends on the others, failed ones included. */
  lemma {:induction false} CollectedPlus(a: seq<Job>, b: seq<Job>)
    requires Sound(a) && Sound(b)
    ensures Sound(a + b) && Collected(a + b) == Then(Collected(a), Collected(b))
  {
    if a == [] {
      assert a + b == b;
      ThenNothing(Collected(b));
    } else {
      CollectedPlus(a[1..], b);
      Assoc([a[0]], a[1..], b);
      assert [a[0]] + a[1..] == a;
      CollectedFirst(a[0], a[1..]);
      CollectedFirst(a[0], a[1..] + b);
      ThenAssoc(PartOf(a[0]), Collected(a[1..]), Collected(b));
    }
  }

  lemma {:induction false} OneJob(j: Job)
    requires j.Loaded? ==> WellFormed(j.session)
    ensures Sound([j]) && Collected([j]) == PartOf(j)
  {
    assert [j] + [] == [j];
    CollectedFirst(j, []);
    ThenNothing(PartOf(j));
  }

  /** A failed package adds its error alone, a package without mutants left its
      stale entries alone, and any other all it has. */
  lemma PartMeans(j: Job)
    requires j.Loaded? ==> WellFormed(j.session)
    ensures var part := PartOf(j);
            if j.Unloaded? then part == Report([], [(j.pkg, j.error)], 0, [], [], map[])
            else if j.failure.Some? then part == Report([], [(j.pkg, j.failure.value)], 0, [], [], map[])
            else && part.errors == [] && part.stale == j.stale
                 && part.results == Results(j.session, Usable(j.session, j.stored))
                 && (j.session.mutants != [] ==> part.excluded == j.excluded && part.ignored == j.suppressed
                                                 && part.inventory == map[j.pkg := j.inventory])
  {
  }

  /** Around any package, the report has its part in its place. */
  lemma {:induction false} PartInPlace(jobs: seq<Job>, i: nat)
    requires Sound(jobs) && i < |jobs|
    ensures Sound(jobs[..i]) && Sound(jobs[i + 1..])
    ensures Collected(jobs) == Then(Collected(jobs[..i]), Then(PartOf(jobs[i]), Collected(jobs[i + 1..])))
  {
    assert jobs == jobs[..i] + jobs[i..] && jobs[i..] == [jobs[i]] + jobs[i + 1..];
    CollectedPlus(jobs[..i], jobs[i..]);
    CollectedFirst(jobs[i], jobs[i + 1..]);
  }

  // ----- What is counted as ignored -----

  /** The mutants suppressed in the packages that did not fail. */
  function Suppressed(jobs: seq<Job>): nat {
    if jobs == [] then 0
    else (if jobs[0].Loaded? && jobs[0].failure.None? then jobs[0].suppressed else 0) + Suppressed(jobs[1..])
  }

  /** Every mutant of the package is suppressed or out of scope. */
  predicate NoneLeft(j: Job) {
    j.Loaded? && j.failure.None? && j.session.mutants == []
  }

  lemma PartIgnores(j: Job)
    requires j.Loaded? ==> WellFormed(j.session)
    ensures PartOf(j).ignored == if NoneLeft(j) then 0 else if j.Loaded? && j.failure.None? then j.suppressed else 0
  {
  }

  lemma {:induction false} IgnoredAtMost(jobs: seq<Job>)
    requires Sound(jobs)
    ensures Collected(jobs).ignored <= Suppressed(jobs)
  {
    if jobs != [] {
      PartIgnores(jobs[0]);
      IgnoredAtMost(jobs[1..]);
    }
  }

  /** Suppressed mutants are said to be counted as ignored.  They are exactly
      when no package has suppressed mutants and none left to run. */
  lemma {:induction false} IgnoredMeans(jobs: seq<Job>)
    requires Sound(jobs)
    ensures Collected(jobs).ignored == Suppressed(jobs) <==>
              forall i :: 0 <= i < |jobs| && NoneLeft(jobs[i]) ==> jobs[i].suppressed == 0
  {
    if jobs != [] {
      PartIgnores(jobs[0]);
      IgnoredAtMost(jobs[1..]);
      IgnoredMeans(jobs[1..]);
      assert forall i :: 1 <= i < |jobs| ==> jobs[i] == jobs[1..][i - 1];
    }
  }

  /** A package all of whose mutants are suppressed counts for none. */
  lemma {:induction false} AllSuppressed(jobs: seq<Job>)
    requires |jobs| == 1 && NoneLeft(jobs[0])
    ensures Sound(jobs) && Collected(jobs).ignored == 0 && Suppressed(jobs) == jobs[0].suppressed
  {
    PartIgnores(jobs[0]);
    assert jobs[1..] == [];
  }

  // ----- The run -----

  /** The orders in which things finish: `finish` those of the pipelines, and
      inner[i] the workers of pipeline i. */
  predicate Schedules(jobs: seq<Job>, finish: seq<nat>, inner: seq<seq<nat>>)
    requires Sound(jobs)
  {
    && |inner| == |jobs|
    && (forall i: nat :: i < |jobs| && jobs[i].Loaded? ==> i in finish)
    && (forall i :: i in finish ==> i < |jobs| && jobs[i].Loaded?)
    && (forall i :: 0 <= i < |jobs| && jobs[i].Loaded? ==> Complete(jobs[i].session, jobs[i].stored, inner[i]))
  }

  predicate Complete(s: Session, stored: Store, finish: seq<nat>)
    requires WellFormed(s)
  {
    && (forall k :: k in finish ==> Runs(s, k, Usable(s, stored)))
    && (forall k: nat :: k < |s.mutants| && Runs(s, k, Usable(s, stored)) ==> k in finish)
  }

  /** Runs one pipeline. */
  method RunPipeline(j: Job, finish: seq<nat>) returns (end: Ending)
    requires j.Loaded? && WellFormed(j.session) && Complete(j.session, j.stored, finish)
    ensures end == Ran(j)
  {
    if j.failure.Some? {
      return Failed(j.failure.value);
    }
    if |j.session.mutants| == 0 {
      return Finished(PkgResult([], 0, j.stale, [], []));
    }
    var results, order := RunMutants(j.session, Usable(j.session, j.stored), finish);
    return Finished(PkgResult(results[..], j.suppressed, j.stale, j.excluded, j.inventory));
  }

  /** Each pipeline writes its own job's ending when it ends. */
  method RunPipelines(jobs: seq<Job>, finish: seq<nat>, inner: seq<seq<nat>>) returns (ends: array<Ending>)
    requires Sound(jobs) && Schedules(jobs, finish, inner)
    ensures fresh(ends) && ends.Length == |jobs|
    ensures forall i :: 0 <= i < |jobs| ==> ends[i] == Ends(jobs[i])
  {
    ends := new Ending[|jobs|](i requires 0 <= i < |jobs| =>
                                 if jobs[i].Unloaded? then Failed(jobs[i].error) else Pending);
    for f := 0 to |finish|
      invariant forall i :: 0 <= i < |jobs| ==>
                  ends[i] == if jobs[i].Unloaded? || i in finish[..f] then Ends(jobs[i]) else Pending
    {
      var i := finish[f];
      assert i in finish;
      var end := RunPipeline(jobs[i], inner[i]);
      ends[i] := end;
      assert finish[..f + 1] == finish[..f] + [i];
    }
    assert finish[..|finish|] == finish;
  }

  /** What a job that has ended adds to the report. */
  lemma Added(rep: Report, pkg: string, end: Ending)
    ensures end.Failed? ==> Then(rep, Part(pkg, end)) == rep.(errors := rep.errors + [(pkg, end.error)])
    ensures end.Finished? ==>
              var r := end.res;
              Then(rep, Part(pkg, end)) ==
              if r.results == [] then rep.(stale := rep.stale + r.stale)
              else rep.(stale := rep.stale + r.stale, excluded := rep.excluded + r.excluded,
                        ignored := rep.ignored + r.ignored, results := rep.results + r.results,
                        inventory := rep.inventory[pkg := r.inventory])
  {
    assert rep.results + [] == rep.results && rep.errors + [] == rep.errors;
    assert rep.stale + [] == rep.stale && rep.excluded + [] == rep.excluded;
    assert rep.inventory + map[] == rep.inventory;
  }

  /** Puts the endings together in the order of the jobs. */
  method Collect(jobs: seq<Job>, ends: array<Ending>) returns (rep: Report)
    requires Sound(jobs) && ends.Length == |jobs|
    requires forall i :: 0 <= i < |jobs| ==> ends[i] == Ends(jobs[i])
    ensures rep == Collected(jobs)
  {
    rep := Nothing();
    for i := 0 to |jobs|
      invariant rep == Collected(jobs[..i])
    {
      var pkg := jobs[i].pkg;
      Snoc(jobs, i);
      Added(rep, pkg, ends[i]);
      match ends[i]
      case Failed(e) =>
        rep := rep.(errors := rep.errors + [(pkg, e)]);
      case Finished(r) =>
        rep := rep.(stale := rep.stale + r.stale);
        if r.results == [] {
          continue;
        }
        rep := rep.(excluded := rep.excluded + r.excluded, ignored := rep.ignored + r.ignored,
                    results := rep.results + r.results, inventory := rep.inventory[pkg := r.inventory]);
    }
    assert jobs[..|jobs|] == jobs;
  }

  lemma {:induction false} Snoc(jobs: seq<Job>, i: nat)
    requires Sound(jobs) && i < |jobs|
    ensures Sound(jobs[..i]) && Collected(jobs[..i + 1]) == Then(Collected(jobs[..i]), PartOf(jobs[i]))
  {
    assert jobs[..i + 1] == jobs[..i] + [jobs[i]];
    OneJob(jobs[i]);
    CollectedPlus(jobs[..i], [jobs[i]]);
  }

  /** The report is the same whatever order the packages finish in, and
      whatever order the mutants of each of them do. */
  method RunPackages(jobs: seq<Job>, finish: seq<nat>, inner: seq<seq<nat>>) returns (rep: Report)
    requires Sound(jobs) && Schedules(jobs, finish, inner)
    ensures rep == Collected(jobs)
  {
    var ends := RunPipelines(jobs, finish, inner);
    rep := Collect(jobs, ends);
  }
}
