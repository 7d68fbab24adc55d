/** What a finished run has done, counted from the packages: processes started,
    and the order that re-runs alone depend on. */
module WorkDone {
  import opened Scheduler

  /** The dependents' tests whose coverage is collected; a cached setup needs
      none of its own. */
  function DependentTests(deps: seq<Dependent>): nat {
    if deps == [] then 0 else (if deps[0].cached then 0 else deps[0].tests) + DependentTests(deps[1..])
  }

  /** Two compiles for each dependent, and its baseline unless it is cached. */
  function DependentSolos(deps: seq<Dependent>): nat {
    if deps == [] then 0 else (if deps[0].cached then 2 else 3) + DependentSolos(deps[1..])
  }

  lemma {:induction false} RepeatCount(act: Act, n: nat, b: Act)
    ensures multiset(Repeat(act, n))[b] == if b == act then n else 0
  {
    if n > 0 {
      assert Repeat(act, n) == Repeat(act, n - 1) + [act];
      RepeatCount(act, n - 1, b);
    }
  }

  lemma WorkersCount(n: nat, b: Act)
    ensures multiset(Workers(n))[b] == if b == Spawn then n else if b == Join then 1 else 0
  {
    RepeatCount(Spawn, n, b);
  }

  lemma {:induction false} OwnCount(d: Dependent, b: Act)
    requires b != Join
    ensures var own := Repeat(Solo, 2) + (if d.cached then [] else [Solo] + Workers(d.tests));
            multiset(own)[b] == if b == Spawn then (if d.cached then 0 else d.tests)
                                else if b == Solo then (if d.cached then 2 else 3) else 0
  {
    RepeatCount(Solo, 2, b);
    WorkersCount(d.tests, b);
  }

  lemma {:induction false} DependentsCount(deps: seq<Dependent>, b: Act)
    requires b != Join
    ensures multiset(DependentsScript(deps))[b] ==
            if b == Spawn then DependentTests(deps) else if b == Solo then DependentSolos(deps) else 0
  {
    if deps != [] {
      OwnCount(deps[0], b);
      DependentsCount(deps[1..], b);
    }
  }

  /** What comes before the re-runs. */
  function Before(pkg: Package): seq<Act> {
    Repeat(Solo, 3) + Workers(pkg.tests) + DependentsScript(pkg.deps) + Workers(pkg.mutants)
  }

  lemma {:induction false} BeforeCount(pkg: Package, b: Act)
    requires b != Join
    ensures multiset(Before(pkg))[b] ==
            if b == Spawn then pkg.tests + DependentTests(pkg.deps) + pkg.mutants
            else if b == Solo then 3 + DependentSolos(pkg.deps) else 0
  {
    RepeatCount(Solo, 3, b);
    WorkersCount(pkg.tests, b);
    DependentsCount(pkg.deps, b);
    WorkersCount(pkg.mutants, b);
  }

  lemma {:induction false} ScriptCount(pkg: Package, b: Act)
    requires b != Join
    ensures multiset(Script(pkg))[b] ==
            match b
            case Spawn => pkg.tests + DependentTests(pkg.deps) + pkg.mutants
            case Solo => 3 + DependentSolos(pkg.deps)
            case _ => pkg.reruns
  {
    BeforeCount(pkg, b);
    RepeatCount(Alone, pkg.reruns, b);
    assert Script(pkg) == Before(pkg) + Repeat(Alone, pkg.reruns);
  }

  lemma {:induction false} AloneLast(pkg: Package, i: nat, k: nat)
    requires i < |Script(pkg)| && k < |Script(pkg)| && Script(pkg)[i] == Spawn && Script(pkg)[k] == Alone
    ensures i < k && Join in Script(pkg)[i..k]
  {
    var before, script := Before(pkg), Script(pkg);
    assert script == before + Repeat(Alone, pkg.reruns);
    BeforeCount(pkg, Alone);
    assert forall j :: 0 <= j < |before| ==> before[j] in multiset(before);
    var j := |before| - 1;
    assert before[j] == Join;
    assert script[i..k][j - i] == Join;
  }

  predicate JoinBetween(done: seq<Act>, i: int, k: int) {
    0 <= i < k <= |done| && Join in done[i..k]
  }

  /** Every run alone comes after every worker's start, and after a wait for the
      workers in between. */
  ghost predicate Waits(done: seq<Act>) {
    forall i, k :: 0 <= i < |done| && 0 <= k < |done| && done[i] == Spawn && done[k] == Alone ==>
      JoinBetween(done, i, k)
  }

  lemma {:induction false} ScriptWaits(pkg: Package, done: seq<Act>)
    requires done == Script(pkg)
    ensures Waits(done)
  {
    forall i, k | 0 <= i < |done| && 0 <= k < |done| && done[i] == Spawn && done[k] == Alone
      ensures JoinBetween(done, i, k)
    {
      AloneLast(pkg, i, k);
    }
  }

  lemma {:induction false} ScriptDone(pkg: Package, done: seq<Act>)
    requires done == Script(pkg)
    ensures multiset(done)[Spawn] == pkg.tests + DependentTests(pkg.deps) + pkg.mutants
    ensures multiset(done)[Alone] == pkg.reruns
    ensures multiset(done)[Solo] == 3 + DependentSolos(pkg.deps)
    ensures Waits(done)
  {
    ScriptCount(pkg, Spawn);
    ScriptCount(pkg, Alone);
    ScriptCount(pkg, Solo);
    ScriptWaits(pkg, done);
  }

  lemma {:induction false} CarriedScript(jobs: nat, pkgs: seq<Package>, steps: seq<Step>, p: nat)
    requires jobs >= 1 && p < |pkgs|
    requires Legal(Initial(jobs, pkgs), steps)
    requires forall k :: 0 <= k < |steps| ==> !Fault(steps[k])
    requires forall t :: Enabled(After(Initial(jobs, pkgs), steps), t) ==> Fault(t)
    ensures Carried(Initial(jobs, pkgs), steps, p) == Script(pkgs[p])
  {
    AllWorkDone(jobs, pkgs, steps);
  }

  /** A run without errors that cannot go on has, for each package, run one
      worker for each test whose coverage was collected, each test of an
      uncached dependent and each mutant to run; has run each re-run alone; has
      compiled and taken baselines; and has waited for all workers before any
      re-run. */
  lemma {:induction false} AllWorkCounted(jobs: nat, pkgs: seq<Package>, steps: seq<Step>, p: nat)
    requires jobs >= 1 && p < |pkgs|
    requires Legal(Initial(jobs, pkgs), steps)
    requires forall k :: 0 <= k < |steps| ==> !Fault(steps[k])
    requires forall t :: Enabled(After(Initial(jobs, pkgs), steps), t) ==> Fault(t)
    ensures var done, pkg := Carried(Initial(jobs, pkgs), steps, p), pkgs[p];
            && multiset(done)[Spawn] == pkg.tests + DependentTests(pkg.deps) + pkg.mutants
            && multiset(done)[Alone] == pkg.reruns
            && multiset(done)[Solo] == 3 + DependentSolos(pkg.deps)
            && Waits(done)
  {
    CarriedScript(jobs, pkgs, steps, p);
    ScriptDone(pkgs[p], Carried(Initial(jobs, pkgs), steps, p));
  }

  lemma DirsHold(pkg: Package)
    ensures pkg.dir in LockOrder(Dirs(pkg))
    ensures forall k :: 0 <= k < |pkg.deps| ==> pkg.deps[k].dir in LockOrder(Dirs(pkg))
  {
    assert Dirs(pkg)[0] == pkg.dir;
    assert forall k :: 0 <= k < |pkg.deps| ==> Dirs(pkg)[k + 1] == pkg.deps[k].dir;
  }

  lemma {:induction false} ApartDirs(s: State, a: Package, b: Package, p: nat, q: nat)
    requires Safe(s) && p < |s.pipes| && q < |s.pipes| && p != q
    requires s.pipes[p].dirs == LockOrder(Dirs(a)) && s.pipes[q].dirs == LockOrder(Dirs(b))
    requires Inside(s.pipes[p]) && Inside(s.pipes[q])
    ensures a.dir != b.dir
    ensures forall k :: 0 <= k < |b.deps| ==> a.dir != b.deps[k].dir
    ensures forall k, l :: 0 <= k < |a.deps| && 0 <= l < |b.deps| ==> a.deps[k].dir != b.deps[l].dir
  {
    assert forall d :: UsesDir(s.pipes[p], d) ==> !UsesDir(s.pipes[q], d);
    DirsHold(a);
    DirsHold(b);
    assert UsesDir(s.pipes[p], a.dir);
    assert forall k :: 0 <= k < |a.deps| ==> UsesDir(s.pipes[p], a.deps[k].dir);
    assert UsesDir(s.pipes[q], b.dir);
    assert forall k :: 0 <= k < |b.deps| ==> UsesDir(s.pipes[q], b.deps[k].dir);
  }

  /** Two pipelines inside at once share no directory: neither the packages' own
      nor those of their dependents. */
  lemma {:induction false} DirectoriesApart(jobs: nat, pkgs: seq<Package>, steps: seq<Step>, p: nat, q: nat)
    requires jobs >= 1 && p < |pkgs| && q < |pkgs| && p != q
    requires Legal(Initial(jobs, pkgs), steps)
    ensures var last := After(Initial(jobs, pkgs), steps);
            && |last.pipes| == |pkgs|
            && (Inside(last.pipes[p]) && Inside(last.pipes[q]) ==>
                  && pkgs[p].dir != pkgs[q].dir
                  && (forall k :: 0 <= k < |pkgs[q].deps| ==> pkgs[p].dir != pkgs[q].deps[k].dir)
                  && (forall k, l :: 0 <= k < |pkgs[p].deps| && 0 <= l < |pkgs[q].deps| ==>
                        pkgs[p].deps[k].dir != pkgs[q].deps[l].dir))
  {
    AlwaysSafe(jobs, pkgs, steps);
    var last := After(Initial(jobs, pkgs), steps);
    if Inside(last.pipes[p]) && Inside(last.pipes[q]) {
      ApartDirs(last, pkgs[p], pkgs[q], p, q);
    }
  }
}
