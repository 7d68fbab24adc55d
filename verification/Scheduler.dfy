/** The run scheduler as a transition system: any number of pipelines, one FIFO
    weighted semaphore of `jobs` worker slots, a second bound on the pipelines
    in flight, and one lock for each directory. */
module Scheduler {
  import opened Seqs

  // ----- States -----

  /** What a pipeline does between two points where it may wait.  Solo holds a
      slot for one process; Spawn takes a slot and hands it to a worker; Join
      waits for the workers; Alone holds every slot for one process. */
  datatype Act = Solo | Spawn | Join | Alone

  datatype Phase =
    | Waiting                           // not started
    | Locking(k: nat)                   // holds its first k directory locks
    | Running(todo: seq<Act>)           // inside, holding no slot itself
    | Queued(act: Act, todo: seq<Act>)  // in the slot semaphore's queue
    | Using(act: Act, todo: seq<Act>)   // holds the slots of act
    | Unlocking(k: nat)                 // has released its first k locks
    | Done

  /** A directory is its rank in the order of the paths.  A pipeline is broken
      once an error has occurred in it. */
  datatype Pipe = Pipe(dirs: seq<int>, script: seq<Act>, phase: Phase, workers: nat, broken: bool)

  /** flights counts the pipelines in flight, held maps each locked directory
      to the pipeline whose lock it is, and cur counts the slots taken. */
  datatype State = State(jobs: nat, pipes: seq<Pipe>, started: nat, flights: int, held: map<int, nat>,
                         cur: int, queue: seq<nat>)

  datatype Step =
    | Start
    | Lock(p: nat)          // take the next directory lock, or enter
    | Request(p: nat)       // ask for the slots of the next act
    | Pass(p: nat)          // the workers are done
    | Hand(p: nat)          // give the slot to a new worker
    | Finish(p: nat)        // release the slots held
    | WorkerDone(p: nat)    // a worker releases its slot
    | Fail(p: nat)          // an error occurs
    | Cancel(p: nat)        // after an error: stop waiting for a worker's slot
    | Drop(p: nat, n: nat)  // after an error: skip the next n acts
    | Leave(p: nat)
    | Unlock(p: nat)        // release the next directory lock, or exit

  // ----- The directory locks' order -----

  predicate Increasing(s: seq<int>) {
    forall i, j :: 0 <= i < j < |s| ==> s[i] < s[j]
  }

  function Insert(d: int, s: seq<int>): (r: seq<int>)
    requires Increasing(s)
    ensures Increasing(r)
    ensures forall e :: e in r <==> e == d || e in s
  {
    if s == [] || d < s[0] then [d] + s
    else if d == s[0] then s
    else
      var r := Insert(d, s[1..]);
      assert forall e :: e in s <==> e == s[0] || e in s[1..];
      assert forall i :: 0 <= i < |r| ==> r[i] in r;
      [s[0]] + r
  }

  /** Sorted and compacted. */
  function LockOrder(dirs: seq<int>): (r: seq<int>)
    ensures Increasing(r)
    ensures forall d :: d in r <==> d in dirs
  {
    if dirs == [] then [] else Insert(dirs[0], LockOrder(dirs[1..]))
  }

  // ----- What a pipeline holds -----

  function Weight(act: Act, jobs: nat): nat {
    if act == Alone then jobs else 1
  }

  /** The slots a pipeline's own goroutine and its workers hold. */
  function Slots(x: Pipe, jobs: nat): nat {
    x.workers + if x.phase.Using? then Weight(x.phase.act, jobs) else 0
  }

  predicate Holds(x: Pipe, d: int) {
    match x.phase
    case Waiting => false
    case Locking(k) => k <= |x.dirs| && d in x.dirs[..k]
    case Unlocking(k) => k <= |x.dirs| && d in x.dirs[k..]
    case Done => false
    case _ => d in x.dirs
  }

  predicate InFlight(x: Pipe) {
    !x.phase.Waiting? && !x.phase.Done?
  }

  /** Inside runPackage, where tests may run in its directories. */
  predicate Inside(x: Pipe) {
    x.phase.Running? || x.phase.Queued? || x.phase.Using?
  }

  function Total(w: Pipe -> nat, pipes: seq<Pipe>): nat {
    if pipes == [] then 0 else w(pipes[0]) + Total(w, pipes[1..])
  }

  function SlotsOf(jobs: nat): Pipe -> nat {
    x => Slots(x, jobs)
  }

  function Flights(): Pipe -> nat {
    x => if InFlight(x) then 1 else 0
  }

  // ----- Steps -----

  /** The semaphore's notify loop: grant the head of the queue while it fits. */
  ghost function Notify(s: State): State
    requires QueuedWell(s)
    decreases |s.queue|
  {
    if s.queue != [] && s.cur + HeadWeight(s) <= s.jobs then Notify(Grant(s)) else s
  }

  ghost predicate QueuedWell(s: State) {
    && (forall k :: 0 <= k < |s.queue| ==> s.queue[k] < |s.pipes| && s.pipes[s.queue[k]].phase.Queued?)
    && Distinct(s.queue)
  }

  ghost function HeadWeight(s: State): nat
    requires QueuedWell(s) && s.queue != []
  {
    Weight(s.pipes[s.queue[0]].phase.act, s.jobs)
  }

  ghost function Grant(s: State): (r: State)
    requires QueuedWell(s) && s.queue != []
    ensures QueuedWell(r)
  {
    var x := s.pipes[s.queue[0]];
    var y := x.(phase := Using(x.phase.act, x.phase.todo));
    s.(pipes := s.pipes[s.queue[0] := y], cur := s.cur + HeadWeight(s), queue := s.queue[1..])
  }

  predicate Enabled(s: State, t: Step) {
    match t
    case Start => s.started < |s.pipes| && s.flights < s.jobs
    case Lock(p) =>
      && p < |s.pipes| && s.pipes[p].phase.Locking?
      && (s.pipes[p].phase.k < |s.pipes[p].dirs| ==> s.pipes[p].dirs[s.pipes[p].phase.k] !in s.held)
    case Request(p) => RunsNext(s, p) && s.pipes[p].phase.todo[0] != Join
    case Pass(p) => RunsNext(s, p) && s.pipes[p].phase.todo[0] == Join && s.pipes[p].workers == 0
    case Hand(p) => p < |s.pipes| && s.pipes[p].phase.Using? && s.pipes[p].phase.act == Spawn
    case Finish(p) => p < |s.pipes| && s.pipes[p].phase.Using? && s.pipes[p].phase.act != Spawn
    case WorkerDone(p) => p < |s.pipes| && s.pipes[p].workers > 0
    case Fail(p) => p < |s.pipes| && Inside(s.pipes[p]) && !s.pipes[p].broken
    case Cancel(p) =>
      p < |s.pipes| && s.pipes[p].broken && s.pipes[p].phase.Queued? && s.pipes[p].phase.act == Spawn
    case Drop(p, n) =>
      && RunsNext(s, p) && s.pipes[p].broken && 0 < n <= |s.pipes[p].phase.todo|
      && (s.pipes[p].workers > 0 ==> Join in s.pipes[p].phase.todo[n..])
    case Leave(p) => p < |s.pipes| && s.pipes[p].phase == Running([]) && s.pipes[p].workers == 0
    case Unlock(p) => p < |s.pipes| && s.pipes[p].phase.Unlocking?
  }

  predicate RunsNext(s: State, p: nat) {
    p < |s.pipes| && s.pipes[p].phase.Running? && s.pipes[p].phase.todo != []
  }

  /** A slot request is granted at once if nothing waits and it fits. */
  predicate Granted(s: State, act: Act) {
    s.queue == [] && s.cur + Weight(act, s.jobs) <= s.jobs
  }

  /** The pipeline a step moves, and what it becomes. */
  function Mover(s: State, t: Step): nat {
    if t.Start? then s.started else t.p
  }

  function Moved(s: State, t: Step): Pipe
    requires Enabled(s, t)
  {
    var x := s.pipes[Mover(s, t)];
    match t
    case Start => x.(phase := Locking(0))
    case Lock(_) =>
      if x.phase.k < |x.dirs| then x.(phase := Locking(x.phase.k + 1)) else x.(phase := Running(x.script))
    case Request(_) =>
      var act, todo := x.phase.todo[0], x.phase.todo[1..];
      if Granted(s, act) then x.(phase := Using(act, todo)) else x.(phase := Queued(act, todo))
    case Pass(_) => x.(phase := Running(x.phase.todo[1..]))
    case Hand(_) => x.(phase := Running(x.phase.todo), workers := x.workers + 1)
    case Finish(_) => x.(phase := Running(x.phase.todo))
    case WorkerDone(_) => x.(workers := x.workers - 1)
    case Fail(_) => x.(broken := true)
    case Cancel(_) => x.(phase := Running(x.phase.todo))
    case Drop(_, n) => x.(phase := Running(x.phase.todo[n..]))
    case Leave(_) => x.(phase := Unlocking(0))
    case Unlock(_) => if x.phase.k < |x.dirs| then x.(phase := Unlocking(x.phase.k + 1)) else x.(phase := Done)
  }

  function Without(queue: seq<nat>, p: nat): (r: seq<nat>)
    ensures forall q :: q in r <==> q in queue && q != p
    ensures |r| <= |queue|
  {
    if queue == [] then []
    else if queue[0] == p then Without(queue[1..], p)
    else [queue[0]] + Without(queue[1..], p)
  }

  function CurAfter(s: State, t: Step): int
    requires Enabled(s, t)
  {
    match t
    case Request(p) =>
      var act := s.pipes[p].phase.todo[0];
      if Granted(s, act) then s.cur + Weight(act, s.jobs) else s.cur
    case Finish(p) => s.cur - Weight(s.pipes[p].phase.act, s.jobs)
    case WorkerDone(_) => s.cur - 1
    case _ => s.cur
  }

  function QueueAfter(s: State, t: Step): seq<nat>
    requires Enabled(s, t)
  {
    match t
    case Request(p) => if Granted(s, s.pipes[p].phase.todo[0]) then s.queue else s.queue + [p]
    case Cancel(p) => Without(s.queue, p)
    case _ => s.queue
  }

  function HeldAfter(s: State, t: Step): map<int, nat>
    requires Enabled(s, t)
  {
    match t
    case Lock(p) =>
      var x := s.pipes[p];
      if x.phase.k < |x.dirs| then s.held[x.dirs[x.phase.k] := p] else s.held
    case Unlock(p) =>
      var x := s.pipes[p];
      if x.phase.k < |x.dirs| then s.held - {x.dirs[x.phase.k]} else s.held
    case _ => s.held
  }

  function FlightsAfter(s: State, t: Step): int
    requires Enabled(s, t)
  {
    match t
    case Start => s.flights + 1
    case Unlock(p) => if s.pipes[p].phase.k < |s.pipes[p].dirs| then s.flights else s.flights - 1
    case _ => s.flights
  }

  /** The state after the moved pipeline, before the queue is served. */
  function Shift(s: State, t: Step): State
    requires Enabled(s, t)
  {
    State(s.jobs, s.pipes[Mover(s, t) := Moved(s, t)], if t.Start? then s.started + 1 else s.started,
          FlightsAfter(s, t), HeldAfter(s, t), CurAfter(s, t), QueueAfter(s, t))
  }

  ghost function Next(s: State, t: Step): State
    requires Inv(s) && Enabled(s, t)
  {
    StepKeepsBase(s, t);
    Notify(Shift(s, t))
  }

  // ----- The invariant -----

  /** Every worker started is waited for. */
  predicate Joined(todo: seq<Act>) {
    forall i :: 0 <= i < |todo| && todo[i] == Spawn ==> Join in todo[i + 1..]
  }

  predicate PipeOk(x: Pipe) {
    && Increasing(x.dirs) && Joined(x.script)
    && (x.workers > 0 ==> Inside(x) && Join in x.phase.todo)
    && (Inside(x) ==> Joined(x.phase.todo))
    && (x.phase.Queued? || x.phase.Using? ==>
          x.phase.act != Join && (x.phase.act == Spawn ==> Join in x.phase.todo))
    && (x.phase.Locking? || x.phase.Unlocking? ==> x.phase.k <= |x.dirs|)
  }

  /** The lock of d is p's exactly while p is past taking it. */
  ghost predicate Owned(pipes: seq<Pipe>, held: map<int, nat>, p: nat, d: int)
    requires p < |pipes|
  {
    (d in held && held[d] == p) <==> Holds(pipes[p], d)
  }

  ghost predicate Locks(pipes: seq<Pipe>, held: map<int, nat>) {
    && (forall p: nat, d :: p < |pipes| ==> Owned(pipes, held, p, d))
    && (forall d :: d in held ==> held[d] < |pipes|)
  }

  /** The queue holds exactly the queued pipelines, each once. */
  ghost predicate Listed(pipes: seq<Pipe>, queue: seq<nat>) {
    && Distinct(queue)
    && (forall k :: 0 <= k < |queue| ==> queue[k] < |pipes|)
    && (forall p :: 0 <= p < |pipes| ==> (pipes[p].phase.Queued? <==> p in queue))
  }

  /** Everything that holds even between a release and the notify loop. */
  ghost predicate Base(s: State) {
    && s.jobs >= 1 && s.started <= |s.pipes|
    && (forall p :: 0 <= p < |s.pipes| ==> PipeOk(s.pipes[p]))
    && (forall p :: 0 <= p < |s.pipes| ==> (s.pipes[p].phase.Waiting? <==> p >= s.started))
    && Listed(s.pipes, s.queue) && QueuedWell(s)
    && s.cur == Total(SlotsOf(s.jobs), s.pipes) && s.cur <= s.jobs
    && s.flights == Total(Flights(), s.pipes) && s.flights <= s.jobs
    && Locks(s.pipes, s.held)
  }

  /** A pipeline waits in the queue only while its head does not fit. */
  ghost predicate Settled(s: State)
    requires QueuedWell(s)
  {
    s.queue != [] ==> s.cur + HeadWeight(s) > s.jobs
  }

  ghost predicate Inv(s: State) {
    Base(s) && Settled(s)
  }

  /** What the moved pipeline's own changes rest on. */
  predicate Ready(s: State, t: Step) {
    && Enabled(s, t) && Mover(s, t) < |s.pipes| && PipeOk(s.pipes[Mover(s, t)])
    && (t.Start? ==> s.pipes[Mover(s, t)].phase.Waiting?)
  }

  lemma BaseReady(s: State, t: Step)
    requires Base(s) && Enabled(s, t)
    ensures Ready(s, t)
  {
  }

  lemma {:induction false} TotalUpdate(w: Pipe -> nat, pipes: seq<Pipe>, p: nat, x: Pipe)
    requires p < |pipes|
    ensures Total(w, pipes[p := x]) == Total(w, pipes) - w(pipes[p]) + w(x)
    ensures Total(w, pipes) >= w(pipes[p])
  {
    if p == 0 {
      assert pipes[p := x][1..] == pipes[1..];
    } else {
      assert pipes[p := x][1..] == pipes[1..][p - 1 := x];
      TotalUpdate(w, pipes[1..], p - 1, x);
    }
  }

  lemma {:induction false} WithoutDistinct(queue: seq<nat>, p: nat)
    requires Distinct(queue)
    ensures Distinct(Without(queue, p))
  {
    if queue != [] {
      WithoutDistinct(queue[1..], p);
      var r := Without(queue[1..], p);
      assert forall k :: 0 <= k < |r| ==> r[k] in queue[1..];
    }
  }

  lemma JoinedDrop(todo: seq<Act>, n: nat)
    requires Joined(todo) && n <= |todo|
    ensures Joined(todo[n..])
  {
    forall i | 0 <= i < |todo[n..]| && todo[n..][i] == Spawn
      ensures Join in todo[n..][i + 1..]
    {
      assert todo[n..][i + 1..] == todo[n + i + 1..];
    }
  }

  lemma MovedOk(s: State, t: Step)
    requires Ready(s, t)
    ensures Mover(s, t) < |s.pipes| && PipeOk(Moved(s, t)) && Moved(s, t).dirs == s.pipes[Mover(s, t)].dirs
  {
    var x := s.pipes[Mover(s, t)];
    if t.Drop? {
      JoinedDrop(x.phase.todo, t.n);
    } else if t.Request? || t.Pass? {
      JoinedDrop(x.phase.todo, 1);
      assert x.phase.todo == [x.phase.todo[0]] + x.phase.todo[1..];
    }
  }

  lemma OneMore(dirs: seq<int>, k: nat, d: int)
    requires k < |dirs|
    ensures d in dirs[..k + 1] <==> d in dirs[..k] || d == dirs[k]
    ensures d in dirs[k..] <==> d in dirs[k + 1..] || d == dirs[k]
  {
    assert dirs[..k + 1] == dirs[..k] + [dirs[k]];
    assert dirs[k..] == [dirs[k]] + dirs[k + 1..];
  }

  /** The map of held locks follows the pipelines. */
  lemma ShiftLocks(s: State, t: Step)
    requires Base(s) && Enabled(s, t)
    ensures Locks(Shift(s, t).pipes, Shift(s, t).held)
  {
    BaseReady(s, t);
    var r, m := Shift(s, t), Mover(s, t);
    forall p: nat, d | p < |r.pipes|
      ensures Owned(r.pipes, r.held, p, d)
    {
      assert Owned(s.pipes, s.held, p, d);
      if p == m {
        MovedHolds(s, t, d);
      } else if t.Unlock? && s.pipes[m].phase.k < |s.pipes[m].dirs| {
        assert Owned(s.pipes, s.held, m, s.pipes[m].dirs[s.pipes[m].phase.k]);
      }
    }
  }

  lemma MovedHolds(s: State, t: Step, d: int)
    requires Ready(s, t) && Owned(s.pipes, s.held, Mover(s, t), d)
    ensures var h := HeldAfter(s, t); (d in h && h[d] == Mover(s, t)) <==> Holds(Moved(s, t), d)
  {
    var m := Mover(s, t);
    var x := s.pipes[m];
    if t.Lock? || t.Unlock? {
      LockMoved(s, t, d);
    } else if t.Leave? {
      assert x.dirs[0..] == x.dirs;
    }
  }

  lemma LockMoved(s: State, t: Step, d: int)
    requires Ready(s, t) && (t.Lock? || t.Unlock?) && Owned(s.pipes, s.held, t.p, d)
    ensures var h := HeldAfter(s, t); (d in h && h[d] == t.p) <==> Holds(Moved(s, t), d)
  {
    var x := s.pipes[t.p];
    if x.phase.k < |x.dirs| {
      OneMore(x.dirs, x.phase.k, d);
    } else {
      assert x.dirs[..|x.dirs|] == x.dirs;
    }
  }

  lemma MovedSlots(s: State, t: Step)
    requires Ready(s, t) && s.cur <= s.jobs
    ensures CurAfter(s, t) == s.cur - Slots(s.pipes[Mover(s, t)], s.jobs) + Slots(Moved(s, t), s.jobs)
    ensures CurAfter(s, t) <= s.jobs
  {
  }

  lemma MovedFlight(s: State, t: Step)
    requires Ready(s, t) && s.flights <= s.jobs
    ensures FlightsAfter(s, t) == s.flights - Flights()(s.pipes[Mover(s, t)]) + Flights()(Moved(s, t))
    ensures FlightsAfter(s, t) <= s.jobs
  {
  }

  lemma ShiftCounts(s: State, t: Step)
    requires Base(s) && Enabled(s, t)
    ensures var r := Shift(s, t);
            && r.cur == Total(SlotsOf(r.jobs), r.pipes) && r.cur <= r.jobs
            && r.flights == Total(Flights(), r.pipes) && r.flights <= r.jobs
  {
    BaseReady(s, t);
    MovedSlots(s, t);
    MovedFlight(s, t);
    TotalUpdate(SlotsOf(s.jobs), s.pipes, Mover(s, t), Moved(s, t));
    TotalUpdate(Flights(), s.pipes, Mover(s, t), Moved(s, t));
  }

  lemma {:induction false} Pushed(pipes: seq<Pipe>, queue: seq<nat>, p: nat, x: Pipe)
    requires Listed(pipes, queue) && p < |pipes| && x.phase.Queued? && !pipes[p].phase.Queued?
    ensures Listed(pipes[p := x], queue + [p])
  {
    DistinctSnoc(queue, p);
    assert forall q :: q in queue + [p] <==> q in queue || q == p;
  }

  lemma {:induction false} Popped(pipes: seq<Pipe>, queue: seq<nat>, p: nat, x: Pipe)
    requires Listed(pipes, queue) && p < |pipes| && !x.phase.Queued?
    ensures Listed(pipes[p := x], Without(queue, p))
  {
    WithoutDistinct(queue, p);
    var r := Without(queue, p);
    assert forall k :: 0 <= k < |r| ==> r[k] in r;
  }

  lemma ShiftQueue(s: State, t: Step)
    requires Base(s) && Enabled(s, t)
    ensures Listed(Shift(s, t).pipes, Shift(s, t).queue)
  {
    var p, x := Mover(s, t), Moved(s, t);
    if x.phase.Queued? && !s.pipes[p].phase.Queued? {
      Pushed(s.pipes, s.queue, p, x);
    } else if t.Cancel? {
      Popped(s.pipes, s.queue, p, x);
    }
  }

  lemma StepKeepsBase(s: State, t: Step)
    requires Base(s) && Enabled(s, t)
    ensures Base(Shift(s, t))
  {
    BaseReady(s, t);
    ShiftCounts(s, t);
    ShiftQueue(s, t);
    var r := Shift(s, t);
    assert forall k :: 0 <= k < |r.queue| ==> r.queue[k] in r.queue;
    MovedOk(s, t);
    ShiftLocks(s, t);
  }

  lemma GrantKeepsBase(s: State)
    requires Base(s) && s.queue != [] && s.cur + HeadWeight(s) <= s.jobs
    ensures Base(Grant(s))
  {
    var p := s.queue[0];
    var x := s.pipes[p];
    var y := x.(phase := Using(x.phase.act, x.phase.todo));
    TotalUpdate(SlotsOf(s.jobs), s.pipes, p, y);
    TotalUpdate(Flights(), s.pipes, p, y);
    assert forall q :: q in s.queue <==> q == p || q in s.queue[1..];
    var pipes := s.pipes[p := y];
    forall q: nat, d | q < |pipes|
      ensures Owned(pipes, s.held, q, d)
    {
      assert Owned(s.pipes, s.held, q, d);
    }
  }

  predicate SameDirs(a: seq<Pipe>, b: seq<Pipe>) {
    |a| == |b| && forall p :: 0 <= p < |a| ==> a[p].dirs == b[p].dirs
  }

  lemma {:induction false} NotifySettles(s: State)
    requires Base(s)
    ensures Inv(Notify(s)) && Notify(s).jobs == s.jobs && SameDirs(Notify(s).pipes, s.pipes)
    decreases |s.queue|
  {
    if s.queue != [] && s.cur + HeadWeight(s) <= s.jobs {
      GrantKeepsBase(s);
      NotifySettles(Grant(s));
    }
  }

  /** Every step keeps the invariant. */
  lemma StepKeeps(s: State, t: Step)
    requires Inv(s) && Enabled(s, t)
    ensures Inv(Next(s, t)) && Next(s, t).jobs == s.jobs && SameDirs(Next(s, t).pipes, s.pipes)
  {
    BaseReady(s, t);
    MovedOk(s, t);
    StepKeepsBase(s, t);
    NotifySettles(Shift(s, t));
  }

  // ----- Runs -----

  ghost predicate Legal(s: State, steps: seq<Step>)
    requires Inv(s)
    decreases |steps|
  {
    steps != [] ==> Enabled(s, steps[0]) && (StepKeeps(s, steps[0]); Legal(Next(s, steps[0]), steps[1..]))
  }

  ghost function After(s: State, steps: seq<Step>): State
    requires Inv(s) && Legal(s, steps)
    decreases |steps|
  {
    if steps == [] then s
    else
      StepKeeps(s, steps[0]);
      After(Next(s, steps[0]), steps[1..])
  }

  /** What each package asks of the scheduler: the tests whose coverage is
      collected, its dependents, its mutants and the verdicts to confirm. */
  datatype Dependent = Dependent(dir: int, cached: bool, tests: nat)
  datatype Package = Package(dir: int, tests: nat, deps: seq<Dependent>, mutants: nat, reruns: nat)

  function Repeat(act: Act, n: nat): (r: seq<Act>)
    ensures |r| == n && forall i :: 0 <= i < n ==> r[i] == act
  {
    seq(n, _ => act)
  }

  function Workers(n: nat): seq<Act> {
    Repeat(Spawn, n) + [Join]
  }

  function DependentsScript(deps: seq<Dependent>): seq<Act> {
    if deps == [] then []
    else
      Repeat(Solo, 2) + (if deps[0].cached then [] else [Solo] + Workers(deps[0].tests)) + DependentsScript(deps[1..])
  }

  /** The slot uses of runPackage: two compiles, the baseline, coverage, the
      dependents, the mutant loop, and one re-run at a time. */
  function Script(pkg: Package): seq<Act> {
    Repeat(Solo, 3) + Workers(pkg.tests) + DependentsScript(pkg.deps) + Workers(pkg.mutants) + Repeat(Alone, pkg.reruns)
  }

  function Dirs(pkg: Package): seq<int> {
    [pkg.dir] + seq(|pkg.deps|, i requires 0 <= i < |pkg.deps| => pkg.deps[i].dir)
  }

  lemma JoinedPlus(a: seq<Act>, b: seq<Act>)
    requires Joined(a) && Joined(b)
    ensures Joined(a + b)
  {
    forall i | 0 <= i < |a + b| && (a + b)[i] == Spawn
      ensures Join in (a + b)[i + 1..]
    {
      if i < |a| {
        assert (a + b)[i + 1..] == a[i + 1..] + b;
      } else {
        assert (a + b)[i + 1..] == b[i - |a| + 1..];
      }
    }
  }

  lemma WorkersJoined(n: nat)
    ensures Joined(Workers(n))
  {
    assert forall i {:trigger Workers(n)[i + 1..]} :: 0 <= i < n ==> Workers(n)[i + 1..][n - i - 1] == Join;
  }

  lemma {:induction false} DependentsJoined(deps: seq<Dependent>)
    ensures Joined(DependentsScript(deps))
  {
    if deps != [] {
      DependentsJoined(deps[1..]);
      WorkersJoined(deps[0].tests);
      JoinedPlus([Solo], Workers(deps[0].tests));
      var own := if deps[0].cached then [] else [Solo] + Workers(deps[0].tests);
      JoinedPlus(Repeat(Solo, 2), own);
      JoinedPlus(Repeat(Solo, 2) + own, DependentsScript(deps[1..]));
    }
  }

  lemma ScriptJoined(pkg: Package)
    ensures Joined(Script(pkg))
  {
    WorkersJoined(pkg.tests);
    WorkersJoined(pkg.mutants);
    DependentsJoined(pkg.deps);
    var a := Repeat(Solo, 3) + Workers(pkg.tests);
    JoinedPlus(Repeat(Solo, 3), Workers(pkg.tests));
    JoinedPlus(a, DependentsScript(pkg.deps));
    JoinedPlus(a + DependentsScript(pkg.deps), Workers(pkg.mutants));
    JoinedPlus(a + DependentsScript(pkg.deps) + Workers(pkg.mutants), Repeat(Alone, pkg.reruns));
  }

  lemma {:induction false} TotalZero(w: Pipe -> nat, pipes: seq<Pipe>)
    requires forall p :: 0 <= p < |pipes| ==> w(pipes[p]) == 0
    ensures Total(w, pipes) == 0
  {
    if pipes != [] {
      TotalZero(w, pipes[1..]);
    }
  }

  function NewPipe(pkg: Package): (x: Pipe)
    ensures PipeOk(x) && x.phase == Waiting && x.workers == 0 && x.script == Script(pkg)
  {
    ScriptJoined(pkg);
    Pipe(LockOrder(Dirs(pkg)), Script(pkg), Waiting, 0, false)
  }

  ghost function Initial(jobs: nat, pkgs: seq<Package>): (s: State)
    requires jobs >= 1
    ensures Inv(s) && s.jobs == jobs && |s.pipes| == |pkgs|
    ensures forall p :: 0 <= p < |pkgs| ==> s.pipes[p] == NewPipe(pkgs[p])
  {
    var pipes := seq(|pkgs|, p requires 0 <= p < |pkgs| => NewPipe(pkgs[p]));
    TotalZero(SlotsOf(jobs), pipes);
    TotalZero(Flights(), pipes);
    State(jobs, pipes, 0, 0, map[], 0, [])
  }

  lemma {:induction false} AfterKeeps(s: State, steps: seq<Step>)
    requires Inv(s) && Legal(s, steps)
    ensures Inv(After(s, steps)) && After(s, steps).jobs == s.jobs && SameDirs(After(s, steps).pipes, s.pipes)
    decreases |steps|
  {
    if steps != [] {
      StepKeeps(s, steps[0]);
      AfterKeeps(Next(s, steps[0]), steps[1..]);
    }
  }

  // ----- Safety -----

  /** The compile and test processes a pipeline has running. */
  function Processes(x: Pipe): nat {
    x.workers + if x.phase.Using? && x.phase.act != Spawn then 1 else 0
  }

  lemma {:induction false} TotalBelow(v: Pipe -> nat, w: Pipe -> nat, pipes: seq<Pipe>)
    requires forall p :: 0 <= p < |pipes| ==> v(pipes[p]) <= w(pipes[p])
    ensures Total(v, pipes) <= Total(w, pipes)
  {
    if pipes != [] {
      TotalBelow(v, w, pipes[1..]);
    }
  }

  lemma {:induction false} TotalTwo(w: Pipe -> nat, pipes: seq<Pipe>, p: nat, q: nat)
    requires p < |pipes| && q < |pipes| && p != q
    ensures w(pipes[p]) + w(pipes[q]) <= Total(w, pipes)
  {
    TotalUpdate(w, pipes, p, pipes[q]);
    TotalUpdate(w, pipes[p := pipes[q]], q, pipes[q]);
    if p == 0 {
      TotalUpdate(w, pipes[1..], q - 1, pipes[q]);
    } else if q == 0 {
      TotalUpdate(w, pipes[1..], p - 1, pipes[p]);
    } else {
      TotalTwo(w, pipes[1..], p - 1, q - 1);
    }
  }

  ghost predicate Safe(s: State) {
    // never more processes than worker slots, nor more pipelines than jobs
    && Total(Processes, s.pipes) <= s.jobs
    && Total(Flights(), s.pipes) <= s.jobs
    // a process that runs alone is the only one
    && (forall p, q :: 0 <= p < |s.pipes| && 0 <= q < |s.pipes| && RunsAlone(s.pipes[p]) ==>
          Processes(s.pipes[q]) == if p == q then 1 else 0)
    // no directory is used by two pipelines
    && (forall p, q, d :: 0 <= p < |s.pipes| && 0 <= q < |s.pipes| && p != q && UsesDir(s.pipes[p], d) ==>
          !UsesDir(s.pipes[q], d))
    // pipelines start in order
    && (forall p, q :: 0 <= p < q < |s.pipes| && s.pipes[p].phase.Waiting? ==> s.pipes[q].phase.Waiting?)
  }

  predicate RunsAlone(x: Pipe) {
    x.phase.Using? && x.phase.act == Alone
  }

  predicate UsesDir(x: Pipe, d: int) {
    Inside(x) && d in x.dirs
  }

  lemma AloneIsAlone(s: State, p: nat, q: nat)
    requires Inv(s) && p < |s.pipes| && q < |s.pipes| && RunsAlone(s.pipes[p])
    ensures Processes(s.pipes[q]) == if p == q then 1 else 0
  {
    if p == q {
      TotalUpdate(SlotsOf(s.jobs), s.pipes, p, s.pipes[p]);
    } else {
      TotalTwo(SlotsOf(s.jobs), s.pipes, p, q);
    }
  }

  lemma InvIsSafe(s: State)
    requires Inv(s)
    ensures Safe(s)
  {
    TotalBelow(Processes, SlotsOf(s.jobs), s.pipes);
    forall p, q | 0 <= p < |s.pipes| && 0 <= q < |s.pipes| && RunsAlone(s.pipes[p])
      ensures Processes(s.pipes[q]) == if p == q then 1 else 0
    {
      AloneIsAlone(s, p, q);
    }
    assert forall p: nat, d :: p < |s.pipes| && UsesDir(s.pipes[p], d) ==> Owned(s.pipes, s.held, p, d);
  }

  /** Exclusion safety: for any jobs, packages and interleaving, errors
      included, every state reached is safe. */
  lemma AlwaysSafe(jobs: nat, pkgs: seq<Package>, steps: seq<Step>)
    requires jobs >= 1
    requires Legal(Initial(jobs, pkgs), steps)
    ensures var last := After(Initial(jobs, pkgs), steps);
            last.jobs == jobs && |last.pipes| == |pkgs| && Safe(last)
            && forall p :: 0 <= p < |pkgs| ==> last.pipes[p].dirs == LockOrder(Dirs(pkgs[p]))
  {
    AfterKeeps(Initial(jobs, pkgs), steps);
    InvIsSafe(After(Initial(jobs, pkgs), steps));
  }

  // ----- Progress -----

  predicate Finished(s: State) {
    forall p :: 0 <= p < |s.pipes| ==> s.pipes[p].phase.Done?
  }

  lemma {:induction false} Positive(w: Pipe -> nat, pipes: seq<Pipe>) returns (p: nat)
    requires Total(w, pipes) > 0
    ensures p < |pipes| && w(pipes[p]) > 0
  {
    if w(pipes[0]) > 0 {
      p := 0;
    } else {
      p := Positive(w, pipes[1..]);
      p := p + 1;
    }
  }

  /** The steps that errors bring about. */
  predicate Fault(t: Step) {
    t.Fail? || t.Cancel? || t.Drop?
  }

  /** With no slot held, nothing is queued and no worker is left. */
  lemma IdleSlots(s: State, p: nat)
    requires Inv(s) && s.cur == 0 && p < |s.pipes|
    ensures s.queue == [] && s.pipes[p].workers == 0 && !s.pipes[p].phase.Using? && !s.pipes[p].phase.Queued?
  {
    TotalUpdate(SlotsOf(s.jobs), s.pipes, p, s.pipes[p]);
  }

  function Top(pipes: seq<Pipe>): (top: int)
    ensures forall p, k :: 0 <= p < |pipes| && 0 <= k < |pipes[p].dirs| && PipeOk(pipes[p]) ==> pipes[p].dirs[k] < top
  {
    if pipes == [] then 0
    else
      var rest := Top(pipes[1..]);
      assert forall p :: 1 <= p < |pipes| ==> pipes[p] == pipes[1..][p - 1];
      var dirs := pipes[0].dirs;
      if dirs != [] && dirs[|dirs| - 1] >= rest then dirs[|dirs| - 1] + 1 else rest
  }

  function Wants(x: Pipe, top: int): int {
    if x.phase.Locking? && x.phase.k < |x.dirs| then x.dirs[x.phase.k] else top
  }

  /** Locks are taken in increasing order, so following each wanted lock to its
      holder climbs until some holder wants nothing that is held. */
  lemma {:induction false} LockProgress(s: State, p: nat) returns (t: Step)
    requires Inv(s) && p < |s.pipes| && s.pipes[p].phase.Locking?
    requires forall q :: 0 <= q < |s.pipes| && InFlight(s.pipes[q]) ==> s.pipes[q].phase.Locking?
    ensures Enabled(s, t) && t.Lock?
    decreases Top(s.pipes) - Wants(s.pipes[p], Top(s.pipes))
  {
    var x := s.pipes[p];
    assert PipeOk(x);
    t := Lock(p);
    if !Enabled(s, t) {
      var d := x.dirs[x.phase.k];
      var q := s.held[d];
      assert Owned(s.pipes, s.held, q, d) && Owned(s.pipes, s.held, p, d) && PipeOk(s.pipes[q]);
      t := LockProgress(s, q);
    }
  }

  lemma SlotProgress(s: State, p: nat) returns (t: Step)
    requires Inv(s) && p < |s.pipes| && Slots(s.pipes[p], s.jobs) > 0
    ensures Enabled(s, t) && !Fault(t)
  {
    t := if s.pipes[p].workers > 0 then WorkerDone(p) else if s.pipes[p].phase.act == Spawn then Hand(p) else Finish(p);
  }

  lemma PipeProgress(s: State, p: nat) returns (t: Step)
    requires Inv(s) && s.cur == 0 && p < |s.pipes| && InFlight(s.pipes[p]) && !s.pipes[p].phase.Locking?
    ensures Enabled(s, t) && !Fault(t)
  {
    IdleSlots(s, p);
    var x := s.pipes[p];
    t := if x.phase.Unlocking? then Unlock(p) else if x.phase.todo == [] then Leave(p)
         else if x.phase.todo[0] == Join then Pass(p) else Request(p);
  }

  /** No deadlock: while work is left, some step other than an error is
      enabled. */
  lemma NoDeadlock(s: State) returns (t: Step)
    requires Inv(s) && !Finished(s)
    ensures Enabled(s, t) && !Fault(t)
  {
    if s.cur > 0 {
      var p := Positive(SlotsOf(s.jobs), s.pipes);
      t := SlotProgress(s, p);
    } else if p: nat :| p < |s.pipes| && InFlight(s.pipes[p]) && !s.pipes[p].phase.Locking? {
      t := PipeProgress(s, p);
    } else if p: nat :| p < |s.pipes| && s.pipes[p].phase.Locking? {
      t := LockProgress(s, p);
    } else {
      TotalZero(Flights(), s.pipes);
      t := Start;
    }
  }

  // ----- Termination -----

  function LocksLeft(x: Pipe): nat {
    if (x.phase.Locking? || x.phase.Unlocking?) && x.phase.k <= |x.dirs| then |x.dirs| - x.phase.k else 0
  }

  function Left(x: Pipe): nat {
    x.workers + (if x.broken then 0 else 1) +
    match x.phase
    case Waiting => 4 * |x.script| + 2 * |x.dirs| + 5
    case Locking(_) => 4 * |x.script| + |x.dirs| + LocksLeft(x) + 4
    case Running(todo) => 4 * |todo| + |x.dirs| + 3
    case Queued(_, todo) => 4 * |todo| + |x.dirs| + 6
    case Using(_, todo) => 4 * |todo| + |x.dirs| + 5
    case Unlocking(_) => LocksLeft(x) + 1
    case Done => 0
  }

  function Work(s: State): nat {
    Total(Left, s.pipes)
  }

  lemma {:induction false} NotifyWorks(s: State)
    requires Base(s)
    ensures Work(Notify(s)) <= Work(s)
    decreases |s.queue|
  {
    if s.queue != [] && s.cur + HeadWeight(s) <= s.jobs {
      GrantKeepsBase(s);
      NotifyWorks(Grant(s));
      TotalUpdate(Left, s.pipes, s.queue[0], Grant(s).pipes[s.queue[0]]);
    }
  }

  lemma MovedLess(s: State, t: Step)
    requires Ready(s, t)
    ensures Left(Moved(s, t)) < Left(s.pipes[Mover(s, t)])
  {
  }

  lemma StepWorks(s: State, t: Step)
    requires Inv(s) && Enabled(s, t)
    ensures Work(Next(s, t)) < Work(s)
  {
    BaseReady(s, t);
    StepKeepsBase(s, t);
    NotifyWorks(Shift(s, t));
    MovedLess(s, t);
    TotalUpdate(Left, s.pipes, Mover(s, t), Moved(s, t));
  }

  lemma {:induction false} RunWorks(s: State, steps: seq<Step>)
    requires Inv(s) && Legal(s, steps)
    ensures |steps| + Work(After(s, steps)) <= Work(s)
    decreases |steps|
  {
    if steps != [] {
      StepKeeps(s, steps[0]);
      StepWorks(s, steps[0]);
      RunWorks(Next(s, steps[0]), steps[1..]);
    }
  }

  /** Every run is finite, and one that cannot go on, new errors aside, has
      finished every pipeline. */
  lemma {:induction false} EveryRunEnds(jobs: nat, pkgs: seq<Package>, steps: seq<Step>)
    requires jobs >= 1
    requires Legal(Initial(jobs, pkgs), steps)
    ensures |steps| <= Work(Initial(jobs, pkgs))
    ensures var last := After(Initial(jobs, pkgs), steps);
            Finished(last) || exists t :: Enabled(last, t) && !Fault(t)
  {
    var s := Initial(jobs, pkgs);
    RunWorks(s, steps);
    AfterKeeps(s, steps);
    if !Finished(After(s, steps)) {
      var t := NoDeadlock(After(s, steps));
    }
  }

  // ----- The work is done -----

  /** The acts a pipeline has not carried out. */
  function Remaining(x: Pipe): seq<Act> {
    match x.phase
    case Waiting => x.script
    case Locking(_) => x.script
    case Running(todo) => todo
    case Queued(act, todo) => [act] + todo
    case Using(act, todo) => [act] + todo
    case Unlocking(_) => []
    case Done => []
  }

  /** The act that a step carries out for pipeline p: slots used and given up or
      handed to a worker, or workers waited for. */
  function CarriedBy(s: State, t: Step, p: nat): seq<Act>
    requires Enabled(s, t)
  {
    match t
    case Hand(q) => if p == q then [Spawn] else []
    case Finish(q) => if p == q then [s.pipes[q].phase.act] else []
    case Pass(q) => if p == q then [Join] else []
    case _ => []
  }

  ghost function Carried(s: State, steps: seq<Step>, p: nat): seq<Act>
    requires Inv(s) && Legal(s, steps)
    decreases |steps|
  {
    if steps == [] then []
    else
      StepKeeps(s, steps[0]);
      CarriedBy(s, steps[0], p) + Carried(Next(s, steps[0]), steps[1..], p)
  }

  lemma {:induction false} NotifyCarriesNothing(s: State, p: nat)
    requires QueuedWell(s) && p < |s.pipes|
    ensures |Notify(s).pipes| == |s.pipes|
    ensures Remaining(Notify(s).pipes[p]) == Remaining(s.pipes[p])
    decreases |s.queue|
  {
    if s.queue != [] && s.cur + HeadWeight(s) <= s.jobs {
      NotifyCarriesNothing(Grant(s), p);
    }
  }

  /** The acts that remain change only by the act carried out. */
  lemma MovedRemains(s: State, t: Step)
    requires Ready(s, t) && !Fault(t)
    ensures var rest, done := Remaining(Moved(s, t)), t.Hand? || t.Finish? || t.Pass?;
            Remaining(s.pipes[Mover(s, t)]) == if done then [Remaining(s.pipes[Mover(s, t)])[0]] + rest else rest
  {
    var x := s.pipes[Mover(s, t)];
    if t.Request? || t.Pass? {
      assert x.phase.todo == [x.phase.todo[0]] + x.phase.todo[1..];
    }
  }

  lemma MovedCarries(s: State, t: Step)
    requires Ready(s, t) && !Fault(t)
    ensures CarriedBy(s, t, Mover(s, t)) + Remaining(Moved(s, t)) == Remaining(s.pipes[Mover(s, t)])
  {
    MovedRemains(s, t);
    var rest := Remaining(Moved(s, t));
    assert [] + rest == rest;
  }

  lemma StepCarries(s: State, t: Step, p: nat)
    requires Inv(s) && Enabled(s, t) && !Fault(t) && p < |s.pipes|
    ensures |Next(s, t).pipes| == |s.pipes|
    ensures CarriedBy(s, t, p) + Remaining(Next(s, t).pipes[p]) == Remaining(s.pipes[p])
  {
    BaseReady(s, t);
    StepKeepsBase(s, t);
    NotifyCarriesNothing(Shift(s, t), p);
    if p == Mover(s, t) {
      MovedCarries(s, t);
    }
  }

  lemma {:induction false} FirstStep(s: State, steps: seq<Step>, p: nat)
    requires Inv(s) && Legal(s, steps) && steps != []
    ensures var next := Next(s, steps[0]);
            && Inv(next) && Legal(next, steps[1..]) && After(s, steps) == After(next, steps[1..])
            && Carried(s, steps, p) == CarriedBy(s, steps[0], p) + Carried(next, steps[1..], p)
  {
    StepKeeps(s, steps[0]);
  }

  lemma {:induction false} RunCarries(s: State, steps: seq<Step>, p: nat)
    requires Inv(s) && Legal(s, steps) && p < |s.pipes|
    requires forall k :: 0 <= k < |steps| ==> !Fault(steps[k])
    ensures |After(s, steps).pipes| == |s.pipes|
    ensures Carried(s, steps, p) + Remaining(After(s, steps).pipes[p]) == Remaining(s.pipes[p])
    decreases |steps|
  {
    if steps == [] {
      assert Carried(s, steps, p) == [] && After(s, steps) == s;
    } else {
      FirstStep(s, steps, p);
      StepCarries(s, steps[0], p);
      var next := Next(s, steps[0]);
      RunCarries(next, steps[1..], p);
      Assoc(CarriedBy(s, steps[0], p), Carried(next, steps[1..], p), Remaining(After(next, steps[1..]).pipes[p]));
    }
  }

  /** A run without errors that cannot go on has finished every pipeline, and
      each has carried out its whole script, in order. */
  lemma {:induction false} AllWorkDone(jobs: nat, pkgs: seq<Package>, steps: seq<Step>)
    requires jobs >= 1
    requires Legal(Initial(jobs, pkgs), steps)
    requires forall k :: 0 <= k < |steps| ==> !Fault(steps[k])
    requires forall t :: Enabled(After(Initial(jobs, pkgs), steps), t) ==> Fault(t)
    ensures Finished(After(Initial(jobs, pkgs), steps))
    ensures forall p :: 0 <= p < |pkgs| ==> Carried(Initial(jobs, pkgs), steps, p) == Script(pkgs[p])
  {
    var s := Initial(jobs, pkgs);
    AfterKeeps(s, steps);
    if !Finished(After(s, steps)) {
      var t := NoDeadlock(After(s, steps));
    }
    forall p | 0 <= p < |pkgs|
      ensures Carried(s, steps, p) == Script(pkgs[p])
    {
      RunCarries(s, steps, p);
    }
  }
}
