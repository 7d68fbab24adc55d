/** The slot semaphore serves requests in the order they are made, whatever
    their weights: a re-run that needs every slot is never overtaken. */
module Fairness {
  import opened Seqs
  import opened Scheduler

  // ----- The requests granted -----

  /** The pipelines that the notify loop grants, in order. */
  ghost function Notified(s: State): seq<nat>
    requires QueuedWell(s)
    decreases |s.queue|
  {
    if s.queue != [] && s.cur + HeadWeight(s) <= s.jobs then [s.queue[0]] + Notified(Grant(s)) else []
  }

  /** A request granted without waiting. */
  function AtOnce(s: State, t: Step): seq<nat>
    requires Enabled(s, t)
  {
    if t.Request? && Granted(s, s.pipes[t.p].phase.todo[0]) then [t.p] else []
  }

  /** The pipelines whose request a step grants, in order. */
  ghost function GrantedBy(s: State, t: Step): seq<nat>
    requires Inv(s) && Enabled(s, t)
  {
    StepKeepsBase(s, t);
    AtOnce(s, t) + Notified(Shift(s, t))
  }

  ghost function Served(s: State, steps: seq<Step>): seq<nat>
    requires Inv(s) && Legal(s, steps)
    decreases |steps|
  {
    if steps == [] then []
    else
      StepKeeps(s, steps[0]);
      GrantedBy(s, steps[0]) + Served(Next(s, steps[0]), steps[1..])
  }

  lemma {:induction false} NotifiedHold(s: State, p: nat)
    requires QueuedWell(s) && p < |s.pipes|
    ensures |Notify(s).pipes| == |s.pipes|
    ensures p in Notified(s) ==> s.pipes[p].phase.Queued? && Notify(s).pipes[p].phase.Using?
    ensures p !in Notified(s) ==> Notify(s).pipes[p] == s.pipes[p]
    decreases |s.queue|
  {
    if s.queue != [] && s.cur + HeadWeight(s) <= s.jobs {
      NotifiedHold(Grant(s), p);
    }
  }

  /** These are the pipelines that start to hold slots in the step. */
  lemma {:induction false} GrantedHold(s: State, t: Step, p: nat)
    requires Inv(s) && Enabled(s, t) && p < |s.pipes|
    ensures |Next(s, t).pipes| == |s.pipes|
    ensures p in GrantedBy(s, t) <==> Next(s, t).pipes[p].phase.Using? && !s.pipes[p].phase.Using?
  {
    BaseReady(s, t);
    StepKeepsBase(s, t);
    NotifiedHold(Shift(s, t), p);
  }

  // ----- The requests made -----

  /** The line without p's latest request. */
  function Withdrawn(line: seq<nat>, p: nat): seq<nat> {
    if line == [] then []
    else if line[|line| - 1] == p then line[..|line| - 1]
    else Withdrawn(line[..|line| - 1], p) + [line[|line| - 1]]
  }

  function InLine(line: seq<nat>, t: Step): seq<nat> {
    match t
    case Request(p) => line + [p]
    case Cancel(p) => Withdrawn(line, p)
    case _ => line
  }

  /** Behind `line`, the requests that the steps make, in order, without those
      withdrawn while they waited. */
  function Asked(line: seq<nat>, steps: seq<Step>): seq<nat>
    decreases |steps|
  {
    if steps == [] then line else Asked(InLine(line, steps[0]), steps[1..])
  }

  // ----- First come, first served -----

  lemma {:induction false} NotifiedFirst(s: State)
    requires QueuedWell(s)
    ensures Notified(s) + Notify(s).queue == s.queue
    decreases |s.queue|
  {
    if s.queue != [] && s.cur + HeadWeight(s) <= s.jobs {
      NotifiedFirst(Grant(s));
      Assoc([s.queue[0]], Notified(Grant(s)), Notify(s).queue);
    }
  }

  lemma {:induction false} WithdrawnWaits(done: seq<nat>, queue: seq<nat>, p: nat)
    requires Distinct(queue) && p in queue
    ensures Withdrawn(done + queue, p) == done + Without(queue, p)
  {
    var n := |queue| - 1;
    var line := done + queue;
    assert line[..|line| - 1] == done + queue[..n];
    assert queue == queue[..n] + [queue[n]];
    WithoutSnoc(queue[..n], queue[n], p);
    if queue[n] == p {
      WithoutAbsent(queue[..n], p);
    } else {
      WithdrawnWaits(done, queue[..n], p);
    }
  }

  lemma {:induction false} WithoutSnoc(queue: seq<nat>, q: nat, p: nat)
    ensures Without(queue + [q], p) == if q == p then Without(queue, p) else Without(queue, p) + [q]
  {
    if queue == [] {
      assert [] + [q] == [q] && [q][1..] == [];
    } else {
      assert (queue + [q])[1..] == queue[1..] + [q];
      WithoutSnoc(queue[1..], q, p);
    }
  }

  lemma {:induction false} WithoutAbsent(queue: seq<nat>, p: nat)
    requires p !in queue
    ensures Without(queue, p) == queue
  {
    if queue != [] {
      WithoutAbsent(queue[1..], p);
    }
  }

  lemma ShiftInLine(s: State, t: Step, done: seq<nat>)
    requires Enabled(s, t) && (t.Cancel? ==> Distinct(s.queue) && t.p in s.queue)
    ensures (done + AtOnce(s, t)) + Shift(s, t).queue == InLine(done + s.queue, t)
  {
    if t.Cancel? {
      WithdrawnWaits(done, s.queue, t.p);
    } else if t.Request? && Granted(s, s.pipes[t.p].phase.todo[0]) {
      assert done + [] == done;
    } else if t.Request? {
      Assoc(done, s.queue, [t.p]);
    }
    assert done + [] == done;
  }

  lemma {:induction false} StepInLine(s: State, t: Step, done: seq<nat>)
    requires Inv(s) && Enabled(s, t)
    ensures (done + GrantedBy(s, t)) + Next(s, t).queue == InLine(done + s.queue, t)
  {
    StepKeepsBase(s, t);
    ShiftInLine(s, t, done);
    var r := Shift(s, t);
    NotifiedFirst(r);
    Regroup(done, AtOnce(s, t), Notified(r), Notify(r).queue);
  }

  lemma Regroup(a: seq<nat>, b: seq<nat>, c: seq<nat>, d: seq<nat>)
    ensures (a + (b + c)) + d == (a + b) + (c + d)
  {
  }

  lemma {:induction false} ServedStep(s: State, steps: seq<Step>)
    requires Inv(s) && Legal(s, steps) && steps != []
    ensures var next := Next(s, steps[0]);
            && Inv(next) && Legal(next, steps[1..]) && After(s, steps) == After(next, steps[1..])
            && Served(s, steps) == GrantedBy(s, steps[0]) + Served(next, steps[1..])
  {
    StepKeeps(s, steps[0]);
  }

  lemma {:induction false} ServedInLine(s: State, steps: seq<Step>, done: seq<nat>)
    requires Inv(s) && Legal(s, steps)
    ensures (done + Served(s, steps)) + After(s, steps).queue == Asked(done + s.queue, steps)
    decreases |steps|
  {
    if steps == [] {
      assert done + [] == done;
    } else {
      var next, granted := Next(s, steps[0]), GrantedBy(s, steps[0]);
      ServedStep(s, steps);
      StepInLine(s, steps[0], done);
      ServedInLine(next, steps[1..], done + granted);
      Assoc(done, granted, Served(next, steps[1..]));
    }
  }

  /** No overtaking: in every run, errors included, the requests granted so far
      and then those waiting are the requests made, in the order made.  What is
      left out of that order are the requests withdrawn while they waited. */
  lemma FirstComeFirstServed(jobs: nat, pkgs: seq<Package>, steps: seq<Step>)
    requires jobs >= 1
    requires Legal(Initial(jobs, pkgs), steps)
    ensures Served(Initial(jobs, pkgs), steps) + After(Initial(jobs, pkgs), steps).queue == Asked([], steps)
  {
    var s := Initial(jobs, pkgs);
    ServedInLine(s, steps, []);
    assert [] + Served(s, steps) == Served(s, steps) && s.queue == [] && [] + s.queue == s.queue;
  }
}
