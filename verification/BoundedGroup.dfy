/** The hand-written counting semaphore that bounds a parallel group, as a step
    system over every interleaving of task resumptions and completions. */
module BoundedGroup {
  import opened Arithmetic
  import opened Sequences

  // ----- The semaphore

  datatype Semaphore = Semaphore(activeCount: int, highWaterMark: int, queue: seq<nat>)

  /** One more holder: what `acquire` does on admission, and again when a waiter resumes. */
  function Admit(s: Semaphore): Semaphore {
    s.(activeCount := s.activeCount + 1, highWaterMark := Max(s.highWaterMark, s.activeCount + 1))
  }

  function AcquireSync(s: Semaphore, max: int, task: nat): Semaphore {
    if s.activeCount < max then Admit(s) else s.(queue := s.queue + [task])
  }

  function ReleaseSync(s: Semaphore): Semaphore {
    s.(activeCount := s.activeCount - 1, queue := if s.queue == [] then [] else s.queue[1..])
  }

  /** The variables that the closures `acquire` and `release` share. */
  class SemaphoreCell {
    const maxConcurrency: int
    var activeCount: int
    var highWaterMark: int
    var semaphoreQueue: seq<nat>

    ghost function View(): Semaphore
      reads this
    {
      Semaphore(activeCount, highWaterMark, semaphoreQueue)
    }

    constructor (maxConcurrency: int)
      ensures this.maxConcurrency == maxConcurrency && View() == Semaphore(0, 0, [])
    {
      this.maxConcurrency := maxConcurrency;
      activeCount, highWaterMark, semaphoreQueue := 0, 0, [];
    }

    /** The synchronous part of `acquire`: admitted at once, or left waiting. */
    method Acquire(task: nat) returns (admitted: bool)
      modifies this
      ensures View() == AcquireSync(old(View()), maxConcurrency, task)
      ensures admitted <==> old(activeCount) < maxConcurrency
    {
      if activeCount < maxConcurrency {
        activeCount := activeCount + 1;
        if activeCount > highWaterMark {
          highWaterMark := activeCount;
        }
        return true;
      }
      semaphoreQueue := semaphoreQueue + [task];
      return false;
    }

    /** The rest of `acquire`, once the waiter's promise has been resolved. */
    method ResumeWaiter()
      modifies this
      ensures View() == Admit(old(View()))
    {
      activeCount := activeCount + 1;
      if activeCount > highWaterMark {
        highWaterMark := activeCount;
      }
    }

    method Release() returns (next: Option<nat>)
      modifies this
      ensures View() == ReleaseSync(old(View()))
      ensures next == if old(semaphoreQueue) == [] then None else Some(old(semaphoreQueue)[0])
    {
      activeCount := activeCount - 1;
      if semaphoreQueue == [] {
        next := None;
      } else {
        next := Some(semaphoreQueue[0]);
        semaphoreQueue := semaphoreQueue[1..];
      }
    }
  }

  // ----- The group as a step system

  /** `Skipped` tasks answer before `acquire` (agent missing, budget blocked). A `Woken`
      task has had its promise resolved but has not run since. */
  datatype Phase = Skipped | Queued | Woken | Running | Done

  datatype Group = Group(max: int, tasks: seq<Phase>, sem: Semaphore)

  /** `groupIds.map`: every task runs synchronously up to its first `await`. */
  function Launch(max: int, reaches: seq<bool>): Group {
    if reaches == [] then Group(max, [], Semaphore(0, 0, []))
    else
      var t := |reaches| - 1;
      var g := Launch(max, reaches[..t]);
      if !reaches[t] then g.(tasks := g.tasks + [Skipped])
      else
        Group(max, g.tasks + [if g.sem.activeCount < max then Running else Queued], AcquireSync(g.sem, max, t))
  }

  datatype Step = Resume(task: nat) | Finish(task: nat)

  predicate Enabled(g: Group, step: Step) {
    step.task < |g.tasks| && g.tasks[step.task] == if step.Resume? then Woken else Running
  }

  function Apply(g: Group, step: Step): Group
    requires Enabled(g, step)
  {
    if step.Resume? then
      Group(g.max, g.tasks[step.task := Running], Admit(g.sem))
    else
      var tasks := g.tasks[step.task := Done];
      var next := g.sem.queue;
      Group(g.max,
            if next != [] && next[0] < |tasks| then tasks[next[0] := Woken] else tasks,
            ReleaseSync(g.sem))
  }

  ghost predicate IsRun(g: Group, steps: seq<Step>)
    decreases steps
  {
    steps == [] || (Enabled(g, steps[0]) && IsRun(Apply(g, steps[0]), steps[1..]))
  }

  ghost function After(g: Group, steps: seq<Step>): Group
    requires IsRun(g, steps)
    decreases steps
  {
    if steps == [] then g else After(Apply(g, steps[0]), steps[1..])
  }

  // ----- Counting tasks

  function Count(tasks: seq<Phase>, p: Phase): nat {
    if tasks == [] then 0
    else Count(tasks[..|tasks| - 1], p) + if tasks[|tasks| - 1] == p then 1 else 0
  }

  lemma {:induction false} CountUpdate(tasks: seq<Phase>, t: nat, now: Phase, p: Phase)
    requires t < |tasks|
    ensures Count(tasks[t := now], p) ==
            Count(tasks, p) + (if now == p then 1 else 0) - (if tasks[t] == p then 1 else 0)
  {
    var n := |tasks| - 1;
    if t == n {
      assert tasks[t := now][..n] == tasks[..n];
    } else {
      CountUpdate(tasks[..n], t, now, p);
      assert tasks[t := now][..n] == tasks[..n][t := now];
    }
  }

  lemma {:induction false} CountPositive(tasks: seq<Phase>, p: Phase)
    ensures Count(tasks, p) > 0 <==> exists t :: 0 <= t < |tasks| && tasks[t] == p
  {
    if tasks != [] {
      var n := |tasks| - 1;
      CountPositive(tasks[..n], p);
      if Count(tasks, p) > 0 && tasks[n] != p {
        var t :| 0 <= t < n && tasks[..n][t] == p;
        assert tasks[t] == p;
      }
      if exists t :: 0 <= t < |tasks| && tasks[t] == p {
        var t :| 0 <= t < |tasks| && tasks[t] == p;
        if t < n {
          assert tasks[..n][t] == p;
        }
      }
    }
  }

  /** Tasks that reached `acquire`. */
  function Reached(tasks: seq<Phase>): int {
    |tasks| - Count(tasks, Skipped)
  }

  /** The tasks that reach `acquire`, in submission order. */
  function Acquirers(reaches: seq<bool>): seq<nat> {
    if reaches == [] then []
    else
      var t := |reaches| - 1;
      Acquirers(reaches[..t]) + if reaches[t] then [t] else []
  }

  // ----- The invariant

  ghost predicate QueueIsQueued(g: Group) {
    && (forall i :: 0 <= i < |g.sem.queue| ==> g.sem.queue[i] < |g.tasks| && g.tasks[g.sem.queue[i]] == Queued)
    && (forall i, j :: 0 <= i < j < |g.sem.queue| ==> g.sem.queue[i] < g.sem.queue[j])
    && (forall t :: 0 <= t < |g.tasks| && g.tasks[t] == Queued ==> t in g.sem.queue)
  }

  ghost predicate SlotsAdd(g: Group) {
    && g.sem.activeCount == Count(g.tasks, Running)
    && g.sem.activeCount + Count(g.tasks, Woken) <= g.max
    && (g.sem.queue != [] ==> g.sem.activeCount + Count(g.tasks, Woken) == g.max)
    && g.sem.highWaterMark == Min(g.max, Reached(g.tasks))
  }

  ghost predicate Inv(g: Group) {
    SlotsAdd(g) && QueueIsQueued(g)
  }

  lemma CountPush(tasks: seq<Phase>, now: Phase, p: Phase)
    ensures Count(tasks + [now], p) == Count(tasks, p) + if now == p then 1 else 0
  {
    assert (tasks + [now])[..|tasks|] == tasks;
  }

  lemma {:induction false} AcquirersMember(reaches: seq<bool>, t: nat)
    ensures t in Acquirers(reaches) <==> t < |reaches| && reaches[t]
  {
    if reaches != [] {
      AcquirersMember(reaches[..|reaches| - 1], t);
    }
  }

  lemma {:induction false} AcquirersAscend(reaches: seq<bool>)
    ensures forall i, j :: 0 <= i < j < |Acquirers(reaches)| ==> Acquirers(reaches)[i] < Acquirers(reaches)[j]
    ensures forall i :: 0 <= i < |Acquirers(reaches)| ==> Acquirers(reaches)[i] < |reaches|
  {
    if reaches != [] {
      AcquirersAscend(reaches[..|reaches| - 1]);
    }
  }

  lemma {:induction false} LaunchSemaphore(max: int, reaches: seq<bool>)
    requires max >= 0
    ensures var g, all := Launch(max, reaches), Acquirers(reaches);
            && g.max == max
            && g.sem.activeCount == g.sem.highWaterMark == Min(max, |all|)
            && g.sem.queue == all[Min(max, |all|)..]
  {
    if reaches != [] {
      var t := |reaches| - 1;
      LaunchSemaphore(max, reaches[..t]);
      var all := Acquirers(reaches[..t]);
      if reaches[t] && |all| >= max {
        assert (all + [t])[max..] == all[max..] + [t];
      }
    }
  }

  lemma {:induction false} LaunchCounts(max: int, reaches: seq<bool>)
    requires max >= 0
    ensures var g, all := Launch(max, reaches), Acquirers(reaches);
            && |g.tasks| == |reaches|
            && Count(g.tasks, Running) == Min(max, |all|)
            && Count(g.tasks, Woken) == 0
            && Reached(g.tasks) == |all|
  {
    if reaches != [] {
      var t := |reaches| - 1;
      var before, g := Launch(max, reaches[..t]), Launch(max, reaches);
      LaunchCounts(max, reaches[..t]);
      LaunchSemaphore(max, reaches[..t]);
      assert g.tasks == before.tasks + [g.tasks[t]];
      CountPush(before.tasks, g.tasks[t], Running);
      CountPush(before.tasks, g.tasks[t], Woken);
      CountPush(before.tasks, g.tasks[t], Skipped);
    }
  }

  lemma {:induction false} LaunchQueued(max: int, reaches: seq<bool>)
    requires max >= 0
    ensures var g := Launch(max, reaches);
            && |g.tasks| == |reaches|
            && forall t :: 0 <= t < |reaches| ==> (g.tasks[t] == Queued <==> t in g.sem.queue)
  {
    if reaches != [] {
      var t := |reaches| - 1;
      var before, all := Launch(max, reaches[..t]), Acquirers(reaches[..t]);
      LaunchQueued(max, reaches[..t]);
      LaunchSemaphore(max, reaches[..t]);
      AcquirersMember(reaches[..t], t);
      assert t !in before.sem.queue;
    }
  }

  /** After every task has called `acquire`: the first `max` acquirers run, the rest
      wait in submission order, and the mark is already final. */
  lemma LaunchState(max: int, reaches: seq<bool>)
    requires max >= 0
    ensures var g, all := Launch(max, reaches), Acquirers(reaches);
            && Inv(g) && g.max == max
            && Reached(g.tasks) == |all|
            && g.sem.queue == all[Min(max, |all|)..]
  {
    LaunchSemaphore(max, reaches);
    LaunchCounts(max, reaches);
    LaunchQueued(max, reaches);
    AcquirersAscend(reaches);
  }

  /** A task that moves from one phase to another changes just those two counts. */
  lemma PhaseMoves(tasks: seq<Phase>, t: nat, now: Phase)
    requires t < |tasks|
    ensures forall p :: Count(tasks[t := now], p) ==
                        Count(tasks, p) + (if now == p then 1 else 0) - (if tasks[t] == p then 1 else 0)
  {
    forall p
      ensures Count(tasks[t := now], p) ==
              Count(tasks, p) + (if now == p then 1 else 0) - (if tasks[t] == p then 1 else 0)
    {
      CountUpdate(tasks, t, now, p);
    }
  }

  lemma ResumeKeepsInv(g: Group, t: nat)
    requires Inv(g) && Enabled(g, Resume(t))
    ensures Inv(Apply(g, Resume(t))) && Reached(Apply(g, Resume(t)).tasks) == Reached(g.tasks)
  {
    PhaseMoves(g.tasks, t, Running);
    ReachedCoversRunning(g.tasks[t := Running]);
  }

  lemma FinishKeepsInv(g: Group, t: nat)
    requires Inv(g) && Enabled(g, Finish(t)) && g.sem.queue == []
    ensures Inv(Apply(g, Finish(t))) && Reached(Apply(g, Finish(t)).tasks) == Reached(g.tasks)
  {
    PhaseMoves(g.tasks, t, Done);
  }

  lemma WakeCounts(tasks: seq<Phase>, t: nat, next: nat)
    requires t < |tasks| && next < |tasks| && tasks[t] == Running && tasks[next] == Queued
    ensures var after := tasks[t := Done][next := Woken];
            && Count(after, Running) == Count(tasks, Running) - 1
            && Count(after, Woken) == Count(tasks, Woken) + 1
            && Count(after, Queued) == Count(tasks, Queued) - 1
            && Count(after, Skipped) == Count(tasks, Skipped)
  {
    PhaseMoves(tasks, t, Done);
    PhaseMoves(tasks[t := Done], next, Woken);
  }

  lemma FinishAndWakeSlots(g: Group, t: nat, next: nat)
    requires SlotsAdd(g) && Enabled(g, Finish(t))
    requires g.sem.queue != [] && g.sem.queue[0] == next < |g.tasks| && g.tasks[next] == Queued
    ensures SlotsAdd(Apply(g, Finish(t))) && Reached(Apply(g, Finish(t)).tasks) == Reached(g.tasks)
  {
    WakeCounts(g.tasks, t, next);
  }

  lemma FinishAndWakeKeepsInv(g: Group, t: nat)
    requires Inv(g) && Enabled(g, Finish(t)) && g.sem.queue != []
    ensures Inv(Apply(g, Finish(t))) && Reached(Apply(g, Finish(t)).tasks) == Reached(g.tasks)
  {
    FinishAndWakeSlots(g, t, g.sem.queue[0]);
    QueueAfterWake(g, t);
  }

  lemma StepKeepsInv(g: Group, step: Step)
    requires Inv(g) && Enabled(g, step)
    ensures Inv(Apply(g, step))
    ensures Reached(Apply(g, step).tasks) == Reached(g.tasks)
  {
    match step {
      case Resume(t) => ResumeKeepsInv(g, t);
      case Finish(t) =>
        if g.sem.queue == [] {
          FinishKeepsInv(g, t);
        } else {
          FinishAndWakeKeepsInv(g, t);
        }
    }
  }

  lemma QueueAfterWake(g: Group, t: nat)
    requires QueueIsQueued(g) && g.sem.queue != [] && t < |g.tasks| && g.tasks[t] == Running
    ensures QueueIsQueued(Apply(g, Finish(t)))
  {
    var queue, after := g.sem.queue, Apply(g, Finish(t));
    assert queue == [queue[0]] + queue[1..];
    forall i | 0 <= i < |queue[1..]|
      ensures queue[1..][i] < |after.tasks| && after.tasks[queue[1..][i]] == Queued
    {
      assert queue[1..][i] == queue[i + 1] && queue[0] < queue[i + 1];
    }
    forall u | 0 <= u < |after.tasks| && after.tasks[u] == Queued
      ensures u in queue[1..]
    {
      assert g.tasks[u] == Queued && u != queue[0];
    }
  }

  lemma {:induction false} ReachedCoversRunning(tasks: seq<Phase>)
    ensures Count(tasks, Running) <= Reached(tasks)
  {
    if tasks != [] {
      ReachedCoversRunning(tasks[..|tasks| - 1]);
    }
  }

  lemma {:induction false} RunKeepsInv(g: Group, steps: seq<Step>)
    requires Inv(g) && IsRun(g, steps)
    ensures Inv(After(g, steps)) && Reached(After(g, steps).tasks) == Reached(g.tasks)
    ensures After(g, steps).max == g.max
    decreases steps
  {
    if steps != [] {
      StepKeepsInv(g, steps[0]);
      RunKeepsInv(Apply(g, steps[0]), steps[1..]);
    }
  }

  /** In every schedule the number of running tasks never exceeds the limit, a task
      waits only while all slots are taken, and the reported concurrency is exact. */
  lemma BoundedInEveryRun(max: int, reaches: seq<bool>, steps: seq<Step>)
    requires max >= 0 && IsRun(Launch(max, reaches), steps)
    ensures var g := After(Launch(max, reaches), steps);
            && Count(g.tasks, Running) + Count(g.tasks, Woken) <= max
            && (Count(g.tasks, Queued) > 0 ==> Count(g.tasks, Running) + Count(g.tasks, Woken) == max)
            && g.sem.activeCount == Count(g.tasks, Running)
            && g.sem.highWaterMark == Min(max, |Acquirers(reaches)|)
  {
    LaunchState(max, reaches);
    RunKeepsInv(Launch(max, reaches), steps);
    var g := After(Launch(max, reaches), steps);
    CountPositive(g.tasks, Queued);
  }

  // ----- FIFO

  ghost predicate SuffixOf(s: seq<nat>, whole: seq<nat>) {
    |s| <= |whole| && s == whole[|whole| - |s|..]
  }

  lemma SuffixTransitive(a: seq<nat>, b: seq<nat>, c: seq<nat>)
    requires SuffixOf(a, b) && SuffixOf(b, c)
    ensures SuffixOf(a, c)
  {
    assert c[|c| - |b|..][|b| - |a|..] == c[|c| - |a|..];
  }

  lemma StepDequeues(g: Group, step: Step)
    requires Enabled(g, step)
    ensures SuffixOf(Apply(g, step).sem.queue, g.sem.queue)
  {
  }

  /** The queue only ever loses tasks from its front. */
  lemma {:induction false} WakesInOrder(g: Group, steps: seq<Step>)
    requires IsRun(g, steps)
    ensures SuffixOf(After(g, steps).sem.queue, g.sem.queue)
    decreases steps
  {
    if steps != [] {
      var next := Apply(g, steps[0]);
      WakesInOrder(next, steps[1..]);
      StepDequeues(g, steps[0]);
      SuffixTransitive(After(g, steps).sem.queue, next.sem.queue, g.sem.queue);
    }
  }

  /** The first `w` acquirers have been admitted or woken, and exactly the others still wait. */
  ghost predicate StillWaiting(g: Group, acquirers: seq<nat>, w: nat) {
    && w <= |acquirers|
    && g.sem.queue == acquirers[w..]
    && forall t :: 0 <= t < |g.tasks| ==> (g.tasks[t] == Queued <==> t in acquirers[w..])
  }

  lemma QueueIsSuffix(g: Group, acquirers: seq<nat>)
    requires QueueIsQueued(g) && SuffixOf(g.sem.queue, acquirers)
    ensures StillWaiting(g, acquirers, |acquirers| - |g.sem.queue|)
  {
    var waiting := acquirers[|acquirers| - |g.sem.queue|..];
    forall t | 0 <= t < |g.tasks|
      ensures g.tasks[t] == Queued <==> t in waiting
    {
      if t in waiting {
        var i :| 0 <= i < |g.sem.queue| && g.sem.queue[i] == t;
      }
    }
  }

  lemma LaunchQueueIsSuffix(max: int, reaches: seq<bool>)
    requires max >= 0
    ensures var all := Acquirers(reaches);
            |Launch(max, reaches).sem.queue| == |all| - Min(max, |all|) && SuffixOf(Launch(max, reaches).sem.queue, all)
  {
    LaunchSemaphore(max, reaches);
  }

  lemma QueuedInEveryRun(max: int, reaches: seq<bool>, steps: seq<Step>)
    requires max >= 0 && IsRun(Launch(max, reaches), steps)
    ensures QueueIsQueued(After(Launch(max, reaches), steps))
  {
    LaunchState(max, reaches);
    RunKeepsInv(Launch(max, reaches), steps);
  }

  lemma SuffixStillWaits(start: Group, last: Group, acquirers: seq<nat>)
    requires SuffixOf(start.sem.queue, acquirers) && SuffixOf(last.sem.queue, start.sem.queue) && QueueIsQueued(last)
    ensures |last.sem.queue| <= |start.sem.queue|
    ensures |last.sem.queue| <= |acquirers| && StillWaiting(last, acquirers, |acquirers| - |last.sem.queue|)
  {
    SuffixTransitive(last.sem.queue, start.sem.queue, acquirers);
    QueueIsSuffix(last, acquirers);
  }

  /** Waiters are woken first come, first served: at any moment the tasks still
      waiting are the last of the acquirers, in submission order. */
  lemma FirstComeFirstServed(max: int, reaches: seq<bool>, steps: seq<Step>)
    requires max >= 0 && IsRun(Launch(max, reaches), steps)
    ensures exists w :: Min(max, |Acquirers(reaches)|) <= w &&
                        StillWaiting(After(Launch(max, reaches), steps), Acquirers(reaches), w)
  {
    var start := Launch(max, reaches);
    LaunchQueueIsSuffix(max, reaches);
    QueuedInEveryRun(max, reaches, steps);
    WakesInOrder(start, steps);
    SuffixStillWaits(start, After(start, steps), Acquirers(reaches));
  }

  // ----- Progress

  ghost predicate Finished(g: Group) {
    forall t :: 0 <= t < |g.tasks| ==> g.tasks[t] == Skipped || g.tasks[t] == Done
  }

  function Work(tasks: seq<Phase>): nat {
    3 * Count(tasks, Queued) + 2 * Count(tasks, Woken) + Count(tasks, Running)
  }

  /** With at least one slot no schedule gets stuck before every task is done. */
  lemma NeverStuck(g: Group)
    requires Inv(g) && g.max >= 1 && !Finished(g)
    ensures exists step :: Enabled(g, step)
  {
    var t :| 0 <= t < |g.tasks| && g.tasks[t] != Skipped && g.tasks[t] != Done;
    CountPositive(g.tasks, Running);
    CountPositive(g.tasks, Woken);
    if g.tasks[t] == Queued {
      assert g.sem.queue != [];
    }
    if Count(g.tasks, Running) > 0 {
      var u :| 0 <= u < |g.tasks| && g.tasks[u] == Running;
      assert Enabled(g, Finish(u));
    } else {
      var u :| 0 <= u < |g.tasks| && g.tasks[u] == Woken;
      assert Enabled(g, Resume(u));
    }
  }

  lemma StepDoesWork(g: Group, step: Step)
    requires Inv(g) && Enabled(g, step)
    ensures Work(Apply(g, step).tasks) < Work(g.tasks)
  {
    if step.Resume? {
      PhaseMoves(g.tasks, step.task, Running);
    } else {
      PhaseMoves(g.tasks, step.task, Done);
      if g.sem.queue != [] {
        WakeCounts(g.tasks, step.task, g.sem.queue[0]);
      }
    }
  }

  lemma {:induction false} RunDoesWork(g: Group, steps: seq<Step>)
    requires Inv(g) && IsRun(g, steps)
    ensures |steps| + Work(After(g, steps).tasks) <= Work(g.tasks)
    decreases steps
  {
    if steps != [] {
      StepKeepsInv(g, steps[0]);
      StepDoesWork(g, steps[0]);
      RunDoesWork(Apply(g, steps[0]), steps[1..]);
    }
  }

  /** Every schedule is finite, and one that cannot go on has finished every task. */
  lemma EveryMaximalRunFinishes(max: int, reaches: seq<bool>, steps: seq<Step>)
    requires max >= 1 && IsRun(Launch(max, reaches), steps)
    ensures |steps| <= Work(Launch(max, reaches).tasks)
    ensures (forall step :: !Enabled(After(Launch(max, reaches), steps), step))
            ==> Finished(After(Launch(max, reaches), steps))
  {
    LaunchState(max, reaches);
    RunKeepsInv(Launch(max, reaches), steps);
    RunDoesWork(Launch(max, reaches), steps);
    if !Finished(After(Launch(max, reaches), steps)) {
      NeverStuck(After(Launch(max, reaches), steps));
    }
  }

  /** A limit below one makes the first acquirer wait for ever; nothing else does. */
  lemma StuckAtLaunchIff(max: int, reaches: seq<bool>)
    ensures var g := Launch(max, reaches);
            (!Finished(g) && forall step :: !Enabled(g, step)) <==> max <= 0 && Acquirers(reaches) != []
  {
    var g := Launch(max, reaches);
    if max >= 1 {
      LaunchState(max, reaches);
      if !Finished(g) {
        NeverStuck(g);
      }
    } else {
      LaunchClosed(max, reaches);
      forall t: nat
        ensures t in Acquirers(reaches) <==> t < |reaches| && reaches[t]
      {
        AcquirersMember(reaches, t);
      }
      if Acquirers(reaches) != [] {
        assert Acquirers(reaches)[0] in Acquirers(reaches);
      }
    }
  }

  lemma {:induction false} LaunchClosed(max: int, reaches: seq<bool>)
    requires max <= 0
    ensures var g := Launch(max, reaches);
            && |g.tasks| == |reaches| && g.sem.activeCount == 0
            && (forall t :: 0 <= t < |reaches| ==> g.tasks[t] == if reaches[t] then Queued else Skipped)
  {
    if reaches != [] {
      LaunchClosed(max, reaches[..|reaches| - 1]);
    }
  }

  // ----- Why every acquire must come before the first release

  /** A task that called `acquire` late would keep the bound unless it slipped in
      between a release and the resumption of the waiter that release woke. */
  lemma LateAcquireBreaksBoundIff(g: Group, task: nat)
    requires Inv(g) && task == |g.tasks|
    ensures var late := Group(g.max, g.tasks + [if g.sem.activeCount < g.max then Running else Queued],
                              AcquireSync(g.sem, g.max, task));
            Count(late.tasks, Running) + Count(late.tasks, Woken) > g.max <==>
            g.sem.activeCount < g.max && g.sem.activeCount + Count(g.tasks, Woken) == g.max
  {
    var now := if g.sem.activeCount < g.max then Running else Queued;
    CountPush(g.tasks, now, Running);
    CountPush(g.tasks, now, Woken);
  }
}
