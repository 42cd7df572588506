/** What every step of the task life cycle does to its task, to the stack and to the counts, for every state that the
    invariant allows; and whole lives of tasks. */
module TaskSteps {
  import opened Sequences
  import opened ZoneTasks
  import opened TaskCounts

  /** The task `t` becomes `task`, and no other task changes. */
  predicate Becomes<T(==), D(==)>(st: State<T, D>, s: State<T, D>, t: T, task: Task<D>)
  {
    && t in s.tasks && s.tasks[t] == task && s.tasks.Keys == st.tasks.Keys
    && forall u | u in st.tasks && u != t :: s.tasks[u] == st.tasks[u]
  }

  lemma BecomesTwice<T, D>(st: State<T, D>, a: State<T, D>, s: State<T, D>, t: T, first: Task<D>, second: Task<D>)
    requires Becomes(st, a, t, first) && Becomes(a, s, t, second)
    ensures Becomes(st, s, t, second)
  {}

  /** Scheduling starts for a task that is not scheduled, with a roll of its own; for any other it throws. */
  lemma StartsScheduling<T, D>(st: State<T, D>, t: T, chain: seq<D>)
    requires Inv(st) && Possible(st, StartScheduling(t, chain))
    ensures var was, s := st.tasks[t], Apply(st, StartScheduling(t, chain));
      if was.phase == NotScheduled then
        && Becomes(st, s, t, Task(was.kind, was.periodic, Scheduling, was.runCount, Roll(st.rolls, chain), false))
        && s.frames == st.frames + [ScheduleFrame(t, st.rolls)] && s.rolls == st.rolls + 1
      else s == st
    ensures BeginSchedule(st, t, chain).ok <==> st.tasks[t].phase == NotScheduled
  {
    assert SoundTask(st, st.tasks[t]);
  }

  /** When scheduling ends the task is scheduled and counted, unless it was withdrawn or scheduled again meanwhile. */
  lemma EndsScheduling<T, D>(st: State<T, D>, t: T, roll: nat)
    requires Inv(st) && OnTop(st, ScheduleFrame(t, roll))
    ensures var was, s := st.tasks[t], Apply(st, Finish);
      && Becomes(st, s, t, if was.phase == Scheduling
                           then Task(was.kind, was.periodic, Scheduled, was.runCount, was.roll, true) else was)
      && s.frames == st.frames[..|st.frames| - 1] && s.rolls == st.rolls
  {
    SoundKnown(st);
    EndScheduleInv(st, t, roll);
    assert SoundTask(st, st.tasks[t]) && Framed(st, t) && SoundFrame(st, |st.frames| - 1);
    LastIs(st.frames, t);
  }

  /** A hook that throws while scheduling leaves the task unknown and not counted, even if it was withdrawn; what is
      scheduled already stays so. */
  lemma FailsScheduling<T, D>(st: State<T, D>, t: T, roll: nat)
    requires Inv(st) && OnTop(st, ScheduleFrame(t, roll))
    ensures var was, s := st.tasks[t], Apply(st, Throw);
      && Becomes(st, s, t, if was.phase == Scheduling || was.phase == NotScheduled
                           then Task(was.kind, was.periodic, Unknown, was.runCount, was.roll, false) else was)
      && s.frames == st.frames[..|st.frames| - 1] && s.rolls == st.rolls && s.counts == st.counts
  {
    assert SoundTask(st, st.tasks[t]);
  }

  /** Only a task that is being scheduled can be withdrawn. */
  lemma TakesBack<T, D>(st: State<T, D>, t: T)
    requires Inv(st) && t in st.tasks
    ensures var was, s := st.tasks[t], Apply(st, Request(t));
      if was.phase == Scheduling then
        && Becomes(st, s, t, Task(was.kind, was.periodic, NotScheduled, was.runCount, NoRoll, false))
        && s.frames == st.frames && s.counts == st.counts
      else s == st
    ensures Withdraw(st, t).ok <==> st.tasks[t].phase == Scheduling
  {
    assert SoundTask(st, st.tasks[t]);
  }

  /** A scheduled task runs, and one that runs already runs again inside; an event task that is not scheduled is passed
      over; for any other task the call throws. */
  lemma StartsRun<T, D>(st: State<T, D>, t: T)
    requires Inv(st) && t in st.tasks
    ensures var was, s := st.tasks[t], Apply(st, Start(t));
      if was.phase == Scheduled || was.phase == Running then
        && Becomes(st, s, t, Task(was.kind, was.periodic, Running, was.runCount + 1, was.roll, was.counted))
        && s.frames == st.frames + [RunFrame(t, was.phase == Scheduled)] && s.counts == st.counts
      else s == st
    ensures BeginRun(st, t).ok <==>
            || st.tasks[t].phase == Scheduled || st.tasks[t].phase == Running
            || (st.tasks[t].phase == NotScheduled && st.tasks[t].kind == Event)
  {}

  lemma OneShotEnds<T, D>(st: State<T, D>, t: T, entered: bool)
    requires Inv(st) && OnTop(st, RunFrame(t, entered)) && Known(st)
    requires Active(st.tasks[t].phase) && !Repeats(st.tasks[t])
    ensures var was, s := st.tasks[t], EndRun(st, t, entered).st;
      && t in s.tasks && Becomes(st, s, t, s.tasks[t]) && s.counts.Keys == st.counts.Keys
      && s.frames == st.frames[..|st.frames| - 1] && s.rolls == st.rolls
      && s.tasks[t] == Task(was.kind, was.periodic, if entered && was.phase == Running && was.roll.Roll?
                                                    then NotScheduled else was.phase, 0, NoRoll, false)
  {
    RunTop(st, t, entered);
    EndRunThrows(st, t, entered);
    assert SoundTask(st, st.tasks[t]);
  }

  /** The end of a run, whether its callback returned or threw. A task that repeats is scheduled again by the run that
      set it running, on the same roll and still counted, and any other run leaves it alone. A one-shot task is counted
      out and starts afresh, and the run that set it running leaves it not scheduled. */
  lemma EndsRun<T, D>(st: State<T, D>, t: T, entered: bool, step: Step<T, D>)
    requires Inv(st) && OnTop(st, RunFrame(t, entered)) && (step == Finish || step == Throw)
    ensures var was, s := st.tasks[t], Apply(st, step);
      && t in s.tasks && Becomes(st, s, t, s.tasks[t]) && s.counts.Keys == st.counts.Keys
      && s.frames == st.frames[..|st.frames| - 1] && s.rolls == st.rolls
      && (!Active(was.phase) ==> s.tasks[t] == was)
      && (Active(was.phase) && (was.kind == Event || was.periodic) ==>
            && s.tasks[t] == Task(was.kind, was.periodic, if entered && was.phase == Running then Scheduled
                                                          else was.phase, was.runCount, was.roll, true)
            && was.roll.Roll? && s.counts == st.counts)
      && (Active(was.phase) && was.kind != Event && !was.periodic ==>
            s.tasks[t] == Task(was.kind, was.periodic, if entered && was.phase == Running && was.roll.Roll?
                                                       then NotScheduled else was.phase, 0, NoRoll, false))
  {
    SoundKnown(st);
    RunTop(st, t, entered);
    EndRunThrows(st, t, entered);
    var was := st.tasks[t];
    assert SoundTask(st, was);
    if Active(was.phase) && !Repeats(was) {
      OneShotEnds(st, t, entered);
    }
  }

  /** A task can be cancelled while it is scheduled or runs; otherwise the call throws. */
  lemma StartsCanceling<T, D>(st: State<T, D>, t: T)
    requires Inv(st) && t in st.tasks
    ensures var was, s := st.tasks[t], Apply(st, StartCanceling(t));
      if was.phase == Scheduled || was.phase == Running then
        && Becomes(st, s, t, Task(was.kind, was.periodic, Canceling, was.runCount, was.roll, was.counted))
        && s.frames == st.frames + [CancelFrame(t)] && s.counts == st.counts
      else s == st
    ensures BeginCancel(st, t).ok <==> st.tasks[t].phase == Scheduled || st.tasks[t].phase == Running
  {}

  /** Cancelling ends with the task not scheduled, not counted and as good as new, unless it has lost its roll. */
  lemma EndsCanceling<T, D>(st: State<T, D>, t: T)
    requires Inv(st) && OnTop(st, CancelFrame(t))
    ensures var was, s := st.tasks[t], Apply(st, Finish);
      && Becomes(st, s, t, if was.roll.Roll? then Task(was.kind, was.periodic, NotScheduled, 0, NoRoll, false) else was)
      && s.frames == st.frames[..|st.frames| - 1] && s.rolls == st.rolls
  {
    SoundKnown(st);
    EndCancelInv(st, t);
    assert SoundTask(st, st.tasks[t]) && SoundFrame(st, |st.frames| - 1);
  }

  /** A hook that throws while cancelling leaves the task unknown, on its roll and counted as before. */
  lemma FailsCanceling<T, D>(st: State<T, D>, t: T)
    requires Inv(st) && OnTop(st, CancelFrame(t))
    ensures var was, s := st.tasks[t], Apply(st, Throw);
      && Becomes(st, s, t, Task(was.kind, was.periodic, Unknown, was.runCount, was.roll, was.counted))
      && s.frames == st.frames[..|st.frames| - 1] && s.rolls == st.rolls && s.counts == st.counts
  {
    assert SoundFrame(st, |st.frames| - 1);
  }

  /** Between any two states of the invariant that differ in one task, the counts differ by that task. */
  lemma CountsFollow<T, D>(st: State<T, D>, s: State<T, D>, t: T, d: D, k: Kind)
    requires Inv(st) && Inv(s) && t in st.tasks && s.tasks.Keys == st.tasks.Keys && d in st.counts && d in s.counts
    requires forall u | u in st.tasks && u != t :: s.tasks[u] == st.tasks[u]
    ensures Count(s.counts, d, k) == Count(st.counts, d, k) + (if CountedBy(s.tasks[t], d, k) then 1 else 0)
            - if CountedBy(st.tasks[t], d, k) then 1 else 0
  {
    LiveSame(st.tasks, s.tasks, t, d, k);
  }

  // ---- whole lives ----

  lemma TwoSteps<T, D>(st: State<T, D>, first: Step<T, D>, second: Step<T, D>)
    requires Inv(st) && Possible(st, first) && Inv(Apply(st, first)) && Possible(Apply(st, first), second)
    ensures IsRun(st, [first, second], Apply(Apply(st, first), second))
    ensures Inv(Apply(Apply(st, first), second))
  {
    var next := Apply(st, first);
    OneStep(next, second);
    ApplyInv(next, second);
    assert [first, second][1..] == [second];
  }

  /** Scheduling a task, when the hooks do nothing else. */
  lemma ScheduleWhole<T, D>(st: State<T, D>, t: T, chain: seq<D>) returns (s: State<T, D>)
    requires Inv(st) && Possible(st, StartScheduling(t, chain)) && st.tasks[t].phase == NotScheduled
    ensures IsRun(st, [StartScheduling(t, chain), Finish], s) && Inv(s) && s.frames == st.frames
    ensures var was := st.tasks[t];
      Becomes(st, s, t, Task(was.kind, was.periodic, Scheduled, was.runCount, Roll(st.rolls, chain), true))
    ensures s.counts.Keys == st.counts.Keys
  {
    StartsScheduling(st, t, chain);
    ApplyInv(st, StartScheduling(t, chain));
    var a := Apply(st, StartScheduling(t, chain));
    EndsScheduling(a, t, st.rolls);
    TwoSteps(st, StartScheduling(t, chain), Finish);
    s := Apply(a, Finish);
    assert a.frames[..|a.frames| - 1] == st.frames;
  }

  lemma RunEntered<T, D>(st: State<T, D>, t: T) returns (a: State<T, D>)
    requires Inv(st) && t in st.tasks && st.tasks[t].phase == Scheduled
    ensures a == Apply(st, Start(t)) && Inv(a) && OnTop(a, RunFrame(t, true)) && a.counts == st.counts
    ensures var was := st.tasks[t];
      Becomes(st, a, t, Task(was.kind, was.periodic, Running, was.runCount + 1, was.roll, was.counted))
    ensures a.frames[..|a.frames| - 1] == st.frames
  {
    StartsRun(st, t);
    ApplyInv(st, Start(t));
    a := Apply(st, Start(t));
  }

  /** Running a scheduled task, when its callback does nothing to it. */
  lemma RunWhole<T, D>(st: State<T, D>, t: T) returns (s: State<T, D>)
    requires Inv(st) && t in st.tasks && st.tasks[t].phase == Scheduled && st.tasks[t].roll.Roll?
    ensures IsRun(st, [Start(t), Finish], s) && Inv(s) && s.frames == st.frames && s.counts.Keys == st.counts.Keys
    ensures var was := st.tasks[t];
      && (was.kind == Event || was.periodic ==>
            Becomes(st, s, t, Task(was.kind, was.periodic, Scheduled, was.runCount + 1, was.roll, true)))
      && (was.kind != Event && !was.periodic ==>
            Becomes(st, s, t, Task(was.kind, was.periodic, NotScheduled, 0, NoRoll, false)))
  {
    assert SoundTask(st, st.tasks[t]);
    var a := RunEntered(st, t);
    EndsRun(a, t, true, Finish);
    TwoSteps(st, Start(t), Finish);
    s := Apply(a, Finish);
    BecomesTwice(st, a, s, t, a.tasks[t], s.tasks[t]);
  }

  lemma CancelWhole<T, D>(st: State<T, D>, t: T) returns (s: State<T, D>)
    requires Inv(st) && t in st.tasks && st.tasks[t].phase == Scheduled && st.tasks[t].roll.Roll?
    ensures IsRun(st, [StartCanceling(t), Finish], s) && Inv(s) && s.frames == st.frames
    ensures s.counts.Keys == st.counts.Keys
    ensures var was := st.tasks[t]; Becomes(st, s, t, Task(was.kind, was.periodic, NotScheduled, 0, NoRoll, false))
  {
    StartsCanceling(st, t);
    ApplyInv(st, StartCanceling(t));
    var a := Apply(st, StartCanceling(t));
    EndsCanceling(a, t);
    TwoSteps(st, StartCanceling(t), Finish);
    s := Apply(a, Finish);
    assert a.frames[..|a.frames| - 1] == st.frames;
  }

  /** `n` runs of a task, one after the other. */
  function Runs<T, D>(t: T, n: nat): seq<Step<T, D>>
  {
    if n == 0 then [] else [Start(t), Finish] + Runs(t, n - 1)
  }

  lemma RunsOn<T, D>(st: State<T, D>, t: T, n: nat, a: State<T, D>, s: State<T, D>)
    requires Inv(st) && Inv(a) && n > 0
    ensures IsRun(st, [Start(t), Finish], a) && IsRun(a, Runs(t, n - 1), s) ==> IsRun(st, Runs(t, n), s)
  {
    if IsRun(st, [Start(t), Finish], a) && IsRun(a, Runs(t, n - 1), s) {
      RunOn(st, [Start(t), Finish], a, Runs(t, n - 1), s);
    }
  }

  lemma RunOnce<T, D>(st: State<T, D>, t: T) returns (s: State<T, D>)
    requires Inv(st) && t in st.tasks && st.tasks[t].phase == Scheduled && st.tasks[t].roll.Roll?
    requires st.tasks[t].kind == Event || st.tasks[t].periodic
    ensures IsRun(st, [Start(t), Finish], s) && Inv(s) && s.frames == st.frames && s.counts.Keys == st.counts.Keys
    ensures t in s.tasks && Becomes(st, s, t, s.tasks[t])
    ensures var was := st.tasks[t];
      s.tasks[t] == Task(was.kind, was.periodic, Scheduled, was.runCount + 1, was.roll, true)
  {
    s := RunWhole(st, t);
  }

  lemma {:induction false} RunMany<T, D>(st: State<T, D>, t: T, n: nat) returns (s: State<T, D>)
    requires Inv(st) && t in st.tasks && st.tasks[t].phase == Scheduled && st.tasks[t].roll.Roll?
    requires st.tasks[t].kind == Event || st.tasks[t].periodic
    ensures IsRun(st, Runs(t, n), s) && s.frames == st.frames && s.counts.Keys == st.counts.Keys
    ensures var was := st.tasks[t];
      Becomes(st, s, t, Task(was.kind, was.periodic, Scheduled, was.runCount + n, was.roll, true))
    decreases n
  {
    s := st;
    assert SoundTask(st, st.tasks[t]);
    if n > 0 {
      var a := RunOnce(st, t);
      s := RunMany(a, t, n - 1);
      RunsOn(st, t, n, a, s);
      BecomesTwice(st, a, s, t, a.tasks[t], s.tasks[t]);
    }
  }

  /** A task that is counted neither before nor after leaves all counts as they were. */
  lemma CountsRestored<T, D>(st: State<T, D>, s: State<T, D>, t: T)
    requires Inv(st) && Inv(s) && t in st.tasks && s.tasks.Keys == st.tasks.Keys && s.counts.Keys == st.counts.Keys
    requires forall u | u in st.tasks && u != t :: s.tasks[u] == st.tasks[u]
    requires !st.tasks[t].counted && !s.tasks[t].counted
    ensures s.counts == st.counts
  {
    forall d | d in st.counts ensures s.counts[d] == st.counts[d] {
      CountsFollow(st, s, t, d, Micro);
      CountsFollow(st, s, t, d, Macro);
      CountsFollow(st, s, t, d, Event);
    }
  }

  /** A one-shot task that is scheduled and runs is as good as new afterwards, and every delegate counts what it
      counted before. */
  lemma LifeOfOneShot<T, D>(st: State<T, D>, t: T, chain: seq<D>) returns (end: State<T, D>)
    requires Inv(st) && Possible(st, StartScheduling(t, chain)) && st.tasks[t].phase == NotScheduled
    requires st.tasks[t].kind != Event && !st.tasks[t].periodic
    ensures IsRun(st, [StartScheduling(t, chain), Finish] + [Start(t), Finish], end)
    ensures Becomes(st, end, t, st.tasks[t].(runCount := 0)) && end.frames == st.frames && end.counts == st.counts
  {
    assert SoundTask(st, st.tasks[t]);
    var a := ScheduleWhole(st, t, chain);
    end := RunWhole(a, t);
    RunOn(st, [StartScheduling(t, chain), Finish], a, [Start(t), Finish], end);
    CountsRestored(st, end, t);
  }

  /** A task that was not counted and is now is one more for each delegate of its roll. */
  lemma OneMore<T, D>(st: State<T, D>, s: State<T, D>, t: T, chain: seq<D>)
    requires Inv(st) && Inv(s) && t in st.tasks && t in s.tasks && Becomes(st, s, t, s.tasks[t])
    requires s.counts.Keys == st.counts.Keys && !st.tasks[t].counted && s.tasks[t].counted
    requires s.tasks[t].kind == st.tasks[t].kind && s.tasks[t].roll.Roll? && s.tasks[t].roll.ds == chain
    ensures forall d, k | d in st.counts :: Count(s.counts, d, k) == Count(st.counts, d, k)
                                            + if d in chain && k == st.tasks[t].kind then 1 else 0
  {
    forall d, k | d in st.counts
      ensures Count(s.counts, d, k) == Count(st.counts, d, k) + if d in chain && k == st.tasks[t].kind then 1 else 0
    {
      CountsFollow(st, s, t, d, k);
    }
  }

  lemma ScheduledRuns<T, D>(st: State<T, D>, t: T, chain: seq<D>, n: nat) returns (on: State<T, D>)
    requires Inv(st) && Possible(st, StartScheduling(t, chain)) && st.tasks[t].phase == NotScheduled
    requires st.tasks[t].kind == Event || st.tasks[t].periodic
    ensures IsRun(st, [StartScheduling(t, chain), Finish] + Runs(t, n), on) && Inv(on)
    ensures var was := st.tasks[t];
      Becomes(st, on, t, Task(was.kind, was.periodic, Scheduled, was.runCount + n, Roll(st.rolls, chain), true))
    ensures on.frames == st.frames && on.counts.Keys == st.counts.Keys
  {
    var a := ScheduleWhole(st, t, chain);
    var was := a.tasks[t];
    on := RunMany(a, t, n);
    RunInv(a, Runs(t, n), on);
    RunOn(st, [StartScheduling(t, chain), Finish], a, Runs(t, n), on);
    BecomesTwice(st, a, on, t, was, on.tasks[t]);
  }

  /** An event listener or an interval that is scheduled and runs any number of times is still scheduled, and each
      delegate of its roll counts one task more. */
  lemma StaysScheduled<T, D>(st: State<T, D>, t: T, chain: seq<D>, n: nat) returns (on: State<T, D>)
    requires Inv(st) && Possible(st, StartScheduling(t, chain)) && st.tasks[t].phase == NotScheduled
    requires st.tasks[t].kind == Event || st.tasks[t].periodic
    ensures IsRun(st, [StartScheduling(t, chain), Finish] + Runs(t, n), on)
    ensures var was := st.tasks[t];
      Becomes(st, on, t, Task(was.kind, was.periodic, Scheduled, was.runCount + n, Roll(st.rolls, chain), true))
    ensures on.counts.Keys == st.counts.Keys
    ensures forall d, k | d in st.counts :: Count(on.counts, d, k) == Count(st.counts, d, k)
                                            + if d in chain && k == st.tasks[t].kind then 1 else 0
  {
    assert SoundTask(st, st.tasks[t]);
    on := ScheduledRuns(st, t, chain, n);
    OneMore(st, on, t, chain);
  }

  /** Cancelled after that, it is as good as new, and every delegate counts what it counted before. */
  lemma LifeOfRepeating<T, D>(st: State<T, D>, t: T, chain: seq<D>, n: nat) returns (end: State<T, D>)
    requires Inv(st) && Possible(st, StartScheduling(t, chain)) && st.tasks[t].phase == NotScheduled
    requires st.tasks[t].kind == Event || st.tasks[t].periodic
    ensures IsRun(st, [StartScheduling(t, chain), Finish] + Runs(t, n) + [StartCanceling(t), Finish], end)
    ensures Becomes(st, end, t, st.tasks[t].(runCount := 0)) && end.frames == st.frames && end.counts == st.counts
  {
    assert SoundTask(st, st.tasks[t]);
    var on := ScheduledRuns(st, t, chain, n);
    end := CancelWhole(on, t);
    RunOn(st, [StartScheduling(t, chain), Finish] + Runs(t, n), on, [StartCanceling(t), Finish], end);
    CountsRestored(st, end, t);
  }
}
