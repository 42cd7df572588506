/** The same steps on objects: tasks with a state and a roll of delegates, delegates with their counts. */
module ZoneTaskObjects {
  import opened Sequences
  import opened ZoneTasks
  import opened TaskCounts

  /** `hasTask`: the zone or one above it has an `onHasTask` hook. */
  class ZoneDelegate {
    const parent: ZoneDelegate?
    const hasTask: bool
    ghost const depth: nat
    var micro: int
    var macro: int
    var event: int

    ghost function Now(): Counts
      reads this
    {
      Counts(micro, macro, event)
    }

    constructor (parent: ZoneDelegate?, onHasTask: bool)
      ensures Now() == Counts(0, 0, 0) && this.parent == parent
              && this.depth == (if parent == null then 0 else parent.depth + 1)
      ensures hasTask == (onHasTask || (parent != null && parent.hasTask))
    {
      this.parent := parent;
      this.hasTask := onHasTask || (parent != null && parent.hasTask);
      this.depth := if parent == null then 0 else parent.depth + 1;
      micro, macro, event := 0, 0, 0;
    }

    /** `_updateTaskCount`: whether `onHasTask` is called, what it is told, and whether the update returns. */
    method UpdateTaskCount(k: Kind, delta: int) returns (told: bool, has: bool, ok: bool)
      modifies this
      ensures Now() == Put(old(Now()), k, Get(old(Now()), k) + delta)
      ensures var was, now := Get(old(Now()), k), Get(old(Now()), k) + delta;
        && ok == (now >= 0) && told == (ok && (was == 0 || now == 0)) && has == (now > 0)
    {
      var was, now;
      match k {
        case Micro => was := micro; micro := was + delta;
        case Macro => was := macro; macro := was + delta;
        case Event => was := event; event := was + delta;
      }
      now := was + delta;
      ok := now >= 0;
      told, has := ok && (was == 0 || now == 0), now > 0;
    }
  }

  class ZoneTask {
    const kind: Kind
    const periodic: bool
    var phase: Phase
    var runCount: nat
    var zoneDelegates: Roll<ZoneDelegate>
    ghost var counted: bool

    ghost function Now(): Task<ZoneDelegate>
      reads this
    {
      Task(kind, periodic, phase, runCount, zoneDelegates, counted)
    }

    constructor (kind: Kind, periodic: bool)
      ensures Now() == Task(kind, periodic, NotScheduled, 0, NoRoll, false)
    {
      this.kind, this.periodic, phase, runCount, zoneDelegates, counted :=
        kind, periodic, NotScheduled, 0, NoRoll, false;
    }

    method TransitionTo(to: Phase, from: Phase, or: Phase) returns (ok: bool)
      modifies this`phase, this`zoneDelegates
      ensures ok == (old(phase) == from || old(phase) == or)
      ensures Now() == if !ok then old(Now())
        else old(Now()).(phase := to, roll := if to == NotScheduled then NoRoll else old(zoneDelegates))
    {
      if phase != from && phase != or {
        return false;
      }
      phase := to;
      if to == NotScheduled {
        zoneDelegates := NoRoll;
      }
      ok := true;
    }
  }

  class Zones {
    ghost var tasks: set<ZoneTask>
    ghost var delegates: set<ZoneDelegate>
    ghost var notices: seq<Notice<ZoneDelegate>>
    var frames: seq<Frame<ZoneTask>>
    var rolls: nat

    ghost function AllCounts(): (c: map<ZoneDelegate, Counts>)
      reads this, delegates
      ensures c.Keys == delegates
    {
      map d | d in delegates :: d.Now()
    }

    ghost function Now(): (st: State<ZoneTask, ZoneDelegate>)
      reads this, tasks, delegates
      ensures st.tasks.Keys == tasks && st.counts.Keys == delegates
    {
      State(map t | t in tasks :: t.Now(), AllCounts(), notices, frames, rolls)
    }

    lemma NowIs(st: State<ZoneTask, ZoneDelegate>)
      requires st.tasks.Keys == tasks && (forall t | t in tasks :: st.tasks[t] == t.Now())
      requires st.counts == AllCounts() && st.notices == notices && st.frames == frames && st.rolls == rolls
      ensures Now() == st
    {
      assert Now().tasks == st.tasks;
    }

    constructor ()
      ensures Now() == Nothing()
    {
      tasks, delegates, notices, frames, rolls := {}, {}, [], [], 0;
    }

    /** One delegate of a roll, with its call of `onHasTask`. */
    method UpdateOne(d: ZoneDelegate, k: Kind, delta: int) returns (ok: bool)
      requires d in delegates
      modifies this`notices, d
      ensures Bumped(AllCounts(), notices, ok) == BumpOne(old(AllCounts()), old(notices), d, k, delta)
    {
      ghost var before := BumpOne(AllCounts(), notices, d, k, delta);
      var told, has;
      told, has, ok := d.UpdateTaskCount(k, delta);
      if told {
        notices := notices + [Notice(d, k, has)];
      }
      assert AllCounts() == before.counts;
    }

    /** Every delegate of a roll in order; a count below zero ends it. */
    method UpdateAll(ds: seq<ZoneDelegate>, k: Kind, delta: int) returns (ok: bool)
      requires forall d | d in ds :: d in delegates
      modifies this`notices, delegates
      ensures Bumped(AllCounts(), notices, ok) == Bump(old(AllCounts()), old(notices), ds, k, delta)
    {
      ghost var all := Bump(AllCounts(), notices, ds, k, delta);
      for i := 0 to |ds|
        invariant Bump(AllCounts(), notices, ds[i..], k, delta) == all
      {
        assert ds[i..][0] == ds[i] && ds[i..][1..] == ds[i + 1..];
        var returned := UpdateOne(ds[i], k, delta);
        if !returned {
          return false;
        }
      }
      ok := true;
    }

    /** `_updateTaskCount` of the zone. */
    method RecountTask(t: ZoneTask, delta: int) returns (ok: bool)
      requires t in tasks && (t.zoneDelegates.Roll? ==> forall d | d in t.zoneDelegates.ds :: d in delegates)
      requires Known(Now())
      modifies this`notices, delegates, t`zoneDelegates, t`counted
      ensures Outcome(Now(), ok) == Recount(old(Now()), t, delta)
    {
      if t.zoneDelegates.NoRoll? {
        return false;
      }
      var ds := t.zoneDelegates.ds;
      MarkCounted(t, delta >= 0);
      ok := UpdateRoll(ds, t.kind, delta);
    }

    /** A task counted out loses its roll. */
    method MarkCounted(t: ZoneTask, counted: bool)
      requires t in tasks
      modifies t`zoneDelegates, t`counted
      ensures var was := old(Now());
        Now() == was.(tasks := was.tasks[t := if counted then was.tasks[t].(counted := true)
                                              else was.tasks[t].(roll := NoRoll, counted := false)])
    {
      ghost var was := Now();
      if counted {
        t.counted := true;
        NowIs(was.(tasks := was.tasks[t := was.tasks[t].(counted := true)]));
      } else {
        t.zoneDelegates, t.counted := NoRoll, false;
        NowIs(was.(tasks := was.tasks[t := was.tasks[t].(roll := NoRoll, counted := false)]));
      }
    }

    method UpdateRoll(ds: seq<ZoneDelegate>, k: Kind, delta: int) returns (ok: bool)
      requires forall d | d in ds :: d in delegates
      modifies this`notices, delegates
      ensures var was := old(Now());
        var b := Bump(was.counts, was.notices, ds, k, delta);
        ok == b.ok && Now() == was.(counts := b.counts, notices := b.notices)
    {
      ghost var was := Now();
      ghost var b := Bump(was.counts, was.notices, ds, k, delta);
      ok := UpdateAll(ds, k, delta);
      NowIs(was.(counts := b.counts, notices := b.notices));
    }

    /** Every delegate but the root's has its parent's beside it. */
    ghost predicate Tree()
      reads this
    {
      forall d | d in delegates :: d.parent != null ==> d.parent in delegates && d.parent.depth < d.depth
    }

    method MakeDelegate(parent: ZoneDelegate?, onHasTask: bool) returns (d: ZoneDelegate)
      requires Inv(Now()) && Tree() && (parent != null ==> parent in delegates)
      modifies this`delegates
      ensures fresh(d) && d.parent == parent && Tree() && d !in old(delegates)
      ensures d.hasTask == (onHasTask || (parent != null && parent.hasTask))
      ensures Now() == Apply(old(Now()), NewDelegate(d)) && Inv(Now())
    {
      ghost var was := Now();
      d := new ZoneDelegate(parent, onHasTask);
      NewDelegateInv(was, d);
      delegates := delegates + {d};
      assert AllCounts() == was.counts[d := Counts(0, 0, 0)];
      NowIs(Apply(was, NewDelegate(d)));
    }

    method MakeTask(kind: Kind, periodic: bool) returns (t: ZoneTask)
      requires Inv(Now())
      modifies this`tasks
      ensures fresh(t) && t !in old(tasks)
      ensures Now() == Apply(old(Now()), NewTask(t, kind, periodic)) && Inv(Now())
    {
      ghost var was := Now();
      t := new ZoneTask(kind, periodic);
      NewTaskInv(was, t, kind, periodic);
      tasks := tasks + {t};
      NowIs(Apply(was, NewTask(t, kind, periodic)));
    }

    /** The delegates that the hooks put on a roll, one zone after the other up the tree: those with a hook for
        `onHasTask` in or above them. */
    method Enroll(d: ZoneDelegate) returns (chain: seq<ZoneDelegate>)
      requires Tree() && d in delegates
      ensures Distinct(chain) && forall e | e in chain :: e in delegates && e.hasTask && e.depth <= d.depth
      ensures if d.hasTask then chain != [] && chain[0] == d else chain == []
      ensures forall i | 0 <= i < |chain| - 1 :: chain[i].parent == chain[i + 1]
      ensures chain != [] && chain[|chain| - 1].parent != null ==> !chain[|chain| - 1].parent.hasTask
      decreases d.depth
    {
      chain := [];
      if d.hasTask {
        if d.parent != null {
          chain := Enroll(d.parent);
        }
        assert d !in chain;
        chain := [d] + chain;
      }
    }

    method MoveTask(t: ZoneTask, to: Phase, from: Phase, or: Phase) returns (ok: bool)
      requires t in tasks
      modifies t`phase, t`zoneDelegates
      ensures Outcome(Now(), ok) == MoveTo(old(Now()), t, to, from, or)
    {
      ghost var after := MoveTo(Now(), t, to, from, or);
      ok := t.TransitionTo(to, from, or);
      NowIs(after.st);
    }

    /** `scheduleTask` up to the hooks, which put the delegates of `chain` on the roll. */
    method BeginScheduling(t: ZoneTask, chain: seq<ZoneDelegate>) returns (ok: bool)
      requires t in tasks
      modifies this`frames, this`rolls, t`phase, t`zoneDelegates
      ensures Outcome(Now(), ok) == BeginSchedule(old(Now()), t, chain)
      ensures ok == (old(t.phase) == NotScheduled)
      ensures ok ==> t.phase == Scheduling && t.zoneDelegates == Roll(old(rolls), chain)
    {
      ok := MoveTask(t, Scheduling, NotScheduled, NotScheduled);
      if ok {
        StartRoll(t, chain);
      }
    }

    method StartRoll(t: ZoneTask, chain: seq<ZoneDelegate>)
      requires t in tasks
      modifies this`frames, this`rolls, t`zoneDelegates
      ensures var was := old(Now());
        Now() == was.(tasks := was.tasks[t := was.tasks[t].(roll := Roll(was.rolls, chain))], rolls := was.rolls + 1,
                      frames := was.frames + [ScheduleFrame(t, was.rolls)])
    {
      ghost var was := Now();
      t.zoneDelegates := Roll(rolls, chain);
      frames := frames + [ScheduleFrame(t, rolls)];
      rolls := rolls + 1;
      NowIs(was.(tasks := was.tasks[t := was.tasks[t].(roll := Roll(was.rolls, chain))], rolls := was.rolls + 1,
                 frames := was.frames + [ScheduleFrame(t, was.rolls)]));
    }

    method ResetRunCount(t: ZoneTask)
      requires t in tasks
      modifies t`runCount
      ensures var was := old(Now()); Now() == was.(tasks := was.tasks[t := was.tasks[t].(runCount := 0)])
    {
      ghost var was := Now();
      t.runCount := 0;
      NowIs(was.(tasks := was.tasks[t := was.tasks[t].(runCount := 0)]));
    }

    method PopFrame()
      requires frames != []
      modifies this`frames
      ensures Now() == Pop(old(Now()))
    {
      frames := frames[..|frames| - 1];
    }

    /** `scheduleTask` after the hooks. */
    method EndScheduling(t: ZoneTask, roll: nat) returns (ok: bool)
      requires Known(Now()) && OnTop(Now(), ScheduleFrame(t, roll))
      modifies this`frames, this`notices, delegates, t
      ensures Outcome(Now(), ok) == EndSchedule(old(Now()), t, roll)
      ensures ok ==> t.phase == if old(t.phase) == Scheduling then Scheduled else old(t.phase)
      ensures ok && old(t.zoneDelegates.Roll? && t.zoneDelegates.id == roll && t.phase == Scheduling) ==>
                t.zoneDelegates == old(t.zoneDelegates) && t.counted
    {
      PopFrame();
      ok := true;
      if t.zoneDelegates.Roll? && t.zoneDelegates.id == roll {
        ok := RecountTask(t, 1);
      }
      if ok && t.phase == Scheduling {
        ok := MoveTask(t, Scheduled, Scheduling, Scheduling);
      }
    }

    method PushRun(t: ZoneTask, entered: bool)
      requires t in tasks
      modifies this`frames, t`runCount
      ensures var was := old(Now());
        Now() == was.(tasks := was.tasks[t := was.tasks[t].(runCount := was.tasks[t].runCount + 1)],
                      frames := was.frames + [RunFrame(t, entered)])
    {
      ghost var was := Now();
      t.runCount := t.runCount + 1;
      frames := frames + [RunFrame(t, entered)];
      NowIs(was.(tasks := was.tasks[t := was.tasks[t].(runCount := was.tasks[t].runCount + 1)],
                 frames := was.frames + [RunFrame(t, entered)]));
    }

    /** `runTask` up to the callback. */
    method BeginRunning(t: ZoneTask) returns (ok: bool)
      requires t in tasks
      modifies this`frames, t`phase, t`zoneDelegates, t`runCount
      ensures Outcome(Now(), ok) == BeginRun(old(Now()), t)
      ensures if old(t.phase) == Scheduled || old(t.phase) == Running
        then ok && t.phase == Running && t.runCount == old(t.runCount) + 1
        else ok == (old(t.phase) == NotScheduled && t.kind == Event) && t.Now() == old(t.Now())
    {
      ok := true;
      if t.phase == NotScheduled && t.kind == Event {
        return;
      }
      var entered := t.phase != Running;
      if entered {
        ok := MoveTask(t, Running, Scheduled, Scheduled);
      }
      if ok {
        PushRun(t, entered);
      }
    }

    /** The `finally` of `runTask`. */
    method EndRunning(t: ZoneTask, entered: bool) returns (ok: bool)
      requires Known(Now()) && OnTop(Now(), RunFrame(t, entered))
      modifies this`frames, this`notices, delegates, t
      ensures Outcome(Now(), ok) == EndRun(old(Now()), t, entered)
      ensures old(t.phase) == Running && (t.kind == Event || t.periodic) ==>
                && ok && t.phase == (if entered then Scheduled else Running) && t.runCount == old(t.runCount)
                && t.zoneDelegates == old(t.zoneDelegates) && t.counted == old(t.counted)
      ensures old(t.phase) == Running && t.kind != Event && !t.periodic && ok ==>
                && t.phase == (if entered then NotScheduled else Running) && t.runCount == 0
                && t.zoneDelegates == NoRoll && !t.counted
      ensures old(t.phase) == NotScheduled || old(t.phase) == Unknown ==> ok && t.Now() == old(t.Now())
    {
      PopFrame();
      ok := true;
      if t.phase != NotScheduled && t.phase != Unknown {
        if t.kind == Event || t.periodic {
          if entered {
            ok := MoveTask(t, Scheduled, Running, Running);
          }
        } else {
          ResetRunCount(t);
          ok := RecountTask(t, -1);
          if ok && entered {
            ok := MoveTask(t, NotScheduled, Running, NotScheduled);
          }
        }
      }
    }

    method BeginCanceling(t: ZoneTask) returns (ok: bool)
      requires t in tasks
      modifies this`frames, t`phase, t`zoneDelegates
      ensures Outcome(Now(), ok) == BeginCancel(old(Now()), t)
      ensures ok == (old(t.phase) == Scheduled || old(t.phase) == Running)
      ensures t.phase == (if ok then Canceling else old(t.phase)) && t.zoneDelegates == old(t.zoneDelegates)
    {
      ok := MoveTask(t, Canceling, Scheduled, Running);
      if ok {
        frames := frames + [CancelFrame(t)];
      }
    }

    method EndCanceling(t: ZoneTask) returns (ok: bool)
      requires Known(Now()) && OnTop(Now(), CancelFrame(t))
      modifies this`frames, this`notices, delegates, t
      ensures Outcome(Now(), ok) == EndCancel(old(Now()), t)
      ensures ok ==> t.phase == NotScheduled && t.runCount == 0 && t.zoneDelegates == NoRoll && !t.counted
    {
      PopFrame();
      ok := RecountTask(t, -1);
      if ok {
        ok := MoveTask(t, NotScheduled, Canceling, Canceling);
        if ok {
          ResetRunCount(t);
        }
      }
    }

    /** A hook threw while scheduling. */
    method FailScheduling(t: ZoneTask, roll: nat) returns (ok: bool)
      requires OnTop(Now(), ScheduleFrame(t, roll))
      modifies this`frames, t`phase, t`zoneDelegates
      ensures Outcome(Now(), ok) == FailSchedule(old(Now()), t, roll)
      ensures ok == (old(t.phase) == Scheduling || old(t.phase) == NotScheduled)
      ensures t.phase == (if ok then Unknown else old(t.phase)) && t.zoneDelegates == old(t.zoneDelegates)
    {
      PopFrame();
      ok := MoveTask(t, Unknown, Scheduling, NotScheduled);
    }

    /** `cancelScheduleRequest`. */
    method CancelScheduleRequest(t: ZoneTask) returns (ok: bool)
      requires t in tasks
      modifies t`phase, t`zoneDelegates
      ensures Outcome(Now(), ok) == Withdraw(old(Now()), t)
      ensures ok == (old(t.phase) == Scheduling)
      ensures if ok then t.phase == NotScheduled && t.zoneDelegates == NoRoll else t.Now() == old(t.Now())
    {
      ok := MoveTask(t, NotScheduled, Scheduling, Scheduling);
    }

    /** A hook threw while cancelling. */
    method FailCanceling(t: ZoneTask) returns (ok: bool)
      requires OnTop(Now(), CancelFrame(t))
      modifies this`frames, t`phase, t`zoneDelegates
      ensures Outcome(Now(), ok) == FailCancel(old(Now()), t)
      ensures ok == (old(t.phase) == Canceling)
      ensures t.phase == (if ok then Unknown else old(t.phase)) && t.zoneDelegates == old(t.zoneDelegates)
    {
      PopFrame();
      ok := MoveTask(t, Unknown, Canceling, Canceling);
    }

    // ---- whole steps ----

    /** Every step but the making of a task or a delegate does to the objects what the state machine does. */
    method Perform(step: Step<ZoneTask, ZoneDelegate>) returns (ok: bool)
      requires Inv(Now()) && Possible(Now(), step) && !step.NewTask? && !step.NewDelegate?
      modifies this`frames, this`rolls, this`notices, tasks, delegates
      ensures Now() == Apply(old(Now()), step) && Inv(Now())
    {
      ApplyInv(Now(), step);
      SoundKnown(Now());
      match step {
        case StartScheduling(t, chain) => ok := BeginScheduling(t, chain);
        case Request(t) => ok := CancelScheduleRequest(t);
        case Start(t) => ok := BeginRunning(t);
        case StartCanceling(t) => ok := BeginCanceling(t);
        case Finish => ok := FinishTop();
        case Throw => ok := ThrowTop();
      }
    }

    /** What is on top of the stack returns. */
    method FinishTop() returns (ok: bool)
      requires Inv(Now()) && Known(Now()) && frames != []
      modifies this`frames, this`notices, tasks, delegates
      ensures Now() == Apply(old(Now()), Finish)
    {
      assert SoundFrame(Now(), |frames| - 1);
      match frames[|frames| - 1] {
        case RunFrame(t, entered) => ok := EndRunning(t, entered);
        case ScheduleFrame(t, roll) => ok := EndScheduling(t, roll);
        case CancelFrame(t) => ok := EndCanceling(t);
      }
    }

    /** It throws. */
    method ThrowTop() returns (ok: bool)
      requires Inv(Now()) && Known(Now()) && frames != []
      modifies this`frames, this`notices, tasks, delegates
      ensures Now() == Apply(old(Now()), Throw)
    {
      assert SoundFrame(Now(), |frames| - 1);
      match frames[|frames| - 1] {
        case RunFrame(t, entered) => ok := EndRunning(t, entered);
        case ScheduleFrame(t, roll) => ok := FailScheduling(t, roll);
        case CancelFrame(t) => ok := FailCanceling(t);
      }
    }

    /** Scheduling a task in the zone of `d`, with the delegates that its hooks put on the roll. */
    method ScheduleTask(t: ZoneTask, d: ZoneDelegate) returns (chain: seq<ZoneDelegate>, ok: bool)
      requires Inv(Now()) && Tree() && t in tasks && d in delegates
      modifies this`frames, this`rolls, this`notices, tasks, delegates
      ensures Possible(old(Now()), StartScheduling(t, chain)) && UpFrom(d, chain)
      ensures Now() == Apply(old(Now()), StartScheduling(t, chain)) && Inv(Now())
    {
      chain := Enroll(d);
      ok := Perform(StartScheduling(t, chain));
    }

    /** The fields of a delegate are the numbers of the tasks that it counts, after every run. */
    lemma FieldsAreExact(steps: seq<Step<ZoneTask, ZoneDelegate>>, d: ZoneDelegate)
      requires IsRun(Nothing<ZoneTask, ZoneDelegate>(), steps, Now()) && d in delegates
      ensures d.micro == |Live(Now().tasks, d, Micro)|
      ensures d.macro == |Live(Now().tasks, d, Macro)|
      ensures d.event == |Live(Now().tasks, d, Event)|
    {
      CountsAreExact(steps, Now(), d, Micro);
      CountsAreExact(steps, Now(), d, Macro);
      CountsAreExact(steps, Now(), d, Event);
    }
  }

  /** From a zone's delegate up the tree, as far as there is an `onHasTask` hook in or above. */
  predicate UpFrom(d: ZoneDelegate, chain: seq<ZoneDelegate>)
  {
    && (if d.hasTask then chain != [] && chain[0] == d else chain == [])
    && (forall i | 0 <= i < |chain| - 1 :: chain[i].parent == chain[i + 1])
    && (chain != [] && chain[|chain| - 1].parent != null ==> !chain[|chain| - 1].parent.hasTask)
  }

  /** What a program can do; tasks and zones go by the order in which they were made. */
  datatype Command =
    | MakeZone(parent: nat, onHasTask: bool)
    | MakeTask(kind: Kind, periodic: bool)
    | Schedule(task: nat, zone: nat)
    | TakeBack(task: nat)
    | Run(task: nat)
    | Cancel(task: nat)
    | Return
    | Fail

  /** What became of a command: no step, or one. */
  datatype Effect = NoStep | One(step: Step<ZoneTask, ZoneDelegate>)

  /** The effect that a command has when the first `n` of `tasks` and the first `m` of `delegates` have been made: what
      it makes is the next of them, and a command about something that has not been made does nothing. */
  predicate Means(st: State<ZoneTask, ZoneDelegate>, c: Command, e: Effect, tasks: seq<ZoneTask>,
                  delegates: seq<ZoneDelegate>, n: nat, m: nat)
    requires n <= |tasks| && m <= |delegates|
  {
    match c
    case MakeZone(parent, hook) =>
      && m < |delegates| && e == One(NewDelegate(delegates[m]))
      && delegates[m].parent == (if parent < m then delegates[parent] else null)
      && delegates[m].hasTask == (hook || (parent < m && delegates[parent].hasTask))
    case MakeTask(kind, periodic) => n < |tasks| && e == One(NewTask(tasks[n], kind, periodic))
    case Schedule(i, j) =>
      if i < n && j < m
      then e.One? && e.step.StartScheduling? && e.step.t == tasks[i] && UpFrom(delegates[j], e.step.chain)
      else e == NoStep
    case TakeBack(i) => e == if i < n then One(Request(tasks[i])) else NoStep
    case Run(i) => e == if i < n then One(Start(tasks[i])) else NoStep
    case Cancel(i) => e == if i < n then One(StartCanceling(tasks[i])) else NoStep
    case Return => e == if st.frames != [] then One(Finish) else NoStep
    case Fail => e == if st.frames != [] then One(Throw) else NoStep
  }

  predicate Allowed(st: State<ZoneTask, ZoneDelegate>, e: Effect)
  {
    e.One? ==> Possible(st, e.step)
  }

  function After(st: State<ZoneTask, ZoneDelegate>, e: Effect): (s: State<ZoneTask, ZoneDelegate>)
    requires Inv(st) && Allowed(st, e)
    ensures Inv(s)
  {
    if e == NoStep then st else
      ApplyInv(st, e.step);
      Apply(st, e.step)
  }

  function Made(c: Command): (nat, nat)
  {
    (if c.MakeTask? then 1 else 0, if c.MakeZone? then 1 else 0)
  }

  /** The commands of a script take effect one after the other, from `st` to `end`. */
  ghost predicate Played(st: State<ZoneTask, ZoneDelegate>, script: seq<Command>, effects: seq<Effect>,
                         tasks: seq<ZoneTask>, delegates: seq<ZoneDelegate>, n: nat, m: nat,
                         end: State<ZoneTask, ZoneDelegate>)
    requires Inv(st) && n <= |tasks| && m <= |delegates|
    decreases |script|
  {
    if script == [] then effects == [] && n == |tasks| && m == |delegates| && st == end
    else
      var k, l := n + Made(script[0]).0, m + Made(script[0]).1;
      && effects != [] && Means(st, script[0], effects[0], tasks, delegates, n, m) && Allowed(st, effects[0])
      && k <= |tasks| && l <= |delegates|
      && Played(After(st, effects[0]), script[1..], effects[1..], tasks, delegates, k, l, end)
  }

  function StepsOf(effects: seq<Effect>): seq<Step<ZoneTask, ZoneDelegate>>
  {
    if effects == [] then []
    else if effects[0] == NoStep then StepsOf(effects[1..])
    else [effects[0].step] + StepsOf(effects[1..])
  }

  lemma EffectFirst(st: State<ZoneTask, ZoneDelegate>, effects: seq<Effect>, end: State<ZoneTask, ZoneDelegate>)
    requires Inv(st) && effects != [] && Allowed(st, effects[0])
    ensures IsRun(After(st, effects[0]), StepsOf(effects[1..]), end) ==> IsRun(st, StepsOf(effects), end)
  {
    if effects[0].One? && IsRun(After(st, effects[0]), StepsOf(effects[1..]), end) {
      OneStep(st, effects[0].step);
      RunOn(st, [effects[0].step], After(st, effects[0]), StepsOf(effects[1..]), end);
    }
  }

  /** What a script does is a run of the state machine, so that all that holds after runs holds of it. */
  lemma {:induction false} PlayedIsRun(st: State<ZoneTask, ZoneDelegate>, script: seq<Command>, effects: seq<Effect>,
                                       tasks: seq<ZoneTask>, delegates: seq<ZoneDelegate>, n: nat, m: nat,
                                       end: State<ZoneTask, ZoneDelegate>)
    requires Inv(st) && n <= |tasks| && m <= |delegates|
    requires Played(st, script, effects, tasks, delegates, n, m, end)
    ensures |effects| == |script| && IsRun(st, StepsOf(effects), end)
    decreases |script|
  {
    if script != [] {
      var k, l := n + Made(script[0]).0, m + Made(script[0]).1;
      PlayedIsRun(After(st, effects[0]), script[1..], effects[1..], tasks, delegates, k, l, end);
      EffectFirst(st, effects, end);
    }
  }

  /** What is made later does not change what a command meant. */
  lemma MeansLater(st: State<ZoneTask, ZoneDelegate>, c: Command, e: Effect, tasks: seq<ZoneTask>,
                   delegates: seq<ZoneDelegate>, tasks': seq<ZoneTask>, delegates': seq<ZoneDelegate>, n: nat, m: nat)
    requires n <= |tasks| && m <= |delegates| && tasks <= tasks' && delegates <= delegates'
    requires Means(st, c, e, tasks, delegates, n, m)
    ensures Means(st, c, e, tasks', delegates', n, m)
  {}

  lemma PlayedFirst(st: State<ZoneTask, ZoneDelegate>, script: seq<Command>, effects: seq<Effect>,
                    ts: seq<ZoneTask>, ds: seq<ZoneDelegate>, tasks: seq<ZoneTask>, delegates: seq<ZoneDelegate>,
                    n: nat, m: nat, end: State<ZoneTask, ZoneDelegate>)
    requires Inv(st) && script != [] && effects != [] && n <= |ts| && m <= |ds| && ts <= tasks && ds <= delegates
    requires Means(st, script[0], effects[0], ts, ds, n, m) && Allowed(st, effects[0])
    requires |ts| == n + Made(script[0]).0 && |ds| == m + Made(script[0]).1
    requires Played(After(st, effects[0]), script[1..], effects[1..], tasks, delegates, |ts|, |ds|, end)
    ensures Played(st, script, effects, tasks, delegates, n, m, end)
  {
    MeansLater(st, script[0], effects[0], ts, ds, tasks, delegates, n, m);
  }

  /** A page with its zones, and the tasks and zones that a program has made. */
  class Page {
    const zones: Zones
    var tasks: seq<ZoneTask>
    var delegates: seq<ZoneDelegate>

    ghost predicate Valid()
      reads this, zones, zones.tasks, zones.delegates
    {
      && Inv(zones.Now()) && zones.Tree()
      && (forall t | t in tasks :: t in zones.tasks) && (forall d | d in delegates :: d in zones.delegates)
    }

    constructor ()
      ensures Valid() && fresh(zones) && zones.Now() == Nothing() && zones.tasks == {} && zones.delegates == {}
    {
      zones := new Zones();
      tasks, delegates := [], [];
    }

    /** New objects join, and none leaves. */
    twostate predicate Grown()
      reads this, zones
    {
      && old(zones.tasks) <= zones.tasks && (forall t | t in zones.tasks :: t in old(zones.tasks) || fresh(t))
      && old(zones.delegates) <= zones.delegates
         && (forall d | d in zones.delegates :: d in old(zones.delegates) || fresh(d))
    }

    /** A command is one step, or none if it is about something that has not been made. */
    method Execute(c: Command) returns (ghost e: Effect)
      requires Valid()
      modifies this, zones, zones.tasks, zones.delegates
      ensures Valid() && Grown() && old(tasks) <= tasks && old(delegates) <= delegates
      ensures |tasks| == old(|tasks|) + Made(c).0 && |delegates| == old(|delegates|) + Made(c).1
      ensures Means(old(zones.Now()), c, e, tasks, delegates, old(|tasks|), old(|delegates|))
      ensures Allowed(old(zones.Now()), e) && zones.Now() == After(old(zones.Now()), e)
    {
      e := NoStep;
      match c {
        case MakeZone(parent, hook) => e := AddZone(parent, hook);
        case MakeTask(kind, periodic) => e := AddTask(kind, periodic);
        case Schedule(i, j) =>
          if i < |tasks| && j < |delegates| {
            e := ScheduleIn(tasks[i], delegates[j]);
          }
        case _ =>
          if Names(c) {
            var step := StepOf(c);
            DoStep(step);
            e := One(step);
          }
      }
    }

    method AddZone(parent: nat, hook: bool) returns (ghost e: Effect)
      requires Valid()
      modifies this`delegates, zones`delegates
      ensures Valid() && Grown() && old(delegates) <= delegates && |delegates| == old(|delegates|) + 1
      ensures Means(old(zones.Now()), MakeZone(parent, hook), e, tasks, delegates, |tasks|, old(|delegates|))
      ensures Allowed(old(zones.Now()), e) && zones.Now() == After(old(zones.Now()), e)
    {
      var d := zones.MakeDelegate(if parent < |delegates| then delegates[parent] else null, hook);
      delegates := delegates + [d];
      e := One(NewDelegate(d));
    }

    method AddTask(kind: Kind, periodic: bool) returns (ghost e: Effect)
      requires Valid()
      modifies this`tasks, zones`tasks
      ensures Valid() && Grown() && old(tasks) <= tasks && |tasks| == old(|tasks|) + 1
      ensures e == One(NewTask(tasks[old(|tasks|)], kind, periodic))
      ensures Allowed(old(zones.Now()), e) && zones.Now() == After(old(zones.Now()), e)
    {
      var t := zones.MakeTask(kind, periodic);
      tasks := tasks + [t];
      e := One(NewTask(t, kind, periodic));
    }

    method ScheduleIn(t: ZoneTask, d: ZoneDelegate) returns (ghost e: Effect)
      requires Valid() && t in zones.tasks && d in zones.delegates
      modifies zones`frames, zones`rolls, zones`notices, zones.tasks, zones.delegates
      ensures Valid() && Grown() && e.One? && e.step.StartScheduling? && e.step.t == t && UpFrom(d, e.step.chain)
      ensures Allowed(old(zones.Now()), e) && zones.Now() == After(old(zones.Now()), e)
    {
      var chain, _ := zones.ScheduleTask(t, d);
      e := One(StartScheduling(t, chain));
    }

    method DoStep(step: Step<ZoneTask, ZoneDelegate>)
      requires Valid() && Possible(zones.Now(), step) && !step.NewTask? && !step.NewDelegate?
      modifies zones`frames, zones`rolls, zones`notices, zones.tasks, zones.delegates
      ensures Valid() && Grown() && zones.Now() == Apply(old(zones.Now()), step)
    {
      var _ := zones.Perform(step);
    }

    /** The command is about a task that was made, or something is under way. */
    predicate Names(c: Command)
      reads this, zones
    {
      match c
      case TakeBack(i) => i < |tasks|
      case Run(i) => i < |tasks|
      case Cancel(i) => i < |tasks|
      case Return => zones.frames != []
      case Fail => zones.frames != []
      case _ => false
    }

    function StepOf(c: Command): Step<ZoneTask, ZoneDelegate>
      requires Names(c)
      reads this, zones
    {
      match c
      case TakeBack(i) => Request(tasks[i])
      case Run(i) => Start(tasks[i])
      case Cancel(i) => StartCanceling(tasks[i])
      case Return => Finish
      case Fail => Throw
    }

    /** A whole program: each of its commands has the effect that it means, one after the other. */
    method Play(script: seq<Command>) returns (ghost effects: seq<Effect>)
      requires Valid()
      modifies this, zones, zones.tasks, zones.delegates
      ensures Valid() && Grown() && old(tasks) <= tasks && old(delegates) <= delegates
      ensures Played(old(zones.Now()), script, effects, tasks, delegates, old(|tasks|), old(|delegates|), zones.Now())
      ensures IsRun(old(zones.Now()), StepsOf(effects), zones.Now())
    {
      ghost var was, n, m := zones.Now(), |tasks|, |delegates|;
      effects := PlayOn(script);
      PlayedIsRun(was, script, effects, tasks, delegates, n, m, zones.Now());
    }

    method PlayOn(script: seq<Command>) returns (ghost effects: seq<Effect>)
      requires Valid()
      modifies this, zones, zones.tasks, zones.delegates
      ensures Valid() && Grown() && old(tasks) <= tasks && old(delegates) <= delegates
      ensures Played(old(zones.Now()), script, effects, tasks, delegates, old(|tasks|), old(|delegates|), zones.Now())
      decreases |script|
    {
      effects := [];
      if script != [] {
        ghost var was, n, m := zones.Now(), |tasks|, |delegates|;
        ghost var first := Execute(script[0]);
        ghost var ts, ds := tasks, delegates;
        ghost var rest := PlayOn(script[1..]);
        effects := [first] + rest;
        assert effects[1..] == rest;
        PlayedFirst(was, script, effects, ts, ds, tasks, delegates, n, m, zones.Now());
      }
    }
  }
}
