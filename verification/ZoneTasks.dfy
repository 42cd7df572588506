/** The task life cycle of zone.js as a state machine: scheduling, running and cancelling tasks, and the counts that
    the zone delegates keep of them. `T` and `D` stand for the identities of tasks and of zone delegates. */
module ZoneTasks {

  datatype Kind = Micro | Macro | Event

  /** The states of a task. */
  datatype Phase = NotScheduled | Scheduling | Scheduled | Running | Canceling | Unknown

  /** The array of delegates made for one scheduling; `id` tells it from other arrays. */
  datatype Roll<D> = NoRoll | Roll(id: nat, ds: seq<D>)

  /** `counted` records whether the delegates of the roll count this task. */
  datatype Task<D> = Task(kind: Kind, periodic: bool, phase: Phase, runCount: nat, roll: Roll<D>, counted: bool)

  datatype Counts = Counts(micro: int, macro: int, event: int)

  /** One call of `onHasTask`: for which delegate, which kind changed, and what it is told of that kind. */
  datatype Notice<D> = Notice(d: D, change: Kind, has: bool)

  /** What is on the call stack: a run, with whether it was the one that set the task running; a scheduling, with
      its roll; a cancelling. */
  datatype Frame<T> = RunFrame(t: T, entered: bool) | ScheduleFrame(t: T, roll: nat) | CancelFrame(t: T)

  datatype State<T, D> = State(tasks: map<T, Task<D>>, counts: map<D, Counts>, notices: seq<Notice<D>>,
                               frames: seq<Frame<T>>, rolls: nat)

  function Get(c: Counts, k: Kind): int
  {
    match k case Micro => c.micro case Macro => c.macro case Event => c.event
  }

  function Put(c: Counts, k: Kind, n: int): Counts
  {
    match k case Micro => c.(micro := n) case Macro => c.(macro := n) case Event => c.(event := n)
  }

  /** The counts and notices after an update, and whether it returned. */
  datatype Bumped<D> = Bumped(counts: map<D, Counts>, notices: seq<Notice<D>>, ok: bool)

  /** `_updateTaskCount` of one delegate. */
  function BumpOne<D(==)>(counts: map<D, Counts>, notices: seq<Notice<D>>, d: D, k: Kind, delta: int): (b: Bumped<D>)
    requires d in counts
    ensures b.counts.Keys == counts.Keys
  {
    var was := Get(counts[d], k);
    var now := was + delta;
    var c := counts[d := Put(counts[d], k, now)];
    if now < 0 then Bumped(c, notices, false)
    else if was == 0 || now == 0 then Bumped(c, notices + [Notice(d, k, now > 0)], true)
    else Bumped(c, notices, true)
  }

  /** `_updateTaskCount` of a zone: every delegate of the roll, in order. */
  function Bump<D(==)>(counts: map<D, Counts>, notices: seq<Notice<D>>, ds: seq<D>, k: Kind, delta: int): (b: Bumped<D>)
    requires forall d | d in ds :: d in counts
    ensures b.counts.Keys == counts.Keys
    decreases |ds|
  {
    if ds == [] then Bumped(counts, notices, true)
    else
      var b := BumpOne(counts, notices, ds[0], k, delta);
      if b.ok then Bump(b.counts, b.notices, ds[1..], k, delta) else b
  }

  /** A step returns or throws. */
  datatype Outcome<T, D> = Outcome(st: State<T, D>, ok: bool)

  predicate Known<T, D(==)>(st: State<T, D>)
  {
    forall t | t in st.tasks :: st.tasks[t].roll.Roll? ==> forall d | d in st.tasks[t].roll.ds :: d in st.counts
  }

  /** Counting the task in or out; without a roll there is nothing to go through, which throws. */
  function Recount<T(==), D(==)>(st: State<T, D>, t: T, delta: int): Outcome<T, D>
    requires Known(st) && t in st.tasks
  {
    var task := st.tasks[t];
    if task.roll.NoRoll? then Outcome(st, false)
    else
      var b := Bump(st.counts, st.notices, task.roll.ds, task.kind, delta);
      var after := if delta < 0 then task.(roll := NoRoll, counted := false) else task.(counted := true);
      Outcome(st.(counts := b.counts, notices := b.notices, tasks := st.tasks[t := after]), b.ok)
  }

  /** `_transitionTo`. */
  function MoveTo<T(==), D>(st: State<T, D>, t: T, to: Phase, from: Phase, or: Phase): Outcome<T, D>
    requires t in st.tasks
  {
    var task := st.tasks[t];
    if task.phase != from && task.phase != or then Outcome(st, false)
    else
      var roll := if to == NotScheduled then NoRoll else task.roll;
      Outcome(st.(tasks := st.tasks[t := task.(phase := to, roll := roll)]), true)
  }

  // ---- scheduling ----

  /** Up to the call of the hooks; `chain` are the delegates that they put on the roll. */
  function BeginSchedule<T(==), D>(st: State<T, D>, t: T, chain: seq<D>): Outcome<T, D>
    requires t in st.tasks
  {
    var m := MoveTo(st, t, Scheduling, NotScheduled, NotScheduled);
    if !m.ok then m
    else
      Outcome(m.st.(tasks := m.st.tasks[t := m.st.tasks[t].(roll := Roll(st.rolls, chain))], rolls := st.rolls + 1,
                    frames := st.frames + [ScheduleFrame(t, st.rolls)]), true)
  }

  function Pop<T, D>(st: State<T, D>): State<T, D>
    requires st.frames != []
  {
    st.(frames := st.frames[..|st.frames| - 1])
  }

  predicate OnTop<T(==), D>(st: State<T, D>, f: Frame<T>)
  {
    st.frames != [] && st.frames[|st.frames| - 1] == f && f.t in st.tasks
  }

  /** After the hooks: the task is counted unless the hooks have given it another roll or none. */
  function EndSchedule<T(==), D(==)>(st: State<T, D>, t: T, roll: nat): Outcome<T, D>
    requires Known(st) && OnTop(st, ScheduleFrame(t, roll))
  {
    var s := Pop(st);
    var r := if s.tasks[t].roll.Roll? && s.tasks[t].roll.id == roll then Recount(s, t, 1) else Outcome(s, true);
    if !r.ok then r
    else if r.st.tasks[t].phase == Scheduling then MoveTo(r.st, t, Scheduled, Scheduling, Scheduling)
    else r
  }

  /** A hook threw: the task ends up unknown, if it is still being scheduled or not scheduled. */
  function FailSchedule<T(==), D>(st: State<T, D>, t: T, roll: nat): Outcome<T, D>
    requires OnTop(st, ScheduleFrame(t, roll))
  {
    MoveTo(Pop(st), t, Unknown, Scheduling, NotScheduled)
  }

  /** `cancelScheduleRequest`. */
  function Withdraw<T(==), D>(st: State<T, D>, t: T): Outcome<T, D>
    requires t in st.tasks
  {
    MoveTo(st, t, NotScheduled, Scheduling, Scheduling)
  }

  // ---- running ----

  /** `runTask` up to the callback; an event task that is not scheduled is passed over. */
  function BeginRun<T(==), D>(st: State<T, D>, t: T): Outcome<T, D>
    requires t in st.tasks
  {
    var task := st.tasks[t];
    if task.phase == NotScheduled && task.kind == Event then Outcome(st, true)
    else
      var entered := task.phase != Running;
      var m := if entered then MoveTo(st, t, Running, Scheduled, Scheduled) else Outcome(st, true);
      if !m.ok then m
      else
        Outcome(m.st.(tasks := m.st.tasks[t := m.st.tasks[t].(runCount := task.runCount + 1)],
                      frames := st.frames + [RunFrame(t, entered)]), true)
  }

  /** After the callback, whether it threw or not. */
  function EndRun<T(==), D(==)>(st: State<T, D>, t: T, entered: bool): Outcome<T, D>
    requires Known(st) && OnTop(st, RunFrame(t, entered))
  {
    var s := Pop(st);
    var task := s.tasks[t];
    if task.phase == NotScheduled || task.phase == Unknown then Outcome(s, true)
    else if task.kind == Event || task.periodic then
      if entered then MoveTo(s, t, Scheduled, Running, Running) else Outcome(s, true)
    else
      var r := Recount(s.(tasks := s.tasks[t := task.(runCount := 0)]), t, -1);
      if r.ok && entered then MoveTo(r.st, t, NotScheduled, Running, NotScheduled) else r
  }

  // ---- cancelling ----

  function BeginCancel<T(==), D>(st: State<T, D>, t: T): Outcome<T, D>
    requires t in st.tasks
  {
    var m := MoveTo(st, t, Canceling, Scheduled, Running);
    if !m.ok then m else Outcome(m.st.(frames := st.frames + [CancelFrame(t)]), true)
  }

  function EndCancel<T(==), D(==)>(st: State<T, D>, t: T): Outcome<T, D>
    requires Known(st) && OnTop(st, CancelFrame(t))
  {
    var r := Recount(Pop(st), t, -1);
    if !r.ok then r
    else
      var m := MoveTo(r.st, t, NotScheduled, Canceling, Canceling);
      if !m.ok then m else Outcome(m.st.(tasks := m.st.tasks[t := m.st.tasks[t].(runCount := 0)]), true)
  }

  /** A hook threw while cancelling: the task stays unknown, and counted. */
  function FailCancel<T(==), D>(st: State<T, D>, t: T): Outcome<T, D>
    requires OnTop(st, CancelFrame(t))
  {
    MoveTo(Pop(st), t, Unknown, Canceling, Canceling)
  }
}
