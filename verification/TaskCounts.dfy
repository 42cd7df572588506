/** What every run of tasks keeps: each delegate counts exactly the tasks on whose roll it is. */
module TaskCounts {
  import opened Sequences
  import opened ZoneTasks

  function Count<D(==)>(counts: map<D, Counts>, d: D, k: Kind): int
  {
    if d in counts then Get(counts[d], k) else 0
  }

  // ---- one update ----

  /** An update changes the counts of the delegates on the roll by one each, and no other; it returns if none of them
      would fall below zero. */
  lemma {:induction false} BumpCounts<D>(counts: map<D, Counts>, notices: seq<Notice<D>>, ds: seq<D>, k: Kind,
                                         delta: int)
    requires (forall d | d in ds :: d in counts) && Distinct(ds)
    requires forall d | d in ds :: Count(counts, d, k) + delta >= 0
    ensures Bump(counts, notices, ds, k, delta).ok
    ensures forall d, j | d in counts :: Count(Bump(counts, notices, ds, k, delta).counts, d, j)
                                          == Count(counts, d, j) + if d in ds && j == k then delta else 0
    decreases |ds|
  {
    if ds != [] {
      var b := BumpOne(counts, notices, ds[0], k, delta);
      assert ds[0] in ds;
      assert forall d, j | d in counts ::
        Count(b.counts, d, j) == Count(counts, d, j) + if d == ds[0] && j == k then delta else 0;
      BumpCounts(b.counts, b.notices, ds[1..], k, delta);
    }
  }

  /** What a delegate was last told of a kind; nothing told means none. */
  function Told<D(==)>(notices: seq<Notice<D>>, d: D, k: Kind): bool
  {
    if notices == [] then false
    else
      var n := notices[|notices| - 1];
      if n.d == d && n.change == k then n.has else Told(notices[..|notices| - 1], d, k)
  }

  /** No delegate is told twice in a row the same of a kind. */
  predicate Alternates<D(==)>(notices: seq<Notice<D>>)
  {
    if notices == [] then true
    else
      var n := notices[|notices| - 1];
      Alternates(notices[..|notices| - 1]) && n.has != Told(notices[..|notices| - 1], n.d, n.change)
  }

  /** Every delegate was told of each kind exactly when its count left zero or came back to it. */
  predicate WellTold<D(==)>(counts: map<D, Counts>, notices: seq<Notice<D>>)
  {
    && Alternates(notices)
    && (forall n | n in notices :: n.d in counts)
    && (forall d, k | d in counts :: Told(notices, d, k) == (Count(counts, d, k) > 0))
  }

  lemma ToldAppend<D>(notices: seq<Notice<D>>, n: Notice<D>, d: D, k: Kind)
    ensures Told(notices + [n], d, k) == if n.d == d && n.change == k then n.has else Told(notices, d, k)
    ensures Alternates(notices + [n]) <==> Alternates(notices) && n.has != Told(notices, n.d, n.change)
  {
    assert (notices + [n])[..|notices|] == notices;
  }

  lemma BumpOneTold<D>(counts: map<D, Counts>, notices: seq<Notice<D>>, d: D, k: Kind, delta: int)
    requires d in counts && WellTold(counts, notices) && Count(counts, d, k) >= 0
    requires (delta == 1 || delta == -1) && Count(counts, d, k) + delta >= 0
    ensures WellTold(BumpOne(counts, notices, d, k, delta).counts, BumpOne(counts, notices, d, k, delta).notices)
  {
    var b := BumpOne(counts, notices, d, k, delta);
    BumpOneCount(counts, notices, d, k, delta);
    if Count(counts, d, k) == 0 || Count(counts, d, k) + delta == 0 {
      NoticeTold(counts, b.counts, notices, Notice(d, k, Count(counts, d, k) + delta > 0));
    } else {
      StillTold(counts, b.counts, notices);
    }
  }

  lemma BumpOneCount<D>(counts: map<D, Counts>, notices: seq<Notice<D>>, d: D, k: Kind, delta: int)
    requires d in counts
    ensures forall e, j | e in counts :: Count(BumpOne(counts, notices, d, k, delta).counts, e, j)
                                          == Count(counts, e, j) + if e == d && j == k then delta else 0
  {
  }

  lemma StillTold<D>(counts: map<D, Counts>, after: map<D, Counts>, notices: seq<Notice<D>>)
    requires WellTold(counts, notices) && after.Keys == counts.Keys
    requires forall e, j | e in counts :: (Count(after, e, j) > 0) == (Count(counts, e, j) > 0)
    ensures WellTold(after, notices)
  {
    forall e, j | e in after ensures Told(notices, e, j) == (Count(after, e, j) > 0) {
      assert Told(notices, e, j) == (Count(counts, e, j) > 0);
    }
  }

  /** One more notice, for the one count that has left zero or come back to it. */
  lemma NoticeTold<D>(counts: map<D, Counts>, after: map<D, Counts>, notices: seq<Notice<D>>, n: Notice<D>)
    requires WellTold(counts, notices) && n.d in counts && after.Keys == counts.Keys
    requires n.has == (Count(after, n.d, n.change) > 0) != (Count(counts, n.d, n.change) > 0)
    requires forall e, j | e in counts && (e != n.d || j != n.change) :: Count(after, e, j) == Count(counts, e, j)
    ensures WellTold(after, notices + [n])
  {
    ToldAppend(notices, n, n.d, n.change);
    forall e, j | e in after ensures Told(notices + [n], e, j) == (Count(after, e, j) > 0) {
      ToldAppend(notices, n, e, j);
      assert Told(notices, e, j) == (Count(counts, e, j) > 0);
    }
  }

  /** What the first of several updates leaves for the others. */
  lemma BumpFirst<D>(counts: map<D, Counts>, notices: seq<Notice<D>>, ds: seq<D>, k: Kind, delta: int)
    requires ds != [] && (forall d | d in ds :: d in counts) && Distinct(ds)
    requires forall d | d in ds :: Count(counts, d, k) >= 0 && Count(counts, d, k) + delta >= 0
    ensures ds[0] in counts && Count(counts, ds[0], k) >= 0 && Count(counts, ds[0], k) + delta >= 0
    ensures var b := BumpOne(counts, notices, ds[0], k, delta);
      && Bump(counts, notices, ds, k, delta) == Bump(b.counts, b.notices, ds[1..], k, delta)
      && forall d | d in ds[1..] :: d in b.counts && Count(b.counts, d, k) >= 0 && Count(b.counts, d, k) + delta >= 0
  {
    assert ds[0] in ds;
    var b := BumpOne(counts, notices, ds[0], k, delta);
    forall d | d in ds[1..]
      ensures d in b.counts && Count(b.counts, d, k) >= 0 && Count(b.counts, d, k) + delta >= 0
    {
      assert d in ds && d != ds[0];
      assert Count(b.counts, d, k) == Count(counts, d, k);
    }
  }

  lemma {:induction false} BumpTold<D>(counts: map<D, Counts>, notices: seq<Notice<D>>, ds: seq<D>, k: Kind, delta: int)
    requires (forall d | d in ds :: d in counts) && Distinct(ds) && WellTold(counts, notices)
    requires (delta == 1 || delta == -1)
    requires forall d | d in ds :: Count(counts, d, k) >= 0 && Count(counts, d, k) + delta >= 0
    ensures WellTold(Bump(counts, notices, ds, k, delta).counts, Bump(counts, notices, ds, k, delta).notices)
    decreases |ds|
  {
    if ds != [] {
      BumpFirst(counts, notices, ds, k, delta);
      BumpOneTold(counts, notices, ds[0], k, delta);
      var b := BumpOne(counts, notices, ds[0], k, delta);
      BumpTold(b.counts, b.notices, ds[1..], k, delta);
    }
  }

  // ---- the tasks that a delegate counts ----

  predicate CountedBy<D(==)>(task: Task<D>, d: D, k: Kind)
  {
    task.counted && task.kind == k && task.roll.Roll? && d in task.roll.ds
  }

  function Live<T(==), D(==)>(tasks: map<T, Task<D>>, d: D, k: Kind): set<T>
  {
    set t | t in tasks && CountedBy(tasks[t], d, k)
  }

  predicate AllCounted<T(==), D(==)>(st: State<T, D>)
  {
    forall d, k | d in st.counts :: Count(st.counts, d, k) == |Live(st.tasks, d, k)|
  }

  predicate Active(phase: Phase)
  {
    phase == Scheduled || phase == Running || phase == Canceling
  }

  predicate Repeats<D>(task: Task<D>)
  {
    task.kind == Event || task.periodic
  }

  /** A task has a roll of known, distinct delegates or none; one that is not scheduled has none; only tasks with a
      roll are counted, and a scheduled, running or cancelled one with a roll is; a task that repeats keeps its
      roll. */
  predicate SoundTask<T, D(==)>(st: State<T, D>, task: Task<D>)
  {
    && (task.roll.Roll? ==>
          && task.roll.id < st.rolls && Distinct(task.roll.ds)
          && forall d | d in task.roll.ds :: d in st.counts)
    && (task.counted ==> task.roll.Roll?)
    && (task.phase == NotScheduled ==> task.roll.NoRoll?)
    && (task.phase == Scheduling ==> task.roll.Roll? && !task.counted)
    && (Active(task.phase) && task.roll.Roll? ==> task.counted)
    && (Active(task.phase) && Repeats(task) ==> task.roll.Roll?)
  }

  predicate SoundTasks<T(==), D(==)>(st: State<T, D>)
  {
    forall t | t in st.tasks :: SoundTask(st, st.tasks[t])
  }

  /** The last frame of a task on the stack, if any. */
  function Last<T(==)>(frames: seq<Frame<T>>, t: T): int
  {
    if frames == [] then -1
    else if frames[|frames| - 1].t == t then |frames| - 1
    else Last(frames[..|frames| - 1], t)
  }

  /** A frame of a scheduling whose roll the task still has is the task's last, and the task is being scheduled; a
      frame of a cancelling is the task's last, and the task is being cancelled. */
  predicate SoundFrame<T(==), D>(st: State<T, D>, i: nat)
    requires i < |st.frames|
  {
    && st.frames[i].t in st.tasks
    && var task := st.tasks[st.frames[i].t];
      match st.frames[i]
      case RunFrame(_, _) => true
      case ScheduleFrame(t, id) => id < st.rolls
        && (task.roll.Roll? && task.roll.id == id ==> task.phase == Scheduling && i == Last(st.frames, t))
      case CancelFrame(t) => task.phase == Canceling && i == Last(st.frames, t)
  }

  predicate SoundFrames<T(==), D>(st: State<T, D>)
  {
    forall i | 0 <= i < |st.frames| :: SoundFrame(st, i)
  }

  /** A task that is being scheduled or cancelled has the frame of that as its last. */
  predicate Framed<T(==), D>(st: State<T, D>, t: T)
    requires t in st.tasks
  {
    var task, i := st.tasks[t], Last(st.frames, t);
    && (task.phase == Scheduling && task.roll.Roll? ==>
        0 <= i < |st.frames| && st.frames[i] == ScheduleFrame(t, task.roll.id))
    && (task.phase == Canceling && task.roll.Roll? ==> 0 <= i < |st.frames| && st.frames[i] == CancelFrame(t))
  }

  predicate AllFramed<T(==), D>(st: State<T, D>)
  {
    forall t | t in st.tasks :: Framed(st, t)
  }

  predicate Inv<T(==), D(==)>(st: State<T, D>)
  {
    AllCounted(st) && WellTold(st.counts, st.notices) && SoundTasks(st) && SoundFrames(st) && AllFramed(st)
  }

  lemma {:induction false} LastIs<T>(frames: seq<Frame<T>>, t: T)
    ensures -1 <= Last(frames, t) < |frames|
    ensures Last(frames, t) >= 0 ==> frames[Last(frames, t)].t == t
    ensures forall i | Last(frames, t) < i < |frames| :: frames[i].t != t
  {
    if frames != [] && frames[|frames| - 1].t != t {
      LastIs(frames[..|frames| - 1], t);
    }
  }

  lemma LastPush<T>(frames: seq<Frame<T>>, f: Frame<T>, t: T)
    ensures Last(frames + [f], t) == if f.t == t then |frames| else Last(frames, t)
  {
    assert (frames + [f])[..|frames|] == frames;
  }

  // ---- counting in and out ----

  lemma LiveSame<T, D>(a: map<T, Task<D>>, b: map<T, Task<D>>, t: T, d: D, k: Kind)
    requires a.Keys == b.Keys && t in a && forall u | u in a && u != t :: a[u] == b[u]
    ensures |Live(b, d, k)| == |Live(a, d, k)| + (if CountedBy(b[t], d, k) then 1 else 0)
            - if CountedBy(a[t], d, k) then 1 else 0
  {
    assert Live(b, d, k) - {t} == Live(a, d, k) - {t};
    assert Live(b, d, k) == if CountedBy(b[t], d, k) then (Live(b, d, k) - {t}) + {t} else Live(b, d, k) - {t};
    assert Live(a, d, k) == if CountedBy(a[t], d, k) then (Live(a, d, k) - {t}) + {t} else Live(a, d, k) - {t};
  }

  lemma LiveHas<T, D>(tasks: map<T, Task<D>>, t: T, d: D, k: Kind)
    requires t in tasks && CountedBy(tasks[t], d, k)
    ensures |Live(tasks, d, k)| >= 1
  {
    assert t in Live(tasks, d, k);
    assert Live(tasks, d, k) != {};
  }

  /** Counting a task out that is counted, or in that is not, never fails, and keeps the counts exact. */
  lemma RecountExact<T, D>(st: State<T, D>, t: T, delta: int)
    requires AllCounted(st) && WellTold(st.counts, st.notices) && SoundTasks(st) && Known(st) && t in st.tasks
             && st.tasks[t].roll.Roll?
    requires (delta == -1 && st.tasks[t].counted) || (delta == 1 && !st.tasks[t].counted)
    ensures var r := Recount(st, t, delta); r.ok && AllCounted(r.st) && WellTold(r.st.counts, r.st.notices)
  {
    var task := st.tasks[t];
    assert SoundTask(st, task);
    forall d | d in task.roll.ds
      ensures Count(st.counts, d, task.kind) >= 0 && Count(st.counts, d, task.kind) + delta >= 0
    {
      if delta == -1 {
        LiveHas(st.tasks, t, d, task.kind);
      }
    }
    BumpCounts(st.counts, st.notices, task.roll.ds, task.kind, delta);
    BumpTold(st.counts, st.notices, task.roll.ds, task.kind, delta);
    var s := Recount(st, t, delta).st;
    forall d, k | d in s.counts ensures Count(s.counts, d, k) == |Live(s.tasks, d, k)| {
      LiveSame(st.tasks, s.tasks, t, d, k);
    }
  }

  /** Other changes to one task leave the counts alone, if it stays on the same roll or was not counted. */
  lemma TaskChanged<T, D>(st: State<T, D>, s: State<T, D>, t: T)
    requires AllCounted(st) && t in st.tasks && s.counts == st.counts && s.tasks.Keys == st.tasks.Keys
    requires forall u | u in st.tasks && u != t :: s.tasks[u] == st.tasks[u]
    requires s.tasks[t].counted == st.tasks[t].counted
    requires st.tasks[t].counted ==> s.tasks[t].kind == st.tasks[t].kind && s.tasks[t].roll == st.tasks[t].roll
    ensures AllCounted(s)
  {
    forall d, k | d in s.counts ensures Count(s.counts, d, k) == |Live(s.tasks, d, k)| {
      LiveSame(st.tasks, s.tasks, t, d, k);
    }
  }

  /** Frames stay sound when one task changes without any being pushed or popped. */
  lemma FramesKept<T, D>(st: State<T, D>, s: State<T, D>, t: T)
    requires SoundFrames(st) && AllFramed(st) && t in st.tasks
    requires s.frames == st.frames && s.rolls == st.rolls && s.tasks.Keys == st.tasks.Keys
    requires forall u | u in st.tasks && u != t :: s.tasks[u] == st.tasks[u]
    requires st.tasks[t].phase != Canceling && s.tasks[t].phase != Canceling && s.tasks[t].phase != Scheduling
    requires s.tasks[t].roll.NoRoll? || (s.tasks[t].roll == st.tasks[t].roll && st.tasks[t].phase != Scheduling)
    ensures SoundFrames(s) && AllFramed(s)
  {
    forall i | 0 <= i < |s.frames| ensures SoundFrame(s, i) {
      assert SoundFrame(st, i);
    }
    forall u | u in s.tasks ensures Framed(s, u) {
      assert Framed(st, u);
    }
  }

  /** The same when a frame is pushed for the task. */
  lemma FramesPushed<T, D>(st: State<T, D>, s: State<T, D>, f: Frame<T>)
    requires SoundFrames(st) && AllFramed(st) && f.t in st.tasks
    requires s.frames == st.frames + [f] && s.rolls >= st.rolls && s.tasks.Keys == st.tasks.Keys
    requires forall u | u in st.tasks && u != f.t :: s.tasks[u] == st.tasks[u]
    requires st.tasks[f.t].phase != Canceling && st.tasks[f.t].phase != Scheduling
    requires match f
             case RunFrame(t, _) => s.tasks[t].roll == st.tasks[t].roll && s.tasks[t].phase == Running
             case ScheduleFrame(t, id) => id == st.rolls < s.rolls && s.tasks[t].phase == Scheduling
               && s.tasks[t].roll.Roll? && s.tasks[t].roll.id == id
             case CancelFrame(t) => s.tasks[t].roll == st.tasks[t].roll && s.tasks[t].phase == Canceling
    ensures SoundFrames(s) && AllFramed(s)
  {
    forall i | 0 <= i < |s.frames| ensures SoundFrame(s, i) {
      if i < |st.frames| {
        assert SoundFrame(st, i);
      }
      LastPush(st.frames, f, s.frames[i].t);
    }
    forall u | u in s.tasks ensures Framed(s, u) {
      assert Framed(st, u);
      LastIs(st.frames, u);
      LastPush(st.frames, f, u);
    }
  }

  /** And when the last frame is popped. */
  lemma FramesPopped<T, D>(st: State<T, D>, s: State<T, D>, t: T)
    requires SoundFrames(st) && AllFramed(st) && st.frames != [] && st.frames[|st.frames| - 1].t == t && t in st.tasks
    requires s.frames == st.frames[..|st.frames| - 1] && s.rolls == st.rolls && s.tasks.Keys == st.tasks.Keys
    requires forall u | u in st.tasks && u != t :: s.tasks[u] == st.tasks[u]
    requires s.tasks[t].roll.NoRoll? || (s.tasks[t].roll == st.tasks[t].roll && s.tasks[t].phase != Canceling
                                         && s.tasks[t].phase != Scheduling)
    ensures SoundFrames(s) && AllFramed(s)
  {
    forall i | 0 <= i < |s.frames| ensures SoundFrame(s, i) {
      assert SoundFrame(st, i);
    }
    forall u | u in s.tasks ensures Framed(s, u) {
      assert Framed(st, u);
    }
  }

  lemma SoundKnown<T, D>(st: State<T, D>)
    requires SoundTasks(st)
    ensures Known(st)
  {
    forall t | t in st.tasks && st.tasks[t].roll.Roll? ensures forall d | d in st.tasks[t].roll.ds :: d in st.counts {
      assert SoundTask(st, st.tasks[t]);
    }
  }

  lemma TasksSound<T, D>(st: State<T, D>, s: State<T, D>, t: T)
    requires SoundTasks(st) && t in st.tasks && s.tasks.Keys == st.tasks.Keys
    requires s.counts.Keys == st.counts.Keys && s.rolls >= st.rolls
    requires forall u | u in st.tasks && u != t :: s.tasks[u] == st.tasks[u]
    requires SoundTask(s, s.tasks[t])
    ensures SoundTasks(s)
  {
    forall u | u in s.tasks ensures SoundTask(s, s.tasks[u]) {
      if u != t {
        assert SoundTask(st, st.tasks[u]);
      }
    }
  }

  // ---- the steps ----

  lemma BeginScheduleInv<T, D>(st: State<T, D>, t: T, chain: seq<D>)
    requires Inv(st) && t in st.tasks && Distinct(chain) && forall d | d in chain :: d in st.counts
    ensures Inv(BeginSchedule(st, t, chain).st)
  {
    var r := BeginSchedule(st, t, chain);
    if r.ok {
      assert SoundTask(st, st.tasks[t]);
      TasksSound(st, r.st, t);
      TaskChanged(st, r.st, t);
      FramesPushed(st, r.st, ScheduleFrame(t, st.rolls));
    }
  }

  lemma WithdrawInv<T, D>(st: State<T, D>, t: T)
    requires Inv(st) && t in st.tasks
    ensures Inv(Withdraw(st, t).st)
  {
    var r := Withdraw(st, t);
    if r.ok {
      assert SoundTask(st, st.tasks[t]);
      TasksSound(st, r.st, t);
      TaskChanged(st, r.st, t);
      FramesKept(st, r.st, t);
    }
  }

  lemma BeginRunInv<T, D>(st: State<T, D>, t: T)
    requires Inv(st) && t in st.tasks
    ensures Inv(BeginRun(st, t).st)
  {
    var r := BeginRun(st, t);
    if r.ok && r.st != st {
      assert SoundTask(st, st.tasks[t]);
      TasksSound(st, r.st, t);
      TaskChanged(st, r.st, t);
      FramesPushed(st, r.st, RunFrame(t, st.tasks[t].phase != Running));
    }
  }

  lemma BeginCancelInv<T, D>(st: State<T, D>, t: T)
    requires Inv(st) && t in st.tasks
    ensures Inv(BeginCancel(st, t).st)
  {
    var r := BeginCancel(st, t);
    if r.ok {
      assert SoundTask(st, st.tasks[t]);
      TasksSound(st, r.st, t);
      TaskChanged(st, r.st, t);
      FramesPushed(st, r.st, CancelFrame(t));
    }
  }

  /** The phase that a task can be in when a frame of a run of it is on top. */
  lemma RunTop<T, D>(st: State<T, D>, t: T, entered: bool)
    requires Inv(st) && OnTop(st, RunFrame(t, entered))
    ensures st.tasks[t].phase != Scheduling && (st.tasks[t].phase == Canceling ==> st.tasks[t].roll.NoRoll?)
    ensures Known(st) && Known(Pop(st))
  {
    assert SoundTask(st, st.tasks[t]) && Framed(st, t);
    SoundKnown(st);
  }

  /** A one-shot task that has run is counted out. */
  lemma EndRunCountsOut<T, D>(st: State<T, D>, t: T, entered: bool)
    requires Inv(st) && OnTop(st, RunFrame(t, entered)) && Known(st) && Active(st.tasks[t].phase)
    requires !Repeats(st.tasks[t]) && st.tasks[t].roll.Roll?
    ensures var r := EndRun(st, t, entered).st; AllCounted(r) && WellTold(r.counts, r.notices) && SoundTasks(r)
  {
    var r, task := EndRun(st, t, entered), st.tasks[t];
    assert SoundTask(st, task);
    var s := Pop(st).(tasks := st.tasks[t := task.(runCount := 0)]);
    TasksSound(st, s, t);
    TaskChanged(st, s, t);
    SoundKnown(s);
    RecountExact(s, t, -1);
    var q := Recount(s, t, -1).st;
    TasksSound(s, q, t);
    TaskChanged(q, r.st, t);
    TasksSound(q, r.st, t);
  }

  lemma EndRunInv<T, D>(st: State<T, D>, t: T, entered: bool)
    requires Inv(st) && OnTop(st, RunFrame(t, entered)) && Known(st)
    ensures Inv(EndRun(st, t, entered).st)
  {
    RunTop(st, t, entered);
    var r, task := EndRun(st, t, entered), st.tasks[t];
    assert SoundTask(st, task);
    if Active(task.phase) && !Repeats(task) && task.roll.Roll? {
      EndRunCountsOut(st, t, entered);
    } else {
      TasksSound(st, r.st, t);
      TaskChanged(st, r.st, t);
    }
    FramesPopped(st, r.st, t);
  }

  /** A scheduling that ends never throws: the task is counted if it still has the roll of this scheduling. */
  lemma EndScheduleInv<T, D>(st: State<T, D>, t: T, roll: nat)
    requires Inv(st) && OnTop(st, ScheduleFrame(t, roll)) && Known(st)
    ensures EndSchedule(st, t, roll).ok && Inv(EndSchedule(st, t, roll).st)
  {
    var r := EndSchedule(st, t, roll);
    var s := Pop(st);
    var task := st.tasks[t];
    assert SoundTask(st, task) && Framed(st, t) && SoundFrame(st, |st.frames| - 1);
    SoundKnown(s);
    if task.roll.Roll? && task.roll.id == roll {
      RecountExact(s, t, 1);
      var q := Recount(s, t, 1).st;
      TaskChanged(q, r.st, t);
      TasksSound(s, r.st, t);
      FramesPopped(st, r.st, t);
    } else {
      assert r.st == s;
      FramesPopped(st, s, t);
    }
  }

  lemma FailScheduleInv<T, D>(st: State<T, D>, t: T, roll: nat)
    requires Inv(st) && OnTop(st, ScheduleFrame(t, roll))
    ensures Inv(FailSchedule(st, t, roll).st)
  {
    var r := FailSchedule(st, t, roll);
    assert SoundTask(st, st.tasks[t]) && Framed(st, t) && SoundFrame(st, |st.frames| - 1);
    TasksSound(st, r.st, t);
    TaskChanged(st, r.st, t);
    FramesPopped(st, r.st, t);
  }

  /** Cancelling throws at its end exactly when the task had lost its roll. */
  lemma EndCancelInv<T, D>(st: State<T, D>, t: T)
    requires Inv(st) && OnTop(st, CancelFrame(t)) && Known(st)
    ensures Inv(EndCancel(st, t).st)
    ensures EndCancel(st, t).ok <==> st.tasks[t].roll.Roll?
  {
    var r := EndCancel(st, t);
    var s := Pop(st);
    assert SoundTask(st, st.tasks[t]) && SoundFrame(st, |st.frames| - 1);
    SoundKnown(s);
    if st.tasks[t].roll.Roll? {
      RecountExact(s, t, -1);
      var q := Recount(s, t, -1).st;
      TaskChanged(q, r.st, t);
      TasksSound(s, r.st, t);
    }
    FramesPopped(st, r.st, t);
  }

  lemma FailCancelInv<T, D>(st: State<T, D>, t: T)
    requires Inv(st) && OnTop(st, CancelFrame(t))
    ensures Inv(FailCancel(st, t).st)
  {
    var r := FailCancel(st, t);
    assert SoundTask(st, st.tasks[t]) && SoundFrame(st, |st.frames| - 1);
    TasksSound(st, r.st, t);
    TaskChanged(st, r.st, t);
    FramesPopped(st, r.st, t);
  }

  // ---- runs ----

  /** What can happen. The steps that end something end what is on top of the stack. */
  datatype Step<T, D> =
    | NewTask(t: T, kind: Kind, periodic: bool)
    | NewDelegate(d: D)
    | StartScheduling(t: T, chain: seq<D>)
    | Request(t: T)
    | Start(t: T)
    | StartCanceling(t: T)
    | Finish
    | Throw

  predicate Possible<T(==), D(==)>(st: State<T, D>, step: Step<T, D>)
  {
    match step
    case NewTask(t, _, _) => t !in st.tasks
    case NewDelegate(d) => d !in st.counts
    case StartScheduling(t, chain) => t in st.tasks && Distinct(chain) && forall d | d in chain :: d in st.counts
    case Request(t) => t in st.tasks
    case Start(t) => t in st.tasks
    case StartCanceling(t) => t in st.tasks
    case Finish => st.frames != []
    case Throw => st.frames != []
  }

  function Apply<T(==), D(==)>(st: State<T, D>, step: Step<T, D>): State<T, D>
    requires Inv(st) && Possible(st, step)
  {
    SoundKnown(st);
    match step
    case NewTask(t, kind, periodic) => st.(tasks := st.tasks[t := Task(kind, periodic, NotScheduled, 0, NoRoll, false)])
    case NewDelegate(d) => st.(counts := st.counts[d := Counts(0, 0, 0)])
    case StartScheduling(t, chain) => BeginSchedule(st, t, chain).st
    case Request(t) => Withdraw(st, t).st
    case Start(t) => BeginRun(st, t).st
    case StartCanceling(t) => BeginCancel(st, t).st
    case Finish =>
      assert SoundFrame(st, |st.frames| - 1);
      (match st.frames[|st.frames| - 1]
       case RunFrame(t, entered) => EndRun(st, t, entered).st
       case ScheduleFrame(t, roll) => EndSchedule(st, t, roll).st
       case CancelFrame(t) => EndCancel(st, t).st)
    case Throw =>
      assert SoundFrame(st, |st.frames| - 1);
      (match st.frames[|st.frames| - 1]
       case RunFrame(t, entered) => EndRun(st, t, entered).st
       case ScheduleFrame(t, roll) => FailSchedule(st, t, roll).st
       case CancelFrame(t) => FailCancel(st, t).st)
  }

  lemma NewTaskInv<T, D>(st: State<T, D>, t: T, kind: Kind, periodic: bool)
    requires Inv(st) && t !in st.tasks
    ensures Inv(Apply(st, NewTask(t, kind, periodic)))
  {
    var s := Apply(st, NewTask(t, kind, periodic));
    forall d, k | d in s.counts ensures Count(s.counts, d, k) == |Live(s.tasks, d, k)| {
      assert Live(s.tasks, d, k) == Live(st.tasks, d, k);
    }
    forall i | 0 <= i < |s.frames| ensures SoundFrame(s, i) {
      assert SoundFrame(st, i);
    }
    forall u | u in s.tasks ensures Framed(s, u) && SoundTask(s, s.tasks[u]) {
      if u != t {
        assert Framed(st, u) && SoundTask(st, st.tasks[u]);
      }
    }
  }

  lemma {:induction false} ToldUnknown<D>(counts: map<D, Counts>, notices: seq<Notice<D>>, d: D, k: Kind)
    requires forall n | n in notices :: n.d != d
    ensures !Told(notices, d, k)
  {
    if notices != [] {
      assert notices[|notices| - 1] in notices;
      ToldUnknown(counts, notices[..|notices| - 1], d, k);
    }
  }

  lemma NewDelegateInv<T, D>(st: State<T, D>, d: D)
    requires Inv(st) && d !in st.counts
    ensures Inv(Apply(st, NewDelegate(d)))
  {
    var s := Apply(st, NewDelegate(d));
    forall e, k | e in s.counts
      ensures Count(s.counts, e, k) == |Live(s.tasks, e, k)| && Told(s.notices, e, k) == (Count(s.counts, e, k) > 0)
    {
      if e == d {
        ToldUnknown(st.counts, st.notices, d, k);
        forall t | t in st.tasks ensures !CountedBy(st.tasks[t], d, k) {
          assert SoundTask(st, st.tasks[t]);
        }
        assert Live(s.tasks, d, k) == {};
      }
    }
    forall i | 0 <= i < |s.frames| ensures SoundFrame(s, i) {
      assert SoundFrame(st, i);
    }
    forall u | u in s.tasks ensures Framed(s, u) && SoundTask(s, s.tasks[u]) {
      assert Framed(st, u) && SoundTask(st, st.tasks[u]);
    }
  }

  lemma ApplyInv<T, D>(st: State<T, D>, step: Step<T, D>)
    requires Inv(st) && Possible(st, step)
    ensures Inv(Apply(st, step))
  {
    SoundKnown(st);
    match step
    case NewTask(t, kind, periodic) => NewTaskInv(st, t, kind, periodic);
    case NewDelegate(d) => NewDelegateInv(st, d);
    case StartScheduling(t, chain) => BeginScheduleInv(st, t, chain);
    case Request(t) => WithdrawInv(st, t);
    case Start(t) => BeginRunInv(st, t);
    case StartCanceling(t) => BeginCancelInv(st, t);
    case Finish =>
      assert SoundFrame(st, |st.frames| - 1);
      match st.frames[|st.frames| - 1] {
        case RunFrame(t, entered) => EndRunInv(st, t, entered);
        case ScheduleFrame(t, roll) => EndScheduleInv(st, t, roll);
        case CancelFrame(t) => EndCancelInv(st, t);
      }
    case Throw =>
      assert SoundFrame(st, |st.frames| - 1);
      match st.frames[|st.frames| - 1] {
        case RunFrame(t, entered) => EndRunInv(st, t, entered);
        case ScheduleFrame(t, roll) => FailScheduleInv(st, t, roll);
        case CancelFrame(t) => FailCancelInv(st, t);
      }
  }

  function Nothing<T, D>(): State<T, D>
  {
    State(map[], map[], [], [], 0)
  }

  /** A run: every step is possible when its turn comes. */
  ghost predicate IsRun<T, D>(st: State<T, D>, steps: seq<Step<T, D>>, end: State<T, D>)
    requires Inv(st)
    decreases |steps|
  {
    if steps == [] then st == end
    else Possible(st, steps[0]) && (ApplyInv(st, steps[0]); IsRun(Apply(st, steps[0]), steps[1..], end))
  }

  lemma {:induction false} RunInv<T, D>(st: State<T, D>, steps: seq<Step<T, D>>, end: State<T, D>)
    requires Inv(st) && IsRun(st, steps, end)
    ensures Inv(end)
    decreases |steps|
  {
    if steps != [] {
      ApplyInv(st, steps[0]);
      RunInv(Apply(st, steps[0]), steps[1..], end);
    }
  }

  lemma OneStep<T, D>(st: State<T, D>, step: Step<T, D>)
    requires Inv(st) && Possible(st, step)
    ensures IsRun(st, [step], Apply(st, step))
  {
    ApplyInv(st, step);
    assert [step][1..] == [];
  }

  lemma {:induction false} RunOn<T, D>(st: State<T, D>, first: seq<Step<T, D>>, next: State<T, D>,
                                       rest: seq<Step<T, D>>, end: State<T, D>)
    requires Inv(st) && IsRun(st, first, next) && Inv(next) && IsRun(next, rest, end)
    ensures IsRun(st, first + rest, end)
    decreases |first|
  {
    if first == [] {
      assert first + rest == rest;
    } else {
      ApplyInv(st, first[0]);
      RunOn(Apply(st, first[0]), first[1..], next, rest, end);
      FirstOfConcat(first, rest);
    }
  }

  /** A task that is scheduled, running or being cancelled, with the delegate on its roll. */
  function ActiveTasks<T(==), D(==)>(tasks: map<T, Task<D>>, d: D, k: Kind): set<T>
  {
    set t | t in tasks && Active(tasks[t].phase) && tasks[t].kind == k && tasks[t].roll.Roll? && d in tasks[t].roll.ds
  }

  /** Over every run, hooks that throw and all: a delegate's count of a kind is the number of the active tasks of that
      kind that still have it on their roll, with those that were left unknown when cancelling them threw; it is never
      negative; and the delegate was told so exactly when the count left zero or came back to it. */
  lemma CountsAreExact<T, D>(steps: seq<Step<T, D>>, end: State<T, D>, d: D, k: Kind)
    requires IsRun(Nothing<T, D>(), steps, end) && d in end.counts
    ensures Count(end.counts, d, k) == |Live(end.tasks, d, k)| >= 0
    ensures Live(end.tasks, d, k) == ActiveTasks(end.tasks, d, k)
            + set t | t in Live(end.tasks, d, k) && end.tasks[t].phase == Unknown
    ensures Alternates(end.notices) && Told(end.notices, d, k) == (Count(end.counts, d, k) > 0)
  {
    RunInv(Nothing<T, D>(), steps, end);
    forall t | t in end.tasks ensures SoundTask(end, end.tasks[t]) {}
  }

  /** The end of a run throws exactly when its task is active without a roll, or is scheduled although this run had set
      it running: `Reentered` and `Rescheduled` show how a run comes to that. */
  lemma EndRunThrows<T, D>(st: State<T, D>, t: T, entered: bool)
    requires Inv(st) && OnTop(st, RunFrame(t, entered)) && Known(st)
    ensures var task := st.tasks[t];
      !EndRun(st, t, entered).ok <==>
        || (Active(task.phase) && task.roll.NoRoll?)
        || (task.phase == Scheduled && entered)
  {
    RunTop(st, t, entered);
    var task := st.tasks[t];
    assert SoundTask(st, task);
    if task.phase != NotScheduled && task.phase != Unknown && !Repeats(task) && task.roll.Roll? {
      var s := Pop(st).(tasks := st.tasks[t := task.(runCount := 0)]);
      TasksSound(st, s, t);
      TaskChanged(st, s, t);
      SoundKnown(s);
      RecountExact(s, t, -1);
    }
  }

  /** A task cancelled while it runs is counted out once: by the cancelling, not by the end of the run. */
  lemma CancelledOnce<T, D>(st: State<T, D>, t: T)
    requires Inv(st) && t in st.tasks && st.tasks[t].phase == Scheduled && st.tasks[t].roll.Roll?
    ensures var a := BeginRun(st, t).st;
      && OnTop(a, RunFrame(t, true))
      && var b := BeginCancel(a, t).st;
      && OnTop(b, CancelFrame(t)) && Known(b)
      && var c := EndCancel(b, t).st;
      && OnTop(c, RunFrame(t, true)) && Known(c)
      && EndRun(c, t, true).ok && EndRun(c, t, true).st == Pop(c) && c.tasks[t].phase == NotScheduled
      && forall d | d in st.counts :: Count(c.counts, d, st.tasks[t].kind)
                                       == Count(st.counts, d, st.tasks[t].kind)
                                         - if d in st.tasks[t].roll.ds then 1 else 0
  {
    BeginRunInv(st, t);
    var a := BeginRun(st, t).st;
    BeginCancelInv(a, t);
    var b := BeginCancel(a, t).st;
    SoundKnown(b);
    EndCancelInv(b, t);
    var c := EndCancel(b, t).st;
    SoundKnown(c);
    assert SoundTask(st, st.tasks[t]);
    CountedOutOnce(st, c, t);
  }

  lemma CountedOutOnce<T, D>(st: State<T, D>, c: State<T, D>, t: T)
    requires AllCounted(st) && AllCounted(c) && c.counts.Keys == st.counts.Keys && c.tasks.Keys == st.tasks.Keys
             && t in st.tasks
    requires forall u | u in st.tasks && u != t :: c.tasks[u] == st.tasks[u]
    requires st.tasks[t].counted && st.tasks[t].roll.Roll? && !c.tasks[t].counted
    ensures forall d | d in st.counts :: Count(c.counts, d, st.tasks[t].kind)
                                         == Count(st.counts, d, st.tasks[t].kind)
                                           - if d in st.tasks[t].roll.ds then 1 else 0
  {
    forall d | d in st.counts
      ensures Count(c.counts, d, st.tasks[t].kind)
              == Count(st.counts, d, st.tasks[t].kind) - if d in st.tasks[t].roll.ds then 1 else 0
    {
      LiveSame(st.tasks, c.tasks, t, d, st.tasks[t].kind);
    }
  }

  /** A one-shot task that is run again within its own run is counted out by the inner run; the end of the outer one
      throws, and the task stays running. */
  lemma Reentered<T, D>(st: State<T, D>, t: T)
    requires Inv(st) && t in st.tasks && st.tasks[t].phase == Scheduled && st.tasks[t].roll.Roll?
             && !Repeats(st.tasks[t])
    ensures var a := BeginRun(st, t).st;
      && t in a.tasks
      && var b := BeginRun(a, t).st;
      && OnTop(b, RunFrame(t, false)) && Known(b)
      && var c := EndRun(b, t, false).st;
      && OnTop(c, RunFrame(t, true)) && Known(c) && Inv(c)
      && !EndRun(c, t, true).ok && EndRun(c, t, true).st.tasks[t].phase == Running
         && EndRun(c, t, true).st.counts == c.counts
  {
    BeginRunInv(st, t);
    var a := BeginRun(st, t).st;
    BeginRunInv(a, t);
    var b := BeginRun(a, t).st;
    SoundKnown(b);
    EndRunInv(b, t, false);
    EndRunThrows(b, t, false);
    var c := EndRun(b, t, false).st;
    SoundKnown(c);
    EndRunThrows(c, t, true);
  }

  /** The end of a run throws when its task was cancelled in the run and is scheduled again before it ends.  The task
      stays scheduled; a one-shot one is counted out, so that it is on no roll and not counted, one that repeats is
      still counted. */
  lemma Rescheduled<T, D>(st: State<T, D>, t: T, chain: seq<D>)
    requires Inv(st) && OnTop(st, RunFrame(t, true)) && st.tasks[t].phase == NotScheduled
    requires Distinct(chain) && forall d | d in chain :: d in st.counts
    ensures var b := BeginSchedule(st, t, chain).st;
      && OnTop(b, ScheduleFrame(t, st.rolls)) && Known(b)
      && var c := EndSchedule(b, t, st.rolls).st;
      && OnTop(c, RunFrame(t, true)) && Known(c) && Inv(c) && c.tasks[t].phase == Scheduled && c.tasks[t].counted
      && var e := EndRun(c, t, true);
      && !e.ok && e.st.tasks[t].phase == Scheduled
      && (if Repeats(st.tasks[t]) then e.st.tasks[t] == c.tasks[t]
          else e.st.tasks[t].roll == NoRoll && !e.st.tasks[t].counted)
  {
    ScheduledInRun(st, t, chain);
    var c := EndSchedule(BeginSchedule(st, t, chain).st, t, st.rolls).st;
    EndRunThrows(c, t, true);
  }

  lemma ScheduledInRun<T, D>(st: State<T, D>, t: T, chain: seq<D>)
    requires Inv(st) && OnTop(st, RunFrame(t, true)) && st.tasks[t].phase == NotScheduled
    requires Distinct(chain) && forall d | d in chain :: d in st.counts
    ensures var b := BeginSchedule(st, t, chain).st;
      && OnTop(b, ScheduleFrame(t, st.rolls)) && Known(b)
      && var c := EndSchedule(b, t, st.rolls).st;
      && OnTop(c, RunFrame(t, true)) && Known(c) && Inv(c)
      && c.tasks[t] == st.tasks[t].(phase := Scheduled, roll := Roll(st.rolls, chain), counted := true)
  {
    BeginScheduleInv(st, t, chain);
    var b := BeginSchedule(st, t, chain).st;
    SoundKnown(b);
    EndScheduleInv(b, t, st.rolls);
    var c := EndSchedule(b, t, st.rolls).st;
    assert Pop(b).frames == st.frames;
    SoundKnown(c);
  }

  // ---- when every active task stays counted, and no end throws ----

  /** Every task that is scheduled, running or being cancelled has a roll. */
  predicate AllEnrolled<T(==), D>(st: State<T, D>)
  {
    forall t | t in st.tasks :: Active(st.tasks[t].phase) ==> st.tasks[t].roll.Roll?
  }

  /** What the step ends returns.  Hooks that throw do not. */
  predicate Returns<T(==), D(==)>(st: State<T, D>, step: Step<T, D>)
    requires Inv(st) && Possible(st, step)
  {
    SoundKnown(st);
    (step.Finish? || step.Throw?) ==>
      assert SoundFrame(st, |st.frames| - 1);
      match st.frames[|st.frames| - 1]
      case RunFrame(t, entered) => EndRun(st, t, entered).ok
      case ScheduleFrame(t, roll) => step.Finish? ==> EndSchedule(st, t, roll).ok
      case CancelFrame(t) => step.Finish? ==> EndCancel(st, t).ok
  }

  /** The step does not end the run that set a task running when the task is scheduled again, nor any other run of a
      one-shot task that is still active. */
  predicate EndsWell<T(==), D>(st: State<T, D>, step: Step<T, D>)
    requires Possible(st, step)
  {
    (step.Finish? || step.Throw?) && st.frames[|st.frames| - 1].RunFrame?
      && st.frames[|st.frames| - 1].t in st.tasks ==>
      var f := st.frames[|st.frames| - 1];
      var task := st.tasks[f.t];
      if f.entered then task.phase != Scheduled else Active(task.phase) ==> Repeats(task)
  }

  /** For every state in which all active tasks are on a roll: the step leaves it so, and what it ends returns, if and
      only if it ends well. */
  lemma EndsWellExactly<T, D>(st: State<T, D>, step: Step<T, D>)
    requires Inv(st) && AllEnrolled(st) && Possible(st, step)
    ensures AllEnrolled(Apply(st, step)) && Returns(st, step) <==> EndsWell(st, step)
  {
    SoundKnown(st);
    match step
    case Finish => EndExactly(st, step);
    case Throw => EndExactly(st, step);
    case _ =>
  }

  lemma EndExactly<T, D>(st: State<T, D>, step: Step<T, D>)
    requires Inv(st) && AllEnrolled(st) && Possible(st, step) && (step.Finish? || step.Throw?)
    ensures AllEnrolled(Apply(st, step)) && Returns(st, step) <==> EndsWell(st, step)
  {
    SoundKnown(st);
    assert SoundFrame(st, |st.frames| - 1);
    match st.frames[|st.frames| - 1]
    case RunFrame(t, entered) => EndRunExactly(st, t, entered);
    case ScheduleFrame(t, roll) => ScheduleEndsEnrolled(st, t, roll);
    case CancelFrame(t) => CancelEndsEnrolled(st, t);
  }

  lemma ScheduleEndsEnrolled<T, D>(st: State<T, D>, t: T, roll: nat)
    requires Inv(st) && AllEnrolled(st) && OnTop(st, ScheduleFrame(t, roll)) && Known(st)
    ensures EndSchedule(st, t, roll).ok && AllEnrolled(EndSchedule(st, t, roll).st)
            && AllEnrolled(FailSchedule(st, t, roll).st)
  {
    EndScheduleInv(st, t, roll);
    assert SoundTask(st, st.tasks[t]);
  }

  lemma CancelEndsEnrolled<T, D>(st: State<T, D>, t: T)
    requires Inv(st) && AllEnrolled(st) && OnTop(st, CancelFrame(t)) && Known(st)
    ensures EndCancel(st, t).ok && AllEnrolled(EndCancel(st, t).st) && AllEnrolled(FailCancel(st, t).st)
  {
    assert SoundFrame(st, |st.frames| - 1);
    EndCancelInv(st, t);
  }

  lemma EndRunExactly<T, D>(st: State<T, D>, t: T, entered: bool)
    requires Inv(st) && AllEnrolled(st) && OnTop(st, RunFrame(t, entered)) && Known(st)
    ensures var r, task := EndRun(st, t, entered), st.tasks[t];
      AllEnrolled(r.st) && r.ok <==> if entered then task.phase != Scheduled else Active(task.phase) ==> Repeats(task)
  {
    RunTop(st, t, entered);
    EndRunThrows(st, t, entered);
    var r := EndRun(st, t, entered).st;
    assert forall u | u in st.tasks && u != t :: r.tasks[u] == st.tasks[u];
    assert Active(r.tasks[t].phase) && r.tasks[t].roll.NoRoll? ==> !AllEnrolled(r);
  }

  /** After every step of a run all active tasks are on a roll, and all that ends returns. */
  ghost predicate StaysEnrolled<T, D>(st: State<T, D>, steps: seq<Step<T, D>>)
    requires Inv(st)
    decreases |steps|
  {
    steps != [] ==>
      && Possible(st, steps[0]) && Returns(st, steps[0]) && AllEnrolled(Apply(st, steps[0]))
      && (ApplyInv(st, steps[0]); StaysEnrolled(Apply(st, steps[0]), steps[1..]))
  }

  ghost predicate AllEndWell<T, D>(st: State<T, D>, steps: seq<Step<T, D>>)
    requires Inv(st)
    decreases |steps|
  {
    steps != [] ==>
      && Possible(st, steps[0]) && EndsWell(st, steps[0])
      && (ApplyInv(st, steps[0]); AllEndWell(Apply(st, steps[0]), steps[1..]))
  }

  /** Over every run, hooks that throw and all, this holds throughout if and only if every step ends well. */
  lemma {:induction false} StaysEnrolledExactly<T, D>(st: State<T, D>, steps: seq<Step<T, D>>, end: State<T, D>)
    requires Inv(st) && AllEnrolled(st) && IsRun(st, steps, end)
    ensures StaysEnrolled(st, steps) <==> AllEndWell(st, steps)
    ensures AllEndWell(st, steps) ==> AllEnrolled(end)
    decreases |steps|
  {
    if steps != [] {
      ApplyInv(st, steps[0]);
      EndsWellExactly(st, steps[0]);
      if EndsWell(st, steps[0]) {
        StaysEnrolledExactly(Apply(st, steps[0]), steps[1..], end);
      }
    }
  }

  /** The tasks of a kind with the delegate on their roll that are active, or were left unknown and counted. */
  function EnrolledTasks<T(==), D(==)>(tasks: map<T, Task<D>>, d: D, k: Kind): set<T>
  {
    set t | t in tasks && tasks[t].kind == k && tasks[t].roll.Roll? && d in tasks[t].roll.ds
            && (Active(tasks[t].phase) || (tasks[t].phase == Unknown && tasks[t].counted))
  }

  /** Over such a run every task that is scheduled, running or being cancelled is counted; so a delegate's count is the
      number of those with the delegate on their roll, with the tasks left unknown when cancelling them threw. */
  lemma EnrolledCounts<T, D>(steps: seq<Step<T, D>>, end: State<T, D>, d: D, k: Kind)
    requires IsRun(Nothing<T, D>(), steps, end) && AllEndWell(Nothing<T, D>(), steps) && d in end.counts
    ensures forall t | t in end.tasks && Active(end.tasks[t].phase) :: end.tasks[t].roll.Roll? && end.tasks[t].counted
    ensures Count(end.counts, d, k) == |EnrolledTasks(end.tasks, d, k)|
  {
    RunInv(Nothing<T, D>(), steps, end);
    StaysEnrolledExactly(Nothing<T, D>(), steps, end);
    forall t | t in end.tasks ensures SoundTask(end, end.tasks[t]) {}
    assert Live(end.tasks, d, k) == EnrolledTasks(end.tasks, d, k);
  }

  // ---- runs in which no task is run or scheduled again within its own run ----

  /** The run that set the task running is still on the stack. */
  predicate InRun<T(==)>(frames: seq<Frame<T>>, t: T)
  {
    exists i | 0 <= i < |frames| :: frames[i] == RunFrame(t, true)
  }

  /** A one-shot task is not started while it runs, and no task is scheduled within its own run. */
  predicate Orderly<T(==), D(==)>(st: State<T, D>, step: Step<T, D>)
    requires Possible(st, step)
  {
    match step
    case Start(t) => st.tasks[t].phase == Running ==> Repeats(st.tasks[t])
    case StartScheduling(t, _) => !InRun(st.frames, t)
    case _ => true
  }

  /** A task in its own run is not scheduled; only a task that repeats is run again within its run. */
  predicate TameFrame<T(==), D>(st: State<T, D>, f: Frame<T>)
  {
    f.RunFrame? ==>
      && f.t in st.tasks
      && if f.entered then st.tasks[f.t].phase != Scheduling && st.tasks[f.t].phase != Scheduled
         else Repeats(st.tasks[f.t])
  }

  /** Every scheduled, running or cancelling task has a roll, so it is counted; and no task is in its own run twice. */
  predicate Tame<T(==), D(==)>(st: State<T, D>)
  {
    && Inv(st) && AllEnrolled(st)
    && (forall f | f in st.frames :: TameFrame(st, f))
    && (forall i, j | 0 <= i < j < |st.frames| && st.frames[i].RunFrame? && st.frames[i].entered ::
        st.frames[i] != st.frames[j])
  }

  /** A step that changes one task and pushes or pops a frame of it at most. */
  lemma TameChange<T, D>(st: State<T, D>, s: State<T, D>, t: T)
    requires Tame(st) && Inv(s) && t in st.tasks && s.tasks.Keys == st.tasks.Keys
    requires forall u | u in st.tasks && u != t :: s.tasks[u] == st.tasks[u]
    requires Repeats(s.tasks[t]) == Repeats(st.tasks[t]) && (Active(s.tasks[t].phase) ==> s.tasks[t].roll.Roll?)
    requires s.tasks[t].phase == Scheduling || s.tasks[t].phase == Scheduled ==> !InRun(s.frames, t)
    requires s.frames == st.frames || (st.frames != [] && s.frames == Pop(st).frames)
             || (s.frames != [] && st.frames == Pop(s).frames && s.frames[|s.frames| - 1].t == t
                 && (s.frames[|s.frames| - 1] == RunFrame(t, true) ==> !InRun(st.frames, t))
                 && (s.frames[|s.frames| - 1] == RunFrame(t, false) ==> Repeats(st.tasks[t])))
    ensures Tame(s)
  {
    forall f | f in s.frames ensures TameFrame(s, f) {
      assert f in st.frames ==> TameFrame(st, f);
    }
  }

  lemma TameStep<T, D>(st: State<T, D>, step: Step<T, D>)
    requires Tame(st) && Possible(st, step) && Orderly(st, step)
    ensures Tame(Apply(st, step))
  {
    match step
    case NewTask(_, _, _) => TameNew(st, step);
    case NewDelegate(_) => TameNew(st, step);
    case StartScheduling(t, chain) => TameSchedule(st, t, chain);
    case Request(t) => TameRequest(st, t);
    case Start(t) => TameStart(st, t);
    case StartCanceling(t) => TameCancel(st, t);
    case Finish => TameFinish(st);
    case Throw => TameThrow(st);
  }

  lemma TameNew<T, D>(st: State<T, D>, step: Step<T, D>)
    requires Tame(st) && Possible(st, step) && (step.NewTask? || step.NewDelegate?)
    ensures Tame(Apply(st, step))
  {
    ApplyInv(st, step);
    var s := Apply(st, step);
    forall f | f in s.frames ensures TameFrame(s, f) {
      assert TameFrame(st, f);
    }
  }

  lemma InRunPushed<T>(frames: seq<Frame<T>>, f: Frame<T>, t: T)
    ensures InRun(frames + [f], t) <==> InRun(frames, t) || f == RunFrame(t, true)
  {
    assert forall i | 0 <= i < |frames| :: (frames + [f])[i] == frames[i];
    assert (frames + [f])[|frames|] == f;
  }

  lemma TameSchedule<T, D>(st: State<T, D>, t: T, chain: seq<D>)
    requires Tame(st) && Possible(st, StartScheduling(t, chain)) && !InRun(st.frames, t)
    ensures Tame(BeginSchedule(st, t, chain).st)
  {
    BeginScheduleInv(st, t, chain);
    if BeginSchedule(st, t, chain).ok {
      var s := BeginSchedule(st, t, chain).st;
      assert st.frames == Pop(s).frames;
      InRunPushed(st.frames, ScheduleFrame(t, st.rolls), t);
      TameChange(st, s, t);
    }
  }

  lemma TameRequest<T, D>(st: State<T, D>, t: T)
    requires Tame(st) && t in st.tasks
    ensures Tame(Withdraw(st, t).st)
  {
    WithdrawInv(st, t);
    if Withdraw(st, t).ok {
      TameChange(st, Withdraw(st, t).st, t);
    }
  }

  lemma TameCancel<T, D>(st: State<T, D>, t: T)
    requires Tame(st) && t in st.tasks
    ensures Tame(BeginCancel(st, t).st)
  {
    BeginCancelInv(st, t);
    var s := BeginCancel(st, t).st;
    if s != st {
      assert st.frames == Pop(s).frames;
      TameChange(st, s, t);
    }
  }

  lemma TameStart<T, D>(st: State<T, D>, t: T)
    requires Tame(st) && t in st.tasks && (st.tasks[t].phase == Running ==> Repeats(st.tasks[t]))
    ensures Tame(BeginRun(st, t).st)
  {
    BeginRunInv(st, t);
    var s := BeginRun(st, t).st;
    if s != st {
      assert st.frames == Pop(s).frames;
      assert InRun(st.frames, t) ==> TameFrame(st, RunFrame(t, true));
      TameChange(st, s, t);
    }
  }

  /** What is on top of the stack, in a tame state. */
  lemma TameTop<T, D>(st: State<T, D>)
    requires Tame(st) && st.frames != []
    ensures var f := st.frames[|st.frames| - 1];
      && f.t in st.tasks && OnTop(st, f) && Known(st) && TameFrame(st, f)
      && (f.RunFrame? ==> st.tasks[f.t].phase != Canceling)
      && (f.RunFrame? && f.entered ==> !InRun(Pop(st).frames, f.t))
      && (InRun(Pop(st).frames, f.t) ==> TameFrame(st, RunFrame(f.t, true)))
  {
    var f := st.frames[|st.frames| - 1];
    assert f in st.frames && SoundFrame(st, |st.frames| - 1);
    SoundKnown(st);
    if f.RunFrame? {
      RunTop(st, f.t, f.entered);
    }
    assert forall g | g in Pop(st).frames :: g in st.frames;
  }

  /** In such runs every step ends well, so that nothing throws at its end. */
  lemma TameEndsWell<T, D>(st: State<T, D>, step: Step<T, D>)
    requires Tame(st) && Possible(st, step)
    ensures EndsWell(st, step) && Returns(st, step)
  {
    if step.Finish? || step.Throw? {
      TameTop(st);
    }
    EndsWellExactly(st, step);
  }

  lemma TameFinish<T, D>(st: State<T, D>)
    requires Tame(st) && st.frames != []
    ensures Tame(Apply(st, Finish))
  {
    TameTop(st);
    match st.frames[|st.frames| - 1]
    case RunFrame(t, entered) => TameEndRun(st, t, entered);
    case ScheduleFrame(t, roll) => TameEndSchedule(st, t, roll);
    case CancelFrame(t) => TameEndCancel(st, t);
  }

  lemma TameEndSchedule<T, D>(st: State<T, D>, t: T, roll: nat)
    requires Tame(st) && OnTop(st, ScheduleFrame(t, roll)) && Known(st)
    ensures Tame(EndSchedule(st, t, roll).st)
  {
    TameTop(st);
    EndScheduleInv(st, t, roll);
    ScheduleEndsEnrolled(st, t, roll);
    TameChange(st, EndSchedule(st, t, roll).st, t);
  }

  lemma TameEndCancel<T, D>(st: State<T, D>, t: T)
    requires Tame(st) && OnTop(st, CancelFrame(t)) && Known(st)
    ensures Tame(EndCancel(st, t).st)
  {
    TameTop(st);
    EndCancelInv(st, t);
    CancelEndsEnrolled(st, t);
    TameChange(st, EndCancel(st, t).st, t);
  }

  lemma TameEndRun<T, D>(st: State<T, D>, t: T, entered: bool)
    requires Tame(st) && OnTop(st, RunFrame(t, entered)) && Known(st)
    ensures Tame(EndRun(st, t, entered).st)
  {
    TameTop(st);
    TameEndsWell(st, Finish);
    EndRunInv(st, t, entered);
    TameChange(st, EndRun(st, t, entered).st, t);
  }

  lemma TameThrow<T, D>(st: State<T, D>)
    requires Tame(st) && st.frames != []
    ensures Tame(Apply(st, Throw))
  {
    TameTop(st);
    match st.frames[|st.frames| - 1]
    case RunFrame(t, entered) => TameEndRun(st, t, entered);
    case ScheduleFrame(t, roll) => TameFailSchedule(st, t, roll);
    case CancelFrame(t) => TameFailCancel(st, t);
  }

  lemma TameFailSchedule<T, D>(st: State<T, D>, t: T, roll: nat)
    requires Tame(st) && OnTop(st, ScheduleFrame(t, roll))
    ensures Tame(FailSchedule(st, t, roll).st)
  {
    TameTop(st);
    FailScheduleInv(st, t, roll);
    TameChange(st, FailSchedule(st, t, roll).st, t);
  }

  lemma TameFailCancel<T, D>(st: State<T, D>, t: T)
    requires Tame(st) && OnTop(st, CancelFrame(t))
    ensures Tame(FailCancel(st, t).st)
  {
    TameTop(st);
    FailCancelInv(st, t);
    TameChange(st, FailCancel(st, t).st, t);
  }

  ghost predicate OrderlyRun<T, D>(st: State<T, D>, steps: seq<Step<T, D>>, end: State<T, D>)
    requires Inv(st)
    decreases |steps|
  {
    if steps == [] then st == end
    else
      && Possible(st, steps[0]) && Orderly(st, steps[0])
      && (ApplyInv(st, steps[0]); OrderlyRun(Apply(st, steps[0]), steps[1..], end))
  }

  /** What a caller can see to when starting something is enough for every step to end well. */
  lemma {:induction false} OrderlyEndsWell<T, D>(st: State<T, D>, steps: seq<Step<T, D>>, end: State<T, D>)
    requires Tame(st) && OrderlyRun(st, steps, end)
    ensures IsRun(st, steps, end) && AllEndWell(st, steps) && Tame(end)
    decreases |steps|
  {
    if steps != [] {
      TameEndsWell(st, steps[0]);
      TameStep(st, steps[0]);
      OrderlyEndsWell(Apply(st, steps[0]), steps[1..], end);
    }
  }

  lemma OrderlyCounts<T, D>(steps: seq<Step<T, D>>, end: State<T, D>, d: D, k: Kind)
    requires OrderlyRun(Nothing<T, D>(), steps, end) && d in end.counts
    ensures forall t | t in end.tasks && Active(end.tasks[t].phase) :: end.tasks[t].roll.Roll? && end.tasks[t].counted
    ensures Count(end.counts, d, k) == |EnrolledTasks(end.tasks, d, k)|
  {
    OrderlyEndsWell(Nothing<T, D>(), steps, end);
    EnrolledCounts(steps, end, d, k);
  }
}
