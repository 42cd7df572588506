/** The microtask queue of zone.js: scheduling (`v`), draining in batches (`d`) and the drain at the end of the
    outermost `invokeTask`. */
module Microtasks {
  import opened Sequences

  /** A task as far as the queue sees it: what it does until it returns or throws. */
  datatype Task = Task(id: int, body: seq<Action>, throws: bool)

  /** Code that runs may schedule a microtask, or invoke another task in place. */
  datatype Action = Schedule(id: int, body: seq<Action>, throws: bool) | Invoke(body: seq<Action>)

  /** All that a piece of code schedules, in order. */
  function Scheduled(body: seq<Action>): seq<Task>
    decreases body, 1
  {
    if body == [] then []
    else ScheduledFirst(body) + Scheduled(body[1..])
  }

  function ScheduledFirst(body: seq<Action>): seq<Task>
    requires body != []
    decreases body, 0
  {
    match body[0] case Schedule(n, b, throws) => [Task(n, b, throws)] case Invoke(b) => Scheduled(b)
  }

  /** The order of a plain queue: take the first, run it, put what it schedules at the end. */
  function Fifo(queue: seq<Task>): seq<Task>
    decreases Sizes(queue)
  {
    if queue == [] then []
    else
      SizesConcat(queue[1..], Scheduled(queue[0].body));
      ScheduledSize(queue[0].body);
      [queue[0]] + Fifo(queue[1..] + Scheduled(queue[0].body))
  }

  /** How many tasks there are, with all that they schedule. */
  function Size(t: Task): nat
  {
    1 + BodySize(t.body)
  }

  function BodySize(body: seq<Action>): nat
  {
    if body == [] then 0
    else (match body[0] case Schedule(_, b, _) => 1 + BodySize(b) case Invoke(b) => BodySize(b)) + BodySize(body[1..])
  }

  function Sizes(ts: seq<Task>): nat
  {
    if ts == [] then 0 else Size(ts[0]) + Sizes(ts[1..])
  }

  lemma {:induction false} SizesConcat(a: seq<Task>, b: seq<Task>)
    ensures Sizes(a + b) == Sizes(a) + Sizes(b)
    decreases |a|
  {
    if a == [] {
      assert a + b == b;
    } else {
      SizesConcat(a[1..], b);
      assert (a + b)[1..] == a[1..] + b;
    }
  }

  lemma {:induction false} ScheduledSize(body: seq<Action>)
    ensures Sizes(Scheduled(body)) == BodySize(body)
    decreases body
  {
    if body != [] {
      ScheduledSize(body[1..]);
      match body[0]
      case Schedule(n, b, throws) =>
        SizesConcat([Task(n, b, throws)], Scheduled(body[1..]));
        assert [Task(n, b, throws)][1..] == [];
      case Invoke(b) =>
        ScheduledSize(b);
        SizesConcat(Scheduled(b), Scheduled(body[1..]));
    }
  }

  lemma ScheduledLater(a: seq<Action>, b: seq<Action>)
    requires a != []
    ensures Scheduled(a + b) == ScheduledFirst(a) + Scheduled(a[1..] + b)
  {
    FirstOfConcat(a, b);
  }

  lemma {:induction false} ScheduledConcat(a: seq<Action>, b: seq<Action>)
    ensures Scheduled(a + b) == Scheduled(a) + Scheduled(b)
    decreases |a|
  {
    if a == [] {
      assert a + b == b;
    } else {
      ScheduledConcat(a[1..], b);
      ScheduledLater(a, b);
      Associative(ScheduledFirst(a), Scheduled(a[1..]), Scheduled(b));
    }
  }

  /** Code schedules in the order in which it is written, a task invoked in place included. */
  lemma {:induction false} ScheduledInOrder(a: seq<Action>, n: int, inner: seq<Action>, throws: bool, b: seq<Action>)
    ensures Scheduled(a + [Schedule(n, inner, throws)] + b) == Scheduled(a) + [Task(n, inner, throws)] + Scheduled(b)
    ensures Scheduled(a + [Invoke(inner)] + b) == Scheduled(a + inner + b)
    decreases |a|
  {
    var first, call := [Schedule(n, inner, throws)], [Invoke(inner)];
    if a == [] {
      assert a + first + b == first + b && (first + b)[1..] == b;
      assert a + call + b == call + b && (call + b)[1..] == b;
      ScheduledConcat(inner, b);
      assert a + inner + b == inner + b;
    } else {
      ScheduledInOrder(a[1..], n, inner, throws, b);
      ScheduledLater(a, first + b);
      ScheduledLater(a, call + b);
      ScheduledLater(a, inner + b);
      Associative(a[1..], first, b);
      Associative(a[1..], call, b);
      Associative(a[1..], inner, b);
      Associative(a, first, b);
      Associative(a, call, b);
      Associative(a, inner, b);
      var task := [Task(n, inner, throws)];
      assert ScheduledFirst(a) + (Scheduled(a[1..]) + task + Scheduled(b)) == Scheduled(a) + task + Scheduled(b);
    }
  }

  /** All that some tasks schedule, in order. */
  function ScheduledBy(ts: seq<Task>): seq<Task>
  {
    if ts == [] then [] else Scheduled(ts[0].body) + ScheduledBy(ts[1..])
  }

  /** Tasks run in the order in which they were scheduled: first those that were queued, then those that the tasks
      which ran have scheduled, in the order in which they ran. */
  lemma {:induction false} FifoInOrder(queue: seq<Task>)
    ensures Fifo(queue) == queue + ScheduledBy(Fifo(queue))
    decreases Sizes(queue)
  {
    if queue != [] {
      var t, rest := queue[0], queue[1..];
      var next := rest + Scheduled(t.body);
      SizesConcat(rest, Scheduled(t.body));
      ScheduledSize(t.body);
      FifoInOrder(next);
      assert ([t] + Fifo(next))[1..] == Fifo(next);
      assert queue == [t] + rest;
      Associative(rest, Scheduled(t.body), ScheduledBy(Fifo(next)));
      Associative([t], rest, Scheduled(t.body) + ScheduledBy(Fifo(next)));
    }
  }

  /** The tasks that throw, in order. */
  function Throwing(ts: seq<Task>): seq<Task>
  {
    if ts == [] then [] else Throwing(ts[..|ts| - 1]) + if ts[|ts| - 1].throws then [ts[|ts| - 1]] else []
  }

  lemma ThrowingAppend(ts: seq<Task>, t: Task)
    ensures Throwing(ts + [t]) == Throwing(ts) + if t.throws then [t] else []
  {
    assert (ts + [t])[..|ts|] == ts;
  }

  /** A call of the native scheduler is due whenever code outside every `invokeTask` puts a task on the empty queue. */
  predicate ArmsFirst(body: seq<Action>)
  {
    body != [] &&
    match body[0]
    case Schedule(_, _, _) => true
    case Invoke(b) => Scheduled(b) == [] && ArmsFirst(body[1..])
  }

  lemma {:induction false} ArmsByScheduling(body: seq<Action>)
    requires ArmsFirst(body)
    ensures Scheduled(body) != []
  {
    if body[0].Invoke? {
      ArmsByScheduling(body[1..]);
    }
  }

  /** The tasks of a batch run, with nothing queued, outside every `invokeTask`: the first that schedules anything calls
      the native scheduler if its own call comes first. */
  predicate BatchArms(batch: seq<Task>)
  {
    batch != [] && (ArmsFirst(batch[0].body) || (Scheduled(batch[0].body) == [] && BatchArms(batch[1..])))
  }

  /** How often a native drain of `queue` calls the native scheduler before its reporting: once for every such batch. */
  function Armings(queue: seq<Task>): nat
    decreases Sizes(queue)
  {
    if queue == [] then 0
    else
      SizesScheduledBy(queue);
      (if BatchArms(queue) then 1 else 0) + Armings(ScheduledBy(queue))
  }

  lemma {:induction false} SizesScheduledBy(ts: seq<Task>)
    ensures Sizes(ts) == |ts| + Sizes(ScheduledBy(ts))
  {
    if ts != [] {
      SizesScheduledBy(ts[1..]);
      ScheduledSize(ts[0].body);
      SizesConcat(Scheduled(ts[0].body), ScheduledBy(ts[1..]));
    }
  }

  /** What a top-level turn of the event loop does. `reports` is what the reporting of uncaught rejections does at the
      end of a drain. */
  datatype Event =
    | Outside(t: Task)
    | Dispatch(body: seq<Action>, reports: seq<Action>)
    | Native(reports: seq<Action>)

  /** What is left between turns: the queue, and how many calls of the native scheduler are under way. */
  datatype Rest = Rest(pending: seq<Task>, armed: nat)
  {
    /** No task waits without a drain to come. */
    predicate Covered()
    {
      pending != [] ==> armed > 0
    }

    function Scheduling(t: Task): Rest
    {
      Rest(pending + [t], armed + if pending == [] then 1 else 0)
    }

    /** After a turn. */
    function After(event: Event): Rest
    {
      match event
      case Outside(t) => Scheduling(t)
      case Dispatch(_, reports) => Rest(Scheduled(reports), armed)
      case Native(reports) =>
        if armed == 0 then this
        else Rest(Scheduled(reports), armed - 1 + Armings(pending) + if ArmsFirst(reports) then 1 else 0)
    }

    function AfterAll(events: seq<Event>): Rest
      decreases |events|
    {
      if events == [] then this else After(events[0]).AfterAll(events[1..])
    }

    /** The reporting at the end of a drain schedules nothing, or a native drain is to come after it: one that had been
        asked for before, or by a task that the drain runs, or by what the reporting itself schedules first. */
    predicate Keeps(event: Event)
    {
      match event
      case Outside(_) => true
      case Dispatch(_, reports) => Scheduled(reports) == [] || armed > 0
      case Native(reports) =>
        armed == 0 || Scheduled(reports) == [] || ArmsFirst(reports) || armed > 1 || Armings(pending) > 0
    }

    predicate AllKeep(events: seq<Event>)
      decreases |events|
    {
      events != [] ==> Keeps(events[0]) && After(events[0]).AllKeep(events[1..])
    }

    /** No task is without a drain to come after any of the turns. */
    predicate StaysCovered(events: seq<Event>)
      decreases |events|
    {
      events != [] ==> After(events[0]).Covered() && After(events[0]).StaysCovered(events[1..])
    }

    /** A turn, and a run of turns, strand no task if and only if every drain keeps to that. */
    lemma CoveredExactly(event: Event)
      requires Covered()
      ensures After(event).Covered() <==> Keeps(event)
    {
    }

    lemma {:induction false} StaysCoveredExactly(events: seq<Event>)
      requires Covered()
      ensures StaysCovered(events) <==> AllKeep(events)
      ensures AllKeep(events) ==> AfterAll(events).Covered()
      decreases |events|
    {
      if events != [] {
        CoveredExactly(events[0]);
        if Keeps(events[0]) {
          After(events[0]).StaysCoveredExactly(events[1..]);
        }
      }
    }
  }

  /** Whatever came before, the reporting leaves no task without a drain to come: at the end of a dispatch it schedules
      nothing, and at the end of a native call what it schedules first, if anything, it schedules outside every
      `invokeTask`. */
  predicate Safe(event: Event)
  {
    match event
    case Outside(_) => true
    case Dispatch(_, reports) => Scheduled(reports) == []
    case Native(reports) => Scheduled(reports) == [] || ArmsFirst(reports)
  }

  /** With one native drain to come for a task that schedules another, reporting that schedules within an `invokeTask`
      strands nothing, though it is not safe: the task has asked for one more drain.  Without that task it does. */
  lemma TaskArms(t: Task, u: Task)
    requires Scheduled(t.body) == []
    ensures var reports := [Invoke([Schedule(t.id, t.body, t.throws)])];
      && !Safe(Native(reports))
      && Rest([Task(u.id, [Schedule(t.id, t.body, t.throws)], u.throws)], 1).After(Native(reports)).Covered()
      && !Rest([t], 1).After(Native(reports)).Covered()
  {
    var b := [Schedule(t.id, t.body, t.throws)];
    var reports := [Invoke(b)];
    assert b[1..] == [] && reports[1..] == [];
    assert Scheduled(b) == [t] && Scheduled(reports) == [t];
    var q := [Task(u.id, b, u.throws)];
    assert q[1..] == [] && ScheduledBy(q) == [t] && BatchArms(q);
    if ArmsFirst(t.body) {
      ArmsByScheduling(t.body);
    }
    assert [t][1..] == [] && ScheduledBy([t]) == [] && !BatchArms([t]);
    assert Armings([t]) == 0 && Armings(q) == 1;
  }

  class Queue {
    var pending: seq<Task>
    var draining: bool
    var nesting: nat
    var armed: nat
    ghost var ran: seq<Task>
    ghost var arrived: seq<Task>
    ghost var unhandled: seq<Task>

    constructor ()
      ensures pending == [] && !draining && nesting == 0 && armed == 0 && ran == [] && arrived == [] && unhandled == []
    {
      pending, draining, nesting, armed, ran, arrived, unhandled := [], false, 0, 0, [], [], [];
    }

    /** `v` with a task. */
    method ScheduleMicrotask(t: Task)
      modifies this`pending, this`armed, this`arrived
      ensures pending == old(pending) + [t] && arrived == old(arrived) + [t]
      ensures armed == old(armed) + if nesting == 0 && old(pending) == [] then 1 else 0
    {
      if nesting == 0 && |pending| == 0 {
        armed := armed + 1;
      }
      pending := pending + [t];
      arrived := arrived + [t];
    }

    /** Code runs while a drain is under way or inside a task: it only adds to the queue. */
    method RunBody(body: seq<Action>)
      requires draining || nesting > 0
      modifies this
      ensures pending == old(pending) + Scheduled(body) && arrived == old(arrived) + Scheduled(body)
      ensures draining == old(draining) && nesting == old(nesting) && ran == old(ran) && unhandled == old(unhandled)
      ensures armed == old(armed) + if nesting == 0 && old(pending) == [] && ArmsFirst(body) then 1 else 0
      decreases if draining then 0 else 1, Steps(body), 0
    {
      if body == [] {
        return;
      }
      match body[0] {
        case Schedule(n, b, throws) => ScheduleMicrotask(Task(n, b, throws));
        case Invoke(b) => InvokeTask(b, []);
      }
      RunBody(body[1..]);
      Associative(old(pending), ScheduledFirst(body), Scheduled(body[1..]));
      Associative(old(arrived), ScheduledFirst(body), Scheduled(body[1..]));
    }

    /** `d`: takes the queue in batches until it is empty; a drain that is under way already does it all. */
    method Drain(reports: seq<Action>)
      requires !draining ==> ran + pending == arrived && unhandled == Throwing(ran)
      modifies this
      ensures draining == old(draining) && nesting == old(nesting)
      ensures draining ==>
                && pending == old(pending) && arrived == old(arrived) && ran == old(ran)
                && unhandled == old(unhandled) && armed == old(armed)
      ensures !draining ==>
        && ran == old(ran) + Fifo(old(pending)) && pending == Scheduled(reports)
        && ran + pending == arrived && unhandled == Throwing(ran)
      ensures armed == old(armed) + if draining || nesting > 0 then 0
                                     else Armings(old(pending)) + if ArmsFirst(reports) then 1 else 0
      decreases if draining then 0 else 1, 0, 1
    {
      if draining {
        return;
      }
      draining := true;
      ghost var all := Fifo(pending);
      while |pending| != 0
        invariant draining && nesting == old(nesting)
        invariant ran + pending == arrived && unhandled == Throwing(ran)
        invariant old(ran) + all == ran + Fifo(pending)
        invariant if nesting > 0 then armed == old(armed)
                  else armed + Armings(pending) == old(armed) + Armings(old(pending))
        decreases Sizes(pending)
      {
        var batch := pending;
        pending := [];
        RunBatch(batch);
      }
      RunBody(reports);
      draining := false;
    }

    /** Runs the tasks of a batch in order; what they schedule waits for the next one. */
    method RunBatch(batch: seq<Task>)
      requires draining && pending == [] && batch != [] && ran + batch == arrived && unhandled == Throwing(ran)
      modifies this
      ensures draining && nesting == old(nesting) && ran + pending == arrived && unhandled == Throwing(ran)
      ensures old(ran) + Fifo(batch) == ran + Fifo(pending) && Sizes(pending) < Sizes(batch)
      ensures pending == ScheduledBy(batch) && armed == old(armed) + if nesting == 0 && BatchArms(batch) then 1 else 0
      decreases 1, 0, 0
    {
      assert batch[0..] + pending == batch;
      for i := 0 to |batch|
        invariant draining && nesting == old(nesting) && unhandled == Throwing(ran)
        invariant ran + (batch[i..] + pending) == arrived
        invariant old(ran) + Fifo(batch) == ran + Fifo(batch[i..] + pending)
        invariant pending + ScheduledBy(batch[i..]) == ScheduledBy(batch)
        invariant armed + Due(nesting, pending, batch[i..]) == old(armed) + Due(nesting, [], batch)
        invariant Sizes(batch[i..] + pending) + i <= Sizes(batch)
      {
        var task := batch[i];
        ThrowingAppend(ran, task);
        FifoStep(ran, task, batch[i + 1..], pending);
        assert batch[i..] == [task] + batch[i + 1..];
        DueNext(nesting, pending, task, batch[i + 1..]);
        RunTask(task);
      }
      assert batch[|batch|..] + pending == pending;
    }

    /** Runs one task of the batch; an exception goes to the handler. */
    method RunTask(t: Task)
      requires draining
      modifies this
      ensures draining && nesting == old(nesting)
      ensures pending == old(pending) + Scheduled(t.body) && arrived == old(arrived) + Scheduled(t.body)
      ensures ran == old(ran) + [t] && unhandled == old(unhandled) + if t.throws then [t] else []
      ensures armed == old(armed) + if nesting == 0 && old(pending) == [] && ArmsFirst(t.body) then 1 else 0
      decreases 0, Steps(t.body), 1
    {
      ran := ran + [t];
      RunBody(t.body);
      if t.throws {
        unhandled := unhandled + [t];
      }
    }

    /** `invokeTask`: the outermost one drains at its end. */
    method InvokeTask(body: seq<Action>, reports: seq<Action>)
      requires !draining && nesting == 0 ==> ran + pending == arrived && unhandled == Throwing(ran)
      modifies this
      ensures draining == old(draining) && nesting == old(nesting) && armed == old(armed)
      ensures draining || nesting > 0 ==>
        && pending == old(pending) + Scheduled(body) && arrived == old(arrived) + Scheduled(body)
        && ran == old(ran) && unhandled == old(unhandled)
      ensures !draining && nesting == 0 ==>
        && ran == old(ran) + Fifo(old(pending) + Scheduled(body)) && pending == Scheduled(reports)
        && ran + pending == arrived && unhandled == Throwing(ran)
      decreases if draining then 0 else 1, Steps(body), 2
    {
      nesting := nesting + 1;
      RunBody(body);
      if nesting == 1 {
        Drain(reports);
      }
      nesting := nesting - 1;
    }

    ghost predicate Resting()
      reads this
    {
      !draining && nesting == 0 && ran + pending == arrived && unhandled == Throwing(ran)
    }

    function Left(): Rest
      reads this
    {
      Rest(pending, armed)
    }

    /** No task waits without a drain to come. */
    predicate Covered()
      reads this
    {
      Left().Covered()
    }

    /** One turn of the event loop. */
    method Turn(event: Event)
      requires Resting()
      modifies this
      ensures Resting() && old(ran) <= ran && Left() == old(Left()).After(event)
      ensures old(Covered()) ==> (Covered() <==> old(Left()).Keeps(event))
      ensures old(Covered()) && Safe(event) ==> Covered()
    {
      match event {
        case Outside(t) => ScheduleMicrotask(t);
        case Dispatch(body, reports) => InvokeTask(body, reports);
        case Native(reports) =>
          if armed > 0 {
            armed := armed - 1;
            Drain(reports);
          }
      }
    }

    /** A whole run: always in order of arrival, and no task is left behind on the way if and only if every drain keeps
        to its condition; if every turn is safe, that is so. */
    method Play(events: seq<Event>)
      requires Resting() && Covered()
      modifies this
      ensures Resting() && old(ran) <= ran && Left() == old(Left()).AfterAll(events)
      ensures old(Left()).StaysCovered(events) <==> old(Left()).AllKeep(events)
      ensures old(Left()).AllKeep(events) || (forall e | e in events :: Safe(e)) ==> Covered()
    {
      Left().StaysCoveredExactly(events);
      if forall e | e in events :: Safe(e) {
        SafeKeeps(Left(), events);
      }
      for i := 0 to |events|
        invariant Resting() && old(ran) <= ran
        invariant Left().AfterAll(events[i..]) == old(Left()).AfterAll(events)
      {
        assert events[i..][0] == events[i] && events[i..][1..] == events[i + 1..];
        Turn(events[i]);
      }
    }
  }

  lemma {:induction false} SafeKeeps(rest: Rest, events: seq<Event>)
    requires forall e | e in events :: Safe(e)
    ensures rest.AllKeep(events)
    decreases |events|
  {
    if events != [] {
      assert Safe(events[0]);
      SafeKeeps(rest.After(events[0]), events[1..]);
    }
  }

  /** How many calls of the native scheduler the rest of a batch makes. */
  function Due(nesting: nat, pending: seq<Task>, batch: seq<Task>): nat
  {
    if nesting == 0 && pending == [] && BatchArms(batch) then 1 else 0
  }

  lemma DueNext(nesting: nat, pending: seq<Task>, t: Task, batch: seq<Task>)
    ensures Due(nesting, pending, [t] + batch)
            == Due(nesting, pending + Scheduled(t.body), batch)
              + if nesting == 0 && pending == [] && ArmsFirst(t.body) then 1 else 0
    ensures pending + ScheduledBy([t] + batch) == pending + Scheduled(t.body) + ScheduledBy(batch)
  {
    assert ([t] + batch)[1..] == batch;
    if ArmsFirst(t.body) {
      ArmsByScheduling(t.body);
    }
  }

  /** One task moves from the queue to those that ran, and what it schedules goes to the end. */
  lemma FifoStep(ran: seq<Task>, t: Task, rest: seq<Task>, pending: seq<Task>)
    ensures var next := rest + (pending + Scheduled(t.body));
      && ran + Fifo([t] + rest + pending) == ran + [t] + Fifo(next)
      && Sizes([t] + rest + pending) == 1 + Sizes(next)
      && ran + ([t] + rest + pending) + Scheduled(t.body) == ran + [t] + next
  {
    var queue := [t] + rest + pending;
    assert queue[1..] == rest + pending;
    assert rest + pending + Scheduled(t.body) == rest + (pending + Scheduled(t.body));
    SizesConcat(rest + pending, Scheduled(t.body));
    ScheduledSize(t.body);
  }

  function Steps(body: seq<Action>): nat
  {
    if body == [] then 0
    else 1 + (match body[0] case Schedule(_, _, _) => 0 case Invoke(b) => Steps(b)) + Steps(body[1..])
  }
}
