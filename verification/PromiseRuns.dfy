/** Whole runs of promises: what every sequence of resolver calls, `then` calls and reports keeps. */
module PromiseRuns {
  import opened Sequences
  import opened Settling

  // ---- what was registered, and what was scheduled for it ----

  /** The listener array that registrations make. */
  function AllCells<P>(xs: seq<Reaction<P>>): (items: seq<Item<P>>)
    ensures |items| == 4 * |xs|
  {
    if xs == [] then [] else AllCells(xs[..|xs| - 1]) + Cells(xs[|xs| - 1])
  }

  /** One microtask for each registration, in order. */
  function TasksFor<P>(e: P, ok: bool, xs: seq<Reaction<P>>): seq<Microtask<P>>
  {
    seq(|xs|, i requires 0 <= i < |xs| => TaskFor(e, ok, xs[i]))
  }

  /** The microtasks that a promise has scheduled, in order. */
  function Mine<P(==)>(scheduled: seq<Microtask<P>>, e: P): seq<Microtask<P>>
  {
    if scheduled == [] then []
    else (if scheduled[0].source == e then [scheduled[0]] else []) + Mine(scheduled[1..], e)
  }

  lemma AllCellsAppend<P>(xs: seq<Reaction<P>>, x: Reaction<P>)
    ensures AllCells(xs + [x]) == AllCells(xs) + Cells(x)
  {
    assert (xs + [x])[..|xs|] == xs;
  }

  lemma TasksForAppend<P>(e: P, ok: bool, xs: seq<Reaction<P>>, x: Reaction<P>)
    ensures TasksFor(e, ok, xs + [x]) == TasksFor(e, ok, xs) + [TaskFor(e, ok, x)]
  {}

  lemma {:induction false} TasksOfAppend<P>(e: P, ok: bool, items: seq<Item<P>>, x: Reaction<P>)
    requires Celled(items)
    ensures Celled(items + Cells(x))
    ensures TasksOf(e, ok, items + Cells(x)) == TasksOf(e, ok, items) + [TaskFor(e, ok, x)]
    decreases |items|
  {
    CelledAppend(items, x);
    if items == [] {
      assert items + Cells(x) == Cells(x);
      assert Cells(x)[4..] == [];
    } else {
      TasksOfAppend(e, ok, items[4..], x);
      assert (items + Cells(x))[4..] == items[4..] + Cells(x);
      assert First(items + Cells(x)) == First(items);
    }
  }

  /** Reading the array four cells at a time gives the registrations back, each once and in order. */
  lemma {:induction false} TasksOfAllCells<P>(e: P, ok: bool, xs: seq<Reaction<P>>)
    ensures Celled(AllCells(xs)) && TasksOf(e, ok, AllCells(xs)) == TasksFor(e, ok, xs)
  {
    if xs != [] {
      var n := |xs| - 1;
      TasksOfAllCells(e, ok, xs[..n]);
      TasksOfAppend(e, ok, AllCells(xs[..n]), xs[n]);
      TasksForAppend(e, ok, xs[..n], xs[n]);
      assert xs[..n] + [xs[n]] == xs;
    }
  }

  /** Each registration stands in the four cells that begin at four times its number. */
  lemma {:induction false} AllCellsAt<P>(xs: seq<Reaction<P>>, k: nat)
    requires k < |xs|
    ensures var items := AllCells(xs);
      && items[4 * k] == InZone(xs[k].zone) && items[4 * k + 1] == Chained(xs[k].chained)
      && items[4 * k + 2] == Calls(xs[k].onFulfilled) && items[4 * k + 3] == Calls(xs[k].onRejected)
  {
    var n := |xs| - 1;
    if k < n {
      AllCellsAt(xs[..n], k);
    }
  }

  lemma {:induction false} MineConcat<P>(a: seq<Microtask<P>>, b: seq<Microtask<P>>, e: P)
    ensures Mine(a + b, e) == Mine(a, e) + Mine(b, e)
    decreases |a|
  {
    if a == [] {
      assert a + b == b;
    } else {
      MineConcat(a[1..], b, e);
      assert (a + b)[1..] == a[1..] + b && (a + b)[0] == a[0];
      if a[0].source == e {
        assert [a[0]] + (Mine(a[1..], e) + Mine(b, e)) == [a[0]] + Mine(a[1..], e) + Mine(b, e);
      }
    }
  }

  lemma {:induction false} MineAll<P>(ts: seq<Microtask<P>>, e: P)
    requires forall t | t in ts :: t.source == e
    ensures Mine(ts, e) == ts
    decreases |ts|
  {
    if ts != [] {
      MineAll(ts[1..], e);
      assert ts[0] in ts;
    }
  }

  lemma {:induction false} MineNone<P>(ts: seq<Microtask<P>>, e: P)
    requires forall t | t in ts :: t.source != e
    ensures Mine(ts, e) == []
    decreases |ts|
  {
    if ts != [] {
      MineNone(ts[1..], e);
      assert ts[0] in ts;
    }
  }

  // ---- the invariant ----

  /** While a promise is pending its array holds all registrations and nothing is scheduled; afterwards exactly one
      microtask is scheduled for each, in order of registration, with the handler that its outcome calls for. */
  predicate Accounted<P(==)>(p: P, r: Record<P>, mine: seq<Microtask<P>>)
  {
    if r.status == Pending then r.slot == Listeners(AllCells(r.history)) && mine == []
    else mine == TasksFor(p, r.status == Fulfilled, r.history) && (r.status == RejectedNoCatch ==> r.history == [])
  }

  /** How often a promise is on a list. */
  function Count<P(==)>(s: seq<P>, p: P): nat
  {
    if s == [] then 0 else (if s[0] == p then 1 else 0) + Count(s[1..], p)
  }

  /** A rejection that nobody caught is on the list or was reported, once; no other promise is on the list. */
  predicate Listed(status: Status, uncaught: nat, reported: nat)
  {
    && uncaught + reported <= 1
    && (uncaught == 1 ==> status == RejectedNoCatch)
    && (reported == 1 ==> status == Rejected || status == RejectedNoCatch)
    && (status == RejectedNoCatch ==> uncaught + reported == 1)
  }

  predicate AllListed<P(==)>(st: State<P>)
  {
    && (forall p | p in st.promises :: Listed(st.promises[p].status, Count(st.uncaught, p), Count(st.reported, p)))
    && (forall p | p in st.uncaught :: p in st.promises)
    && (forall p | p in st.reported :: p in st.promises)
  }

  predicate Sourced<P(==)>(st: State<P>)
  {
    && (forall t | t in st.scheduled :: t.source in st.promises)
    && (forall g | g in st.guards :: g.target in st.promises)
  }

  predicate AllAccounted<P(==)>(st: State<P>)
  {
    forall p | p in st.promises :: Accounted(p, st.promises[p], Mine(st.scheduled, p))
  }

  predicate Inv<P(==)>(st: State<P>)
  {
    Sane(st) && AllAccounted(st) && Sourced(st) && AllListed(st)
  }

  lemma {:induction false} WithoutCounts<P>(s: seq<P>, e: P)
    ensures forall p :: Count(Without(s, e), p) == if p == e then 0 else Count(s, p)
    ensures forall p | p in Without(s, e) :: p in s
  {
    if s != [] {
      WithoutCounts(s[1..], e);
      var rest := Without(s[1..], e);
      assert [] + rest == rest;
      if s[0] != e {
        assert ([s[0]] + rest)[1..] == rest;
      }
    }
  }

  lemma {:induction false} CountAppend<P>(s: seq<P>, x: P)
    ensures forall p :: Count(s + [x], p) == Count(s, p) + if p == x then 1 else 0
  {
    if s == [] {
      assert [] + [x] == [x];
    } else {
      CountAppend(s[1..], x);
      assert (s + [x])[1..] == s[1..] + [x];
    }
  }

  lemma {:induction false} CountZero<P>(s: seq<P>, p: P)
    requires p !in s
    ensures Count(s, p) == 0
  {
    if s != [] {
      CountZero(s[1..], p);
    }
  }

  lemma CatchInv<P>(st: State<P>, e: P)
    requires Inv(st) && e in st.promises
    ensures Inv(Catch(st, e))
  {
    CatchSane(st, e);
    if st.promises[e].status == RejectedNoCatch {
      var c := Catch(st, e);
      forall p | p in c.promises ensures Accounted(p, c.promises[p], Mine(c.scheduled, p)) {
        assert Accounted(p, st.promises[p], Mine(st.scheduled, p));
      }
      WithoutCounts(st.uncaught, e);
      forall p | p in c.promises
        ensures Listed(c.promises[p].status, Count(c.uncaught, p), Count(c.reported, p))
      {
        assert Listed(st.promises[p].status, Count(st.uncaught, p), Count(st.reported, p));
      }
    }
  }

  lemma SettleAccounted<P>(st: State<P>, e: P, ok: bool, v: Value<P>)
    requires Inv(st) && e in st.promises && st.promises[e].status == Pending
    ensures AllAccounted(Settle(st, e, ok, v)) && Sourced(Settle(st, e, ok, v))
    ensures st.promises[e].slot == Listeners(AllCells(st.promises[e].history))
  {
    var s := Settle(st, e, ok, v);
    assert SaneRecord(st.promises, st.promises[e]);
    assert Accounted(e, st.promises[e], Mine(st.scheduled, e));
    var xs := st.promises[e].history;
    TasksOfAllCells(e, ok, xs);
    var tasks := TasksFor(e, ok, xs);
    assert s.scheduled == st.scheduled + tasks;
    forall p | p in s.promises ensures Accounted(p, s.promises[p], Mine(s.scheduled, p)) {
      MineConcat(st.scheduled, tasks, p);
      if p == e {
        MineAll(tasks, e);
        assert AllCells(xs) == [] <==> xs == [];
      } else {
        MineNone(tasks, p);
        assert Accounted(p, st.promises[p], Mine(st.scheduled, p));
      }
    }
  }

  lemma SettleInv<P>(st: State<P>, e: P, ok: bool, v: Value<P>)
    requires Inv(st) && e in st.promises && st.promises[e].status == Pending
    requires Known(st.promises, v) && !v.BadThen? && (ok ==> IsPlain(v))
    ensures Inv(Settle(st, e, ok, v))
  {
    SettleSane(st, e, ok, v);
    SettleAccounted(st, e, ok, v);
    var s := Settle(st, e, ok, v);
    CountAppend(st.uncaught, e);
    forall p | p in s.promises ensures Listed(s.promises[p].status, Count(s.uncaught, p), Count(s.reported, p)) {
      assert Listed(st.promises[p].status, Count(st.uncaught, p), Count(st.reported, p));
    }
  }

  lemma RegisterPending<P>(st: State<P>, e: P, x: Reaction<P>)
    requires Inv(st) && e in st.promises && x.chained !in st.promises && st.promises[e].status == Pending
    ensures AllAccounted(Register(st, e, x)) && Sourced(Register(st, e, x))
  {
    var s := Register(st, e, x);
    assert SaneRecord(st.promises, st.promises[e]);
    assert Accounted(e, st.promises[e], Mine(st.scheduled, e));
    AllCellsAppend(st.promises[e].history, x);
    forall p | p in s.promises ensures Accounted(p, s.promises[p], Mine(s.scheduled, p)) {
      if p == x.chained {
        MineNone(st.scheduled, p);
      } else {
        assert Accounted(p, st.promises[p], Mine(st.scheduled, p));
      }
    }
  }

  lemma RegisterSettled<P>(c: State<P>, e: P, x: Reaction<P>)
    requires Inv(c) && e in c.promises && x.chained !in c.promises
    requires c.promises[e].status != Pending && c.promises[e].status != RejectedNoCatch
    ensures AllAccounted(Register(c, e, x)) && Sourced(Register(c, e, x))
  {
    var s := Register(c, e, x);
    var ok := c.promises[e].status == Fulfilled;
    var task := TaskFor(e, ok, x);
    assert Accounted(e, c.promises[e], Mine(c.scheduled, e));
    TasksForAppend(e, ok, c.promises[e].history, x);
    forall p | p in s.promises ensures Accounted(p, s.promises[p], Mine(s.scheduled, p)) {
      MineConcat(c.scheduled, [task], p);
      if p == x.chained {
        MineNone(c.scheduled, p);
      } else if p == e {
        MineAll([task], p);
      } else {
        MineNone([task], p);
        assert Accounted(p, c.promises[p], Mine(c.scheduled, p));
      }
    }
  }

  lemma RegisterCatches<P>(st: State<P>, e: P, x: Reaction<P>)
    requires Inv(st) && e in st.promises
    ensures Sane(Catch(st, e)) && Register(st, e, x) == Register(Catch(st, e), e, x)
  {
    CatchSane(st, e);
  }

  lemma RegisterListed<P>(st: State<P>, e: P, x: Reaction<P>)
    requires Sane(st) && AllListed(st) && e in st.promises && x.chained !in st.promises
    requires st.promises[e].status != RejectedNoCatch
    ensures AllListed(Register(st, e, x))
  {
    var s := Register(st, e, x);
    CountZero(st.uncaught, x.chained);
    CountZero(st.reported, x.chained);
    forall p | p in s.promises ensures Listed(s.promises[p].status, Count(s.uncaught, p), Count(s.reported, p)) {
      assert p in st.promises ==> Listed(st.promises[p].status, Count(st.uncaught, p), Count(st.reported, p));
    }
  }

  lemma RegisterInv<P>(st: State<P>, e: P, x: Reaction<P>)
    requires Inv(st) && e in st.promises && x.chained !in st.promises
    ensures Inv(Register(st, e, x))
  {
    RegisterSane(st, e, x);
    CatchInv(st, e);
    RegisterCatches(st, e, x);
    var c := Catch(st, e);
    RegisterListed(c, e, x);
    if c.promises[e].status == Pending {
      RegisterPending(c, e, x);
    } else {
      RegisterSettled(c, e, x);
    }
  }

  lemma GuardInv<P>(st: State<P>, e: P)
    requires Inv(st) && e in st.promises
    ensures Inv(st.(guards := st.guards + [Guard(e, false)]))
  {}

  lemma UsedInv<P>(st: State<P>, g: nat)
    requires Inv(st) && g < |st.guards|
    ensures Inv(st.(guards := st.guards[g := Guard(st.guards[g].target, true)]))
  {
    assert st.guards[g] in st.guards;
  }

  lemma {:induction false} ResolveInv<P>(st: State<P>, e: P, ok: bool, v: Value<P>, zone: Zone, n: P)
    requires Inv(st) && e in st.promises && Known(st.promises, v) && (Adopts(st, e, ok, v) ==> n !in st.promises)
    ensures Inv(Resolve(st, e, ok, v, zone, n).st)
    decreases if ok && v.Promise? then 1 else 0, v
  {
    if v == Promise(e) || st.promises[e].status != Pending {
    } else if v.BadThen? {
      ResolveInv(st, e, false, v.error, zone, n);
    } else if ok && v.Promise? && st.promises[v.p].status != Pending {
      var c := Catch(st, v.p);
      CatchInv(st, v.p);
      var r := c.promises[v.p];
      assert SaneRecord(c.promises, r);
      ResolveInv(c, e, r.status == Fulfilled, r.slot.value, zone, n);
    } else if ok && v.Promise? {
      var g := |st.guards|;
      var guarded := st.(guards := st.guards + [Guard(e, false)]);
      GuardInv(st, e);
      RegisterInv(guarded, v.p, Reaction(zone, n, Resolver(g, true), Resolver(g, false)));
    } else if ok && v.Thenable? {
      GuardInv(st, e);
    } else {
      SettleInv(st, e, ok, v);
    }
  }

  lemma DeliverInv<P>(st: State<P>, e: P, ok: bool, v: Value<P>, zone: Zone, n: P)
    requires Inv(st) && e in st.promises && Known(st.promises, v) && (Adopts(st, e, ok, v) ==> n !in st.promises)
    ensures Inv(Deliver(st, e, ok, v, zone, n))
  {
    ResolveInv(st, e, ok, v, zone, n);
    ResolveSane(st, e, ok, v, zone, n);
    var r := Resolve(st, e, ok, v, zone, n);
    if r.throws {
      ResolveInv(r.st, e, false, ResolvedWithItself, zone, n);
    }
  }

  /** Resolving a pending promise with a settled one gives it the same outcome, unless that is a rejection with the
      pending promise itself. */
  lemma AdoptsSettled<P>(st: State<P>, e: P, i: P, zone: Zone, n: P)
    requires Inv(st) && e in st.promises && i in st.promises
    requires st.promises[e].status == Pending && st.promises[i].status != Pending
    ensures var r, s := st.promises[i], Deliver(st, e, true, Promise(i), zone, n).promises[e];
      && s.slot == Settled(if r.slot.value == Promise(e) then ResolvedWithItself else r.slot.value)
      && (s.status == Fulfilled <==> r.status == Fulfilled)
    ensures Deliver(st, e, true, Promise(i), zone, n).promises[i].status != RejectedNoCatch
  {
    CatchSane(st, i);
    var c := Catch(st, i);
    var r := c.promises[i];
    assert SaneRecord(c.promises, r) && c.promises[e] == st.promises[e];
    var o := Resolve(c, e, r.status == Fulfilled, r.slot.value, zone, n);
    assert Resolve(st, e, true, Promise(i), zone, n) == o;
    if r.slot.value == Promise(e) {
      assert o == Outcome(c, true);
      assert Resolve(c, e, false, ResolvedWithItself, zone, n).st == Settle(c, e, false, ResolvedWithItself);
    } else {
      assert o == Outcome(Settle(c, e, r.status == Fulfilled, r.slot.value), false);
    }
  }

  /** A promise resolved with a pending one is not locked in: its own reject still works. */
  lemma NotLockedIn<P>(st: State<P>, e: P, i: P, reason: int, zone: Zone, n: P, m: P)
    requires Inv(st) && e in st.promises && i in st.promises && e != i && n !in st.promises
    requires st.promises[e].status == Pending && st.promises[i].status == Pending
    ensures var s := Deliver(st, e, true, Promise(i), zone, n);
      && Inv(s) && Adopts(st, e, true, Promise(i)) && s.promises[e].status == Pending && s.promises[i].status == Pending
      && Deliver(s, e, false, Plain(reason), zone, m).promises[e].slot == Settled(Plain(reason))
      && Deliver(s, e, false, Plain(reason), zone, m).promises[i].status == Pending
  {
    DeliverInv(st, e, true, Promise(i), zone, n);
  }

  // ---- runs ----

  /** What can happen: a promise is made; a resolver handed out with it is called; one behind a guard is; `then` is
      called; the oldest uncaught rejection is reported. `n` is the promise that adopting a pending one makes. */
  datatype Step<P> =
    | New(n: P)
    | Call(e: P, ok: bool, v: Value<P>, zone: Zone, n: P)
    | CallGuarded(g: nat, ok: bool, v: Value<P>, zone: Zone, n: P)
    | Then(e: P, x: Reaction<P>)
    | Report

  predicate Possible<P(==)>(st: State<P>, step: Step<P>)
  {
    match step
    case New(n) => n !in st.promises
    case Call(e, ok, v, zone, n) =>
      e in st.promises && Known(st.promises, v) && (Adopts(st, e, ok, v) ==> n !in st.promises)
    case CallGuarded(g, ok, v, zone, n) =>
      g < |st.guards| && st.guards[g].target in st.promises && Known(st.promises, v)
      && (!st.guards[g].used && Adopts(st, st.guards[g].target, ok, v) ==> n !in st.promises)
    case Then(e, x) => e in st.promises && x.chained !in st.promises
    case Report => st.uncaught != []
  }

  function Apply<P(==)>(st: State<P>, step: Step<P>): State<P>
    requires Inv(st) && Possible(st, step)
  {
    match step
    case New(n) => st.(promises := st.promises[n := Fresh()])
    case Call(e, ok, v, zone, n) => Deliver(st, e, ok, v, zone, n)
    case CallGuarded(g, ok, v, zone, n) =>
      var e := st.guards[g].target;
      assert st.guards[g] in st.guards;
      if st.guards[g].used then st
      else
        var used := st.(guards := st.guards[g := Guard(e, true)]);
        assert Sane(used);
        Deliver(used, e, ok, v, zone, n)
    case Then(e, x) => Register(st, e, x)
    case Report => st.(uncaught := st.uncaught[1..], reported := st.reported + [st.uncaught[0]])
  }

  /** Resolving with a pending promise registers a guarded pair of resolvers with it. */
  lemma AdoptsPending<P>(st: State<P>, e: P, i: P, zone: Zone, n: P)
    requires Inv(st) && e in st.promises && Known(st.promises, Promise(i)) && Adopts(st, e, true, Promise(i))
             && n !in st.promises
    ensures var s, g := Deliver(st, e, true, Promise(i), zone, n), |st.guards|;
      && s.guards == st.guards + [Guard(e, false)] && s.promises[e].status == Pending
      && s.promises[i].history == st.promises[i].history + [Reaction(zone, n, Resolver(g, true), Resolver(g, false))]
  {}

  /** Resolving with the outcome of a settled promise settles, unless that is the promise itself. */
  lemma ResolveWithOutcome<P>(st: State<P>, e: P, ok: bool, v: Value<P>, zone: Zone, n: P)
    requires Sane(st) && e in st.promises && Known(st.promises, v) && !v.BadThen? && (ok ==> IsPlain(v))
    ensures Resolve(st, e, ok, v, zone, n) ==
            if v == Promise(e) then Outcome(st, true)
            else if st.promises[e].status != Pending then Outcome(st, false)
            else Outcome(Settle(st, e, ok, v), false)
  {
  }

  /** Once the adopted promise has settled, the resolver that its microtask calls passes its outcome on, if nothing
      else has settled the adopting one; a second call does nothing. */
  lemma AdoptionPassesOn<P>(st: State<P>, g: nat, i: P, zone: Zone, n: P)
    requires Inv(st) && g < |st.guards| && !st.guards[g].used && i in st.promises && st.promises[i].status != Pending
    ensures var e, r, v := st.guards[g].target, st.promises[i], st.promises[i].slot.value;
      var step := CallGuarded(g, r.status == Fulfilled, v, zone, n);
      && Possible(st, step) && Possible(Apply(st, step), step) && Inv(Apply(st, step))
      && Apply(Apply(st, step), step) == Apply(st, step)
      && (st.promises[e].status == Pending ==>
            && Apply(st, step).promises[e].slot == Settled(if v == Promise(e) then ResolvedWithItself else v)
            && (Apply(st, step).promises[e].status == Fulfilled <==> r.status == Fulfilled))
  {
    assert st.guards[g] in st.guards;
    var e, r, v := st.guards[g].target, st.promises[i], st.promises[i].slot.value;
    assert SaneRecord(st.promises, r);
    var ok := r.status == Fulfilled;
    var step := CallGuarded(g, ok, v, zone, n);
    var used := st.(guards := st.guards[g := Guard(e, true)]);
    ApplyInv(st, step);
    UsedInv(st, g);
    ResolveSane(used, e, ok, v, zone, n);
    ResolveWithOutcome(used, e, ok, v, zone, n);
    ResolveWithOutcome(used, e, false, ResolvedWithItself, zone, n);
    assert Apply(st, step).guards == used.guards;
    KnownSame(st.promises, Apply(st, step).promises, v);
  }

  lemma NewInv<P>(st: State<P>, n: P)
    requires Inv(st) && n !in st.promises
    ensures Inv(st.(promises := st.promises[n := Fresh()]))
  {
    var s := st.(promises := st.promises[n := Fresh()]);
    MineNone(st.scheduled, n);
    CountZero(st.uncaught, n);
    CountZero(st.reported, n);
    forall p | p in s.promises
      ensures SaneRecord(s.promises, s.promises[p]) && Accounted(p, s.promises[p], Mine(s.scheduled, p))
      ensures Listed(s.promises[p].status, Count(s.uncaught, p), Count(s.reported, p))
    {
      if p != n {
        assert SaneRecord(st.promises, st.promises[p]) && Accounted(p, st.promises[p], Mine(st.scheduled, p));
        assert Listed(st.promises[p].status, Count(st.uncaught, p), Count(st.reported, p));
        SaneLater(st.promises, s.promises, st.promises[p]);
      }
    }
  }

  lemma ReportInv<P>(st: State<P>)
    requires Inv(st) && st.uncaught != []
    ensures Inv(st.(uncaught := st.uncaught[1..], reported := st.reported + [st.uncaught[0]]))
  {
    CountAppend(st.reported, st.uncaught[0]);
    var s := st.(uncaught := st.uncaught[1..], reported := st.reported + [st.uncaught[0]]);
    assert st.uncaught[0] in st.uncaught;
    forall p | p in s.promises
      ensures Listed(s.promises[p].status, Count(s.uncaught, p), Count(s.reported, p))
    {
      assert Listed(st.promises[p].status, Count(st.uncaught, p), Count(st.reported, p));
    }
  }

  lemma ApplyInv<P>(st: State<P>, step: Step<P>)
    requires Inv(st) && Possible(st, step)
    ensures Inv(Apply(st, step))
  {
    match step
    case New(n) => NewInv(st, n);
    case Call(e, ok, v, zone, n) => DeliverInv(st, e, ok, v, zone, n);
    case CallGuarded(g, ok, v, zone, n) =>
      assert st.guards[g] in st.guards;
      if !st.guards[g].used {
        var used := st.(guards := st.guards[g := Guard(st.guards[g].target, true)]);
        UsedInv(st, g);
        DeliverInv(used, st.guards[g].target, ok, v, zone, n);
      }
    case Then(e, x) => RegisterInv(st, e, x);
    case Report => ReportInv(st);
  }

  /** A run: every step is possible when its turn comes. */
  ghost predicate IsRun<P>(st: State<P>, steps: seq<Step<P>>, end: State<P>)
    requires Inv(st)
    decreases |steps|
  {
    if steps == [] then st == end
    else
      && Possible(st, steps[0])
      && (ApplyInv(st, steps[0]); IsRun(Apply(st, steps[0]), steps[1..], end))
  }

  /** Every run keeps the books: registrations and microtasks match one for one. */
  lemma {:induction false} RunInv<P>(st: State<P>, steps: seq<Step<P>>, end: State<P>)
    requires Inv(st) && IsRun(st, steps, end)
    ensures Inv(end)
    decreases |steps|
  {
    if steps != [] {
      ApplyInv(st, steps[0]);
      RunInv(Apply(st, steps[0]), steps[1..], end);
    }
  }

  /** What can become of a promise: a pending one may settle and take registrations; a settled one keeps its value
      and its outcome, except that an uncaught rejection may become a caught one; registrations are only added. */
  predicate Later<P(==)>(r: Record<P>, s: Record<P>)
  {
    && r.history <= s.history
    && (r.status != Pending ==> s.slot == r.slot)
    && (r.status == s.status || r.status == Pending || (r.status == RejectedNoCatch && s.status == Rejected))
  }

  predicate AllLater<P(==)>(st: State<P>, s: State<P>)
  {
    forall p | p in st.promises :: p in s.promises && Later(st.promises[p], s.promises[p])
  }

  lemma LaterTwice<P>(a: State<P>, b: State<P>, c: State<P>)
    requires AllLater(a, b) && AllLater(b, c)
    ensures AllLater(a, c)
  {
    forall p | p in a.promises ensures p in c.promises && Later(a.promises[p], c.promises[p]) {
      assert Later(a.promises[p], b.promises[p]) && Later(b.promises[p], c.promises[p]);
    }
  }

  lemma RegisterLater<P>(st: State<P>, e: P, x: Reaction<P>)
    requires Sane(st) && e in st.promises && x.chained !in st.promises
    ensures AllLater(st, Register(st, e, x))
  {}

  lemma {:induction false} ResolveLater<P>(st: State<P>, e: P, ok: bool, v: Value<P>, zone: Zone, n: P)
    requires Sane(st) && e in st.promises && Known(st.promises, v) && (Adopts(st, e, ok, v) ==> n !in st.promises)
    ensures AllLater(st, Resolve(st, e, ok, v, zone, n).st)
    decreases if ok && v.Promise? then 1 else 0, v
  {
    if v == Promise(e) || st.promises[e].status != Pending {
    } else if v.BadThen? {
      ResolveLater(st, e, false, v.error, zone, n);
    } else if ok && v.Promise? && st.promises[v.p].status != Pending {
      var c := Catch(st, v.p);
      CatchSane(st, v.p);
      assert AllLater(st, c);
      var r := c.promises[v.p];
      assert SaneRecord(c.promises, r);
      ResolveLater(c, e, r.status == Fulfilled, r.slot.value, zone, n);
      LaterTwice(st, c, Resolve(c, e, r.status == Fulfilled, r.slot.value, zone, n).st);
    } else if ok && v.Promise? {
      var g := |st.guards|;
      var guarded := st.(guards := st.guards + [Guard(e, false)]);
      assert Sane(guarded);
      RegisterLater(guarded, v.p, Reaction(zone, n, Resolver(g, true), Resolver(g, false)));
    }
  }

  lemma DeliverLater<P>(st: State<P>, e: P, ok: bool, v: Value<P>, zone: Zone, n: P)
    requires Sane(st) && e in st.promises && Known(st.promises, v) && (Adopts(st, e, ok, v) ==> n !in st.promises)
    ensures AllLater(st, Deliver(st, e, ok, v, zone, n))
  {
    var r := Resolve(st, e, ok, v, zone, n);
    ResolveSane(st, e, ok, v, zone, n);
    ResolveLater(st, e, ok, v, zone, n);
    if r.throws {
      ResolveLater(r.st, e, false, ResolvedWithItself, zone, n);
      LaterTwice(st, r.st, Deliver(st, e, ok, v, zone, n));
    }
  }

  lemma ApplyLater<P>(st: State<P>, step: Step<P>)
    requires Inv(st) && Possible(st, step)
    ensures AllLater(st, Apply(st, step))
  {
    match step
    case New(n) =>
    case Call(e, ok, v, zone, n) => DeliverLater(st, e, ok, v, zone, n);
    case CallGuarded(g, ok, v, zone, n) =>
      assert st.guards[g] in st.guards;
      if !st.guards[g].used {
        var used := st.(guards := st.guards[g := Guard(st.guards[g].target, true)]);
        assert Sane(used);
        DeliverLater(used, st.guards[g].target, ok, v, zone, n);
        LaterTwice(st, used, Apply(st, step));
      }
    case Then(e, x) => RegisterLater(st, e, x);
    case Report =>
  }

  /** Over every run a promise settles once at most, and its value never changes afterwards. */
  lemma {:induction false} SettlesOnce<P>(st: State<P>, steps: seq<Step<P>>, end: State<P>)
    requires Inv(st) && IsRun(st, steps, end)
    ensures AllLater(st, end)
    decreases |steps|
  {
    if steps != [] {
      var next := Apply(st, steps[0]);
      ApplyInv(st, steps[0]);
      ApplyLater(st, steps[0]);
      SettlesOnce(next, steps[1..], end);
      LaterTwice(st, next, end);
    }
  }

  /** From the start: every promise that has settled has scheduled exactly one microtask for each registration made
      with it, before or after it settled, in the order of registration; one that has not has scheduled none and
      holds them all, four cells each. A fulfilled promise has its microtasks call what was given for fulfilment, a
      rejected one what was given for rejection; what is no function passes the value on, or the rejection. */
  lemma EachReactionOnce<P>(steps: seq<Step<P>>, end: State<P>, p: P)
    requires IsRun(Nothing<P>(), steps, end) && p in end.promises
    ensures var r, mine := end.promises[p], Mine(end.scheduled, p);
      if r.status == Pending then
        && r.slot.Listeners? && |r.slot.items| == 4 * |r.history| && mine == []
        && (forall k | 0 <= k < |r.history| ::
              && r.slot.items[4 * k] == InZone(r.history[k].zone)
              && r.slot.items[4 * k + 1] == Chained(r.history[k].chained)
              && r.slot.items[4 * k + 2] == Calls(r.history[k].onFulfilled)
              && r.slot.items[4 * k + 3] == Calls(r.history[k].onRejected))
      else
        && |mine| == |r.history|
        && (forall k | 0 <= k < |mine| ::
              && mine[k].source == p && mine[k].zone == r.history[k].zone && mine[k].chained == r.history[k].chained
              && (r.status == Fulfilled ==>
                    mine[k].handler == if r.history[k].onFulfilled == NotAFunction then Identity
                                       else Calling(r.history[k].onFulfilled))
              && (r.status != Fulfilled ==>
                    mine[k].handler == if r.history[k].onRejected == NotAFunction then Rejecting
                                       else Calling(r.history[k].onRejected)))
  {
    RunInv(Nothing<P>(), steps, end);
    var r := end.promises[p];
    assert Accounted(p, r, Mine(end.scheduled, p));
    forall k | 0 <= k < |r.history|
      ensures var items := AllCells(r.history);
        && items[4 * k] == InZone(r.history[k].zone) && items[4 * k + 1] == Chained(r.history[k].chained)
        && items[4 * k + 2] == Calls(r.history[k].onFulfilled) && items[4 * k + 3] == Calls(r.history[k].onRejected)
    {
      AllCellsAt(r.history, k);
    }
  }

  // ---- what a single step does ----

  /** A resolver of a promise that has settled does nothing at all. */
  lemma SettledIgnores<P>(st: State<P>, e: P, ok: bool, v: Value<P>, zone: Zone, n: P)
    requires Inv(st) && e in st.promises && Known(st.promises, v) && st.promises[e].status != Pending
    ensures Deliver(st, e, ok, v, zone, n) == st
  {}

  /** What the resolvers of a pending promise do with anything but a promise: rejecting with `v` makes `v` the reason
      and lists the promise last if nothing is registered with it; resolving with a plain value makes it the value;
      another thenable gets a guarded pair of resolvers and leaves the promise pending. A `then` that throws rejects
      with what it throws, whichever resolver is called. */
  lemma SettlesAsAsked<P>(st: State<P>, e: P, ok: bool, v: Value<P>, zone: Zone, n: P)
    requires Inv(st) && e in st.promises && Known(st.promises, v) && st.promises[e].status == Pending
    requires ok ==> !v.Promise?
    ensures var s, alone := Deliver(st, e, ok, v, zone, n), st.promises[e].history == [];
      && (v.BadThen? ==> s == Deliver(st, e, false, v.error, zone, n))
      && (v == Promise(e) ==> s == Deliver(st, e, false, ResolvedWithItself, zone, n))
      && (!ok && !v.BadThen? && v != Promise(e) ==>
            && s.promises[e].slot == Settled(v)
            && s.promises[e].status == (if alone then RejectedNoCatch else Rejected)
            && s.uncaught == (if alone then st.uncaught + [e] else st.uncaught))
      && (ok && (v.Plain? || v.ResolvedWithItself?) ==>
            s.promises[e].slot == Settled(v) && s.promises[e].status == Fulfilled && s.uncaught == st.uncaught)
      && (ok && v.Thenable? ==> s == st.(guards := st.guards + [Guard(e, false)]))
  {
    var r := st.promises[e];
    assert SaneRecord(st.promises, r) && Accounted(e, r, Mine(st.scheduled, e));
    assert AllCells(r.history) == [] <==> r.history == [];
  }

  /** The registration that a step makes with a promise: a call of `then` makes the one asked for, and resolving with
      a pending promise one of a fresh guarded pair of resolvers; nothing else registers. */
  function Asked<P(==)>(st: State<P>, step: Step<P>, p: P): seq<Reaction<P>>
    requires Inv(st) && Possible(st, step)
  {
    var g := |st.guards|;
    match step
    case Then(e, x) => if e == p then [x] else []
    case Call(e, ok, v, zone, n) =>
      if v == Promise(p) && Adopts(st, e, ok, v) then [Reaction(zone, n, Resolver(g, true), Resolver(g, false))] else []
    case CallGuarded(i, ok, v, zone, n) =>
      if v == Promise(p) && !st.guards[i].used && Adopts(st, st.guards[i].target, ok, v)
      then [Reaction(zone, n, Resolver(g, true), Resolver(g, false))] else []
    case _ => []
  }

  function HistoryOf<P(==)>(st: State<P>, p: P): seq<Reaction<P>>
  {
    if p in st.promises then st.promises[p].history else []
  }

  lemma RegisterHistory<P>(st: State<P>, e: P, x: Reaction<P>, p: P)
    requires Sane(st) && e in st.promises && x.chained !in st.promises
    ensures HistoryOf(Register(st, e, x), p) == HistoryOf(st, p) + if p == e then [x] else []
  {}

  lemma {:induction false} ResolveHistory<P>(st: State<P>, e: P, ok: bool, v: Value<P>, zone: Zone, n: P, p: P)
    requires Sane(st) && e in st.promises && Known(st.promises, v) && (Adopts(st, e, ok, v) ==> n !in st.promises)
    ensures HistoryOf(Resolve(st, e, ok, v, zone, n).st, p) == HistoryOf(st, p)
            + if v == Promise(p) && Adopts(st, e, ok, v)
              then [Reaction(zone, n, Resolver(|st.guards|, true), Resolver(|st.guards|, false))] else []
    decreases if ok && v.Promise? then 1 else 0, v
  {
    if v == Promise(e) || st.promises[e].status != Pending {
    } else if v.BadThen? {
      ResolveHistory(st, e, false, v.error, zone, n, p);
    } else if ok && v.Promise? && st.promises[v.p].status != Pending {
      var c := Catch(st, v.p);
      CatchSane(st, v.p);
      var r := c.promises[v.p];
      assert SaneRecord(c.promises, r);
      ResolveHistory(c, e, r.status == Fulfilled, r.slot.value, zone, n, p);
    } else if ok && v.Promise? {
      var g := |st.guards|;
      var guarded := st.(guards := st.guards + [Guard(e, false)]);
      assert Sane(guarded);
      RegisterHistory(guarded, v.p, Reaction(zone, n, Resolver(g, true), Resolver(g, false)), p);
    }
  }

  lemma DeliverHistory<P>(st: State<P>, e: P, ok: bool, v: Value<P>, zone: Zone, n: P, p: P)
    requires Sane(st) && e in st.promises && Known(st.promises, v) && (Adopts(st, e, ok, v) ==> n !in st.promises)
    ensures HistoryOf(Deliver(st, e, ok, v, zone, n), p) == HistoryOf(st, p)
            + if v == Promise(p) && Adopts(st, e, ok, v)
              then [Reaction(zone, n, Resolver(|st.guards|, true), Resolver(|st.guards|, false))] else []
  {
    var r := Resolve(st, e, ok, v, zone, n);
    ResolveSane(st, e, ok, v, zone, n);
    ResolveHistory(st, e, ok, v, zone, n, p);
    if r.throws {
      ResolveHistory(r.st, e, false, ResolvedWithItself, zone, n, p);
    }
  }

  /** A step registers what was asked for, after what was registered before, and nothing else. */
  lemma StepRegisters<P>(st: State<P>, step: Step<P>, p: P)
    requires Inv(st) && Possible(st, step)
    ensures HistoryOf(Apply(st, step), p) == HistoryOf(st, p) + Asked(st, step, p)
  {
    match step
    case New(n) =>
    case Call(e, ok, v, zone, n) => DeliverHistory(st, e, ok, v, zone, n, p);
    case CallGuarded(g, ok, v, zone, n) =>
      assert st.guards[g] in st.guards;
      if !st.guards[g].used {
        var used := st.(guards := st.guards[g := Guard(st.guards[g].target, true)]);
        assert Sane(used);
        DeliverHistory(used, st.guards[g].target, ok, v, zone, n, p);
      }
    case Then(e, x) => RegisterHistory(st, e, x, p);
    case Report =>
  }

  ghost function AskedAlong<P>(st: State<P>, steps: seq<Step<P>>, end: State<P>, p: P): seq<Reaction<P>>
    requires Inv(st) && IsRun(st, steps, end)
    decreases |steps|
  {
    if steps == [] then []
    else
      ApplyInv(st, steps[0]);
      Asked(st, steps[0], p) + AskedAlong(Apply(st, steps[0]), steps[1..], end, p)
  }

  lemma AskedFirst<P>(st: State<P>, steps: seq<Step<P>>, end: State<P>, p: P)
    requires Inv(st) && IsRun(st, steps, end) && steps != []
    ensures var next := Apply(st, steps[0]);
      && Inv(next) && IsRun(next, steps[1..], end)
      && AskedAlong(st, steps, end, p) == Asked(st, steps[0], p) + AskedAlong(next, steps[1..], end, p)
  {
    ApplyInv(st, steps[0]);
  }

  /** Over every run the registrations of a promise are those that the steps asked for, in that order. */
  lemma {:induction false} RunRegisters<P>(st: State<P>, steps: seq<Step<P>>, end: State<P>, p: P)
    requires Inv(st) && IsRun(st, steps, end)
    ensures HistoryOf(end, p) == HistoryOf(st, p) + AskedAlong(st, steps, end, p)
    decreases |steps|
  {
    if steps != [] {
      StepRegisters(st, steps[0], p);
      var next := Apply(st, steps[0]);
      AskedFirst(st, steps, end, p);
      RunRegisters(next, steps[1..], end, p);
      Associative(HistoryOf(st, p), Asked(st, steps[0], p), AskedAlong(next, steps[1..], end, p));
    }
  }

  /** From the start: a rejection is on the uncaught list, or was reported, exactly once as long as nothing was
      registered with it, and a promise with a registration is not on the list. */
  lemma UncaughtExactly<P>(steps: seq<Step<P>>, end: State<P>, p: P)
    requires IsRun(Nothing<P>(), steps, end) && p in end.promises
    ensures var r, on, told := end.promises[p], Count(end.uncaught, p), Count(end.reported, p);
      && on + told <= 1
      && (r.status == RejectedNoCatch ==> on + told == 1 && r.history == [])
      && (r.history != [] ==> on == 0)
  {
    RunInv(Nothing<P>(), steps, end);
    assert Accounted(p, end.promises[p], Mine(end.scheduled, p));
    assert Listed(end.promises[p].status, Count(end.uncaught, p), Count(end.reported, p));
  }
}
