/** ZoneAwarePromise as a state machine: what the resolver `j`, `then` and the reporting of uncaught rejections do
    to the promises, to the microtasks scheduled and to the list of uncaught rejections. `P` stands for the
    identities of the promises. */
module Settling {

  /** The four values of a promise's state slot: null, true, false and 0. */
  datatype Status = Pending | Fulfilled | Rejected | RejectedNoCatch

  /** A value as far as the resolver looks at it: one of its own promises, another object with a callable `then`,
      one whose `then` throws when it is read, or anything else. */
  datatype Value<P> = Plain(n: int) | ResolvedWithItself | Thenable(n: int) | BadThen(error: Value<P>) | Promise(p: P)

  /** What `then` is given: nothing callable, a function of the user, or a resolver behind a guard. */
  datatype Callback = NotAFunction | Function(n: int) | Resolver(guard: nat, ok: bool)

  type Zone = int

  /** One registration: `then(onFulfilled, onRejected)` called in `zone`, with the promise it returned. */
  datatype Reaction<P> = Reaction(zone: Zone, chained: P, onFulfilled: Callback, onRejected: Callback)

  /** A cell of the listener array, where each registration takes four. */
  datatype Item<P> = InZone(zone: Zone) | Chained(p: P) | Calls(f: Callback)

  /** The value slot: the listener array first, the value or reason afterwards. */
  datatype Slot<P> = Listeners(items: seq<Item<P>>) | Settled(value: Value<P>)

  /** `history` records all registrations so far. */
  datatype Record<P> = Record(status: Status, slot: Slot<P>, history: seq<Reaction<P>>)

  datatype Handler = Identity | Rejecting | Calling(f: Callback)

  datatype Microtask<P> = Microtask(source: P, zone: Zone, handler: Handler, chained: P)

  /** The resolvers given to a thenable share one guard; only the first call goes through. */
  datatype Guard<P> = Guard(target: P, used: bool)

  /** `reported` records the rejections already taken from the uncaught list to be reported. */
  datatype State<P> = State(promises: map<P, Record<P>>, scheduled: seq<Microtask<P>>, uncaught: seq<P>,
                            guards: seq<Guard<P>>, reported: seq<P>)

  function Nothing<P>(): State<P>
  {
    State(map[], [], [], [], [])
  }

  function Fresh<P>(): Record<P>
  {
    Record(Pending, Listeners([]), [])
  }

  // ---- the listener array ----

  function Cells<P>(x: Reaction<P>): seq<Item<P>>
  {
    [InZone(x.zone), Chained(x.chained), Calls(x.onFulfilled), Calls(x.onRejected)]
  }

  /** An array of whole registrations. */
  predicate Celled<P>(items: seq<Item<P>>)
  {
    items == [] || (|items| >= 4 && items[0].InZone? && items[1].Chained? && items[2].Calls? && items[3].Calls?
                    && Celled(items[4..]))
  }

  function First<P>(items: seq<Item<P>>): Reaction<P>
    requires items != [] && Celled(items)
  {
    Reaction(items[0].zone, items[1].p, items[2].f, items[3].f)
  }

  /** The microtask that a settled promise schedules for a registration. */
  function TaskFor<P>(e: P, ok: bool, x: Reaction<P>): Microtask<P>
  {
    var f := if ok then x.onFulfilled else x.onRejected;
    var handler := if f != NotAFunction then Calling(f) else if ok then Identity else Rejecting;
    Microtask(e, x.zone, handler, x.chained)
  }

  /** The microtasks for an array, taken four cells at a time. */
  function TasksOf<P>(e: P, ok: bool, items: seq<Item<P>>): seq<Microtask<P>>
    requires Celled(items)
  {
    if items == [] then [] else [TaskFor(e, ok, First(items))] + TasksOf(e, ok, items[4..])
  }

  // ---- the steps ----

  /** Values that only name existing promises. */
  predicate Known<P(==)>(promises: map<P, Record<P>>, v: Value<P>)
  {
    match v
    case BadThen(w) => Known(promises, w)
    case Promise(p) => p in promises
    case _ => true
  }

  predicate IsPlain<P>(v: Value<P>)
  {
    v.Plain? || v.ResolvedWithItself?
  }

  /** A pending promise has its listeners, a settled one a value; a fulfilled one has a plain value. */
  predicate SaneRecord<P(==)>(promises: map<P, Record<P>>, r: Record<P>)
  {
    if r.status == Pending then r.slot.Listeners? && Celled(r.slot.items)
    else
      && r.slot.Settled? && Known(promises, r.slot.value) && !r.slot.value.BadThen?
      && (r.status == Fulfilled ==> IsPlain(r.slot.value))
  }

  predicate Sane<P(==)>(st: State<P>)
  {
    forall p | p in st.promises :: SaneRecord(st.promises, st.promises[p])
  }

  function Without<P(==)>(s: seq<P>, e: P): seq<P>
  {
    if s == [] then [] else (if s[0] == e then [] else [s[0]]) + Without(s[1..], e)
  }

  /** `Z(e)`: a rejection that nobody had caught now counts as caught. */
  function Catch<P(==)>(st: State<P>, e: P): (r: State<P>)
    requires e in st.promises
    ensures r.promises.Keys == st.promises.Keys
  {
    if st.promises[e].status == RejectedNoCatch then
      st.(promises := st.promises[e := st.promises[e].(status := Rejected)], uncaught := Without(st.uncaught, e))
    else st
  }

  lemma KnownSame<P>(a: map<P, Record<P>>, b: map<P, Record<P>>, v: Value<P>)
    requires a.Keys <= b.Keys && Known(a, v)
    ensures Known(b, v)
  {
    if v.BadThen? {
      KnownSame(a, b, v.error);
    }
  }

  lemma SaneLater<P>(a: map<P, Record<P>>, b: map<P, Record<P>>, r: Record<P>)
    requires a.Keys <= b.Keys && SaneRecord(a, r)
    ensures SaneRecord(b, r)
  {
    if r.status != Pending {
      KnownSame(a, b, r.slot.value);
    }
  }

  lemma CatchSane<P>(st: State<P>, e: P)
    requires Sane(st) && e in st.promises
    ensures Sane(Catch(st, e))
  {
    var promises := Catch(st, e).promises;
    forall p | p in promises ensures SaneRecord(promises, promises[p]) {
      assert SaneRecord(st.promises, st.promises[p]);
      SaneLater(st.promises, promises, st.promises[p]);
    }
  }

  /** A pending promise settles: one microtask for each registration, in order; a rejection without any goes on the
      list of uncaught ones. */
  function Settle<P(==)>(st: State<P>, e: P, ok: bool, v: Value<P>): State<P>
    requires Sane(st) && e in st.promises && st.promises[e].status == Pending
  {
    assert SaneRecord(st.promises, st.promises[e]);
    var items := st.promises[e].slot.items;
    var uncaught := !ok && items == [];
    var status := if ok then Fulfilled else if uncaught then RejectedNoCatch else Rejected;
    st.(promises := st.promises[e := Record(status, Settled(v), st.promises[e].history)],
        scheduled := st.scheduled + TasksOf(e, ok, items),
        uncaught := if uncaught then st.uncaught + [e] else st.uncaught)
  }

  /** `e.then(...)`: `x.chained` is the new promise that it returns. */
  function Register<P(==)>(st: State<P>, e: P, x: Reaction<P>): State<P>
    requires Sane(st) && e in st.promises
  {
    assert SaneRecord(st.promises, st.promises[e]);
    if st.promises[e].status == Pending then
      var r := st.promises[e];
      var s := Record(Pending, Listeners(r.slot.items + Cells(x)), r.history + [x]);
      st.(promises := st.promises[x.chained := Fresh()][e := s])
    else
      var c := Catch(st, e);
      var r := c.promises[e];
      c.(promises := c.promises[x.chained := Fresh()][e := r.(history := r.history + [x])],
         scheduled := c.scheduled + [TaskFor(e, r.status == Fulfilled, x)])
  }

  /** Resolving `e` with `v` comes to a call of `then` on a pending promise, which needs a new promise. */
  predicate Adopts<P(==)>(st: State<P>, e: P, ok: bool, v: Value<P>)
    requires e in st.promises && Known(st.promises, v)
  {
    ok && v.Promise? && v.p != e && st.promises[e].status == Pending && st.promises[v.p].status == Pending
  }

  datatype Outcome<P> = Outcome(st: State<P>, throws: bool)

  /** `j(e, ok, v)`; `n` is the promise made if a pending one is adopted, in the zone `zone`. */
  function Resolve<P(==)>(st: State<P>, e: P, ok: bool, v: Value<P>, zone: Zone, n: P): Outcome<P>
    requires Sane(st) && e in st.promises && Known(st.promises, v)
    decreases if ok && v.Promise? then 1 else 0, v
  {
    if v == Promise(e) then Outcome(st, true)
    else if st.promises[e].status != Pending then Outcome(st, false)
    else if v.BadThen? then Resolve(st, e, false, v.error, zone, n)
    else if ok && v.Promise? && st.promises[v.p].status != Pending then
      var c := Catch(st, v.p);
      CatchSane(st, v.p);
      var r := c.promises[v.p];
      assert SaneRecord(c.promises, r);
      Resolve(c, e, r.status == Fulfilled, r.slot.value, zone, n)
    else if ok && v.Promise? then
      var g := |st.guards|;
      var guarded := st.(guards := st.guards + [Guard(e, false)]);
      assert Sane(guarded);
      Outcome(Register(guarded, v.p, Reaction(zone, n, Resolver(g, true), Resolver(g, false))), false)
    else if ok && v.Thenable? then Outcome(st.(guards := st.guards + [Guard(e, false)]), false)
    else Outcome(Settle(st, e, ok, v), false)
  }

  /** The resolvers that are handed out (`x`): an exception becomes a rejection. */
  function Deliver<P(==)>(st: State<P>, e: P, ok: bool, v: Value<P>, zone: Zone, n: P): (s: State<P>)
    requires Sane(st) && e in st.promises && Known(st.promises, v)
    ensures st.promises.Keys <= s.promises.Keys
  {
    var r := Resolve(st, e, ok, v, zone, n);
    ResolveSane(st, e, ok, v, zone, n);
    if r.throws then
      ResolveSane(r.st, e, false, ResolvedWithItself, zone, n);
      Resolve(r.st, e, false, ResolvedWithItself, zone, n).st
    else r.st
  }

  lemma SettleSane<P>(st: State<P>, e: P, ok: bool, v: Value<P>)
    requires Sane(st) && e in st.promises && st.promises[e].status == Pending
    requires Known(st.promises, v) && !v.BadThen? && (ok ==> IsPlain(v))
    ensures Sane(Settle(st, e, ok, v)) && Settle(st, e, ok, v).promises.Keys == st.promises.Keys
  {
    var promises := Settle(st, e, ok, v).promises;
    assert promises.Keys == st.promises.Keys;
    forall p | p in promises ensures SaneRecord(promises, promises[p]) {
      if p == e {
        KnownSame(st.promises, promises, v);
      } else {
        assert SaneRecord(st.promises, st.promises[p]);
        SaneLater(st.promises, promises, st.promises[p]);
      }
    }
  }

  lemma {:induction false} CelledAppend<P>(items: seq<Item<P>>, x: Reaction<P>)
    requires Celled(items)
    ensures Celled(items + Cells(x))
    decreases |items|
  {
    if items == [] {
      assert items + Cells(x) == Cells(x);
      assert Cells(x)[4..] == [];
    } else {
      CelledAppend(items[4..], x);
      assert (items + Cells(x))[4..] == items[4..] + Cells(x);
    }
  }

  lemma RegisterSane<P>(st: State<P>, e: P, x: Reaction<P>)
    requires Sane(st) && e in st.promises
    ensures Sane(Register(st, e, x)) && Register(st, e, x).promises.Keys == st.promises.Keys + {x.chained}
  {
    var promises := Register(st, e, x).promises;
    CatchSane(st, e);
    var c := Catch(st, e).promises;
    assert promises.Keys == st.promises.Keys + {x.chained};
    forall p | p in promises ensures SaneRecord(promises, promises[p]) {
      assert p in c ==> SaneRecord(c, c[p]);
      if p == e {
        assert SaneRecord(st.promises, st.promises[e]);
        if st.promises[e].status == Pending {
          CelledAppend(st.promises[e].slot.items, x);
        } else {
          SaneLater(c, promises, c[e]);
        }
      } else if p != x.chained {
        SaneLater(c, promises, c[p]);
      }
    }
  }

  lemma {:induction false} ResolveSane<P>(st: State<P>, e: P, ok: bool, v: Value<P>, zone: Zone, n: P)
    requires Sane(st) && e in st.promises && Known(st.promises, v)
    ensures Sane(Resolve(st, e, ok, v, zone, n).st)
    ensures st.promises.Keys <= Resolve(st, e, ok, v, zone, n).st.promises.Keys
    decreases if ok && v.Promise? then 1 else 0, v
  {
    if v == Promise(e) || st.promises[e].status != Pending {
    } else if v.BadThen? {
      ResolveSane(st, e, false, v.error, zone, n);
    } else if ok && v.Promise? && st.promises[v.p].status != Pending {
      var c := Catch(st, v.p);
      CatchSane(st, v.p);
      var r := c.promises[v.p];
      assert SaneRecord(c.promises, r);
      ResolveSane(c, e, r.status == Fulfilled, r.slot.value, zone, n);
    } else if ok && v.Promise? {
      var g := |st.guards|;
      var guarded := st.(guards := st.guards + [Guard(e, false)]);
      RegisterSane(guarded, v.p, Reaction(zone, n, Resolver(g, true), Resolver(g, false)));
    } else if ok && v.Thenable? {
    } else {
      SettleSane(st, e, ok, v);
    }
  }
}
