/** ZoneAwarePromise itself: objects with a state slot and a value slot, and the lists they share. */
module ZoneAwarePromises {
  import opened Settling
  import opened PromiseRuns

  class ZoneAwarePromise {
    var status: Status
    var slot: Slot<ZoneAwarePromise>
    ghost var history: seq<Reaction<ZoneAwarePromise>>

    constructor ()
      ensures Record(status, slot, history) == Fresh()
    {
      status, slot, history := Pending, Listeners([]), [];
    }
  }

  lemma {:induction false} WithoutAt<P>(s: seq<P>, i: nat)
    requires i < |s| && Count(s, s[i]) <= 1
    ensures Without(s, s[i]) == s[..i] + s[i + 1..]
  {
    if i == 0 {
      WithoutAbsent(s[1..], s[0]);
    } else {
      assert Count(s[1..], s[i]) <= 1;
      WithoutAt(s[1..], i - 1);
      assert s[..i] == [s[0]] + s[1..][..i - 1];
      CountHas(s[1..], s[i]);
      assert s[i] == s[1..][i - 1];
    }
  }

  lemma {:induction false} CountHas<P>(s: seq<P>, x: P)
    ensures x in s <==> Count(s, x) > 0
  {
    if s != [] {
      CountHas(s[1..], x);
      assert s == [s[0]] + s[1..];
    }
  }

  lemma {:induction false} WithoutAbsent<P>(s: seq<P>, e: P)
    requires Count(s, e) == 0
    ensures Without(s, e) == s
  {
    if s != [] {
      WithoutAbsent(s[1..], e);
    }
  }

  lemma InvOf<P>(st: State<P>, e: P)
    requires Inv(st) && e in st.promises
    ensures SaneRecord(st.promises, st.promises[e]) && Count(st.uncaught, e) <= 1
  {
    assert Listed(st.promises[e].status, Count(st.uncaught, e), Count(st.reported, e));
  }

  lemma ResolvePending<P>(st: State<P>, e: P, p: P, zone: Zone, n: P)
    requires Sane(st) && e in st.promises && p in st.promises && p != e
    requires st.promises[e].status == Pending && st.promises[p].status == Pending
    ensures var guarded, g := st.(guards := st.guards + [Guard(e, false)]), |st.guards|;
      && Sane(guarded)
      && Resolve(st, e, true, Promise(p), zone, n)
         == Outcome(Register(guarded, p, Reaction(zone, n, Resolver(g, true), Resolver(g, false))), false)
  {
    assert SaneRecord(st.promises, st.promises[e]);
  }

  lemma NothingMade<P>(st: State<P>, e: P, zone: Zone, n: P, n': P)
    requires Sane(st) && e in st.promises
    ensures Resolve(st, e, false, ResolvedWithItself, zone, n) == Resolve(st, e, false, ResolvedWithItself, zone, n')
  {
  }

  /** What the promises of one page share: the queue they schedule on, the uncaught rejections, the guards. */
  class Realm {
    ghost var all: set<ZoneAwarePromise>
    var scheduled: seq<Microtask<ZoneAwarePromise>>
    var uncaught: seq<ZoneAwarePromise>
    var guards: seq<Guard<ZoneAwarePromise>>
    ghost var reported: seq<ZoneAwarePromise>

    ghost function Now(): (st: State<ZoneAwarePromise>)
      reads this, all
      ensures st.promises.Keys == all
    {
      State(map p | p in all :: Record(p.status, p.slot, p.history), scheduled, uncaught, guards, reported)
    }

    lemma NowIs(st: State<ZoneAwarePromise>)
      requires st.promises.Keys == all && forall p | p in all :: st.promises[p] == Record(p.status, p.slot, p.history)
      requires st.scheduled == scheduled && st.uncaught == uncaught && st.guards == guards && st.reported == reported
      ensures Now() == st
    {
      assert Now().promises == st.promises;
    }

    constructor ()
      ensures Now() == Nothing() && Inv(Now())
    {
      all, scheduled, uncaught, guards, reported := {}, [], [], [], [];
    }

    method Make() returns (p: ZoneAwarePromise)
      requires Inv(Now())
      modifies this`all
      ensures fresh(p) && all == old(all) + {p}
      ensures Now() == Apply(old(Now()), New(p)) && Inv(Now())
    {
      p := new ZoneAwarePromise();
      NewInv(Now(), p);
      Include(p);
    }

    method Include(p: ZoneAwarePromise)
      requires p !in all && Record(p.status, p.slot, p.history) == Fresh()
      modifies this`all
      ensures all == old(all) + {p}
      ensures var was := old(Now()); Now() == was.(promises := was.promises[p := Fresh()])
    {
      ghost var was := Now();
      all := all + {p};
      NowIs(was.(promises := was.promises[p := Fresh()]));
    }

    /** `Z`: a rejection that nobody had caught leaves the list. */
    method ClearUnhandled(e: ZoneAwarePromise)
      requires e.status == RejectedNoCatch ==> Count(uncaught, e) <= 1
      modifies this`uncaught, e`status
      ensures e.status == if old(e.status) == RejectedNoCatch then Rejected else old(e.status)
      ensures uncaught == if old(e.status) == RejectedNoCatch then Without(old(uncaught), e) else old(uncaught)
    {
      if e.status == RejectedNoCatch {
        e.status := Rejected;
        ghost var was := uncaught;
        var r := 0;
        while r < |uncaught|
          invariant (uncaught == was && r <= |was| && e !in was[..r]) || (uncaught == Without(was, e) && e !in uncaught)
          decreases |uncaught| - r
          modifies this`uncaught
        {
          if e == uncaught[r] {
            WithoutAt(uncaught, r);
            WithoutCounts(was, e);
            CountHas(Without(was, e), e);
            uncaught := uncaught[..r] + uncaught[r + 1..];
          }
          r := r + 1;
        }
        if uncaught == was {
          CountHas(was, e);
          assert was[..|was|] == was;
          WithoutAbsent(was, e);
        }
      }
    }

    method CatchPromise(e: ZoneAwarePromise)
      requires Inv(Now()) && e in all
      modifies this`uncaught, e`status
      ensures Now() == Catch(old(Now()), e) && Inv(Now())
    {
      ghost var was := Now();
      InvOf(was, e);
      CatchInv(was, e);
      ClearUnhandled(e);
      NowIs(Catch(was, e));
    }

    /** `z`: one microtask for a registration with a settled promise. */
    method ScheduleReaction(e: ZoneAwarePromise, zone: Zone, chained: ZoneAwarePromise, f: Callback, g: Callback)
      requires e.status == RejectedNoCatch ==> Count(uncaught, e) <= 1
      modifies this`uncaught, this`scheduled, e`status
      ensures e.status == if old(e.status) == RejectedNoCatch then Rejected else old(e.status)
      ensures uncaught == if old(e.status) == RejectedNoCatch then Without(old(uncaught), e) else old(uncaught)
      ensures |scheduled| == |old(scheduled)| + 1 && scheduled[..|old(scheduled)|] == old(scheduled)
      ensures var task := scheduled[|old(scheduled)|];
        && task.source == e && task.zone == zone && task.chained == chained
        && (old(e.status) == Fulfilled ==> task.handler == if f == NotAFunction then Identity else Calling(f))
        && (old(e.status) != Fulfilled ==> task.handler == if g == NotAFunction then Rejecting else Calling(g))
    {
      ClearUnhandled(e);
      var callback := if e.status == Fulfilled then f else g;
      var handler :=
        if callback != NotAFunction then Calling(callback) else if e.status == Fulfilled then Identity else Rejecting;
      scheduled := scheduled + [Microtask(e, zone, handler, chained)];
    }

    method Listen(e: ZoneAwarePromise, zone: Zone, f: Callback, g: Callback) returns (chained: ZoneAwarePromise)
      requires if e.status == Pending then e.slot.Listeners?
               else e.status == RejectedNoCatch ==> Count(uncaught, e) <= 1
      modifies this, e
      ensures fresh(chained) && Record(chained.status, chained.slot, chained.history) == Fresh()
      ensures all == old(all) + {chained} && guards == old(guards) && reported == old(reported)
      ensures e.history == old(e.history) + [Reaction(zone, chained, f, g)]
      ensures e.status == if old(e.status) == RejectedNoCatch then Rejected else old(e.status)
      ensures uncaught == if old(e.status) == RejectedNoCatch then Without(old(uncaught), e) else old(uncaught)
      ensures if e.status == Pending
        then e.slot == Listeners(old(e.slot.items) + Cells(Reaction(zone, chained, f, g)))
          && scheduled == old(scheduled)
        else
          && e.slot == old(e.slot)
          && scheduled == old(scheduled) + [TaskFor(e, e.status == Fulfilled, Reaction(zone, chained, f, g))]
    {
      chained := new ZoneAwarePromise();
      if e.status == Pending {
        e.slot := Listeners(e.slot.items + [InZone(zone), Chained(chained), Calls(f), Calls(g)]);
      } else {
        ScheduleReaction(e, zone, chained, f, g);
      }
      e.history := e.history + [Reaction(zone, chained, f, g)];
      all := all + {chained};
    }

    method Enlist(e: ZoneAwarePromise, zone: Zone, f: Callback, g: Callback) returns (chained: ZoneAwarePromise)
      requires Sane(Now()) && e in all && Count(uncaught, e) <= 1
      modifies this, e
      ensures fresh(chained) && all == old(all) + {chained}
      ensures Now() == Register(old(Now()), e, Reaction(zone, chained, f, g))
    {
      ghost var was := Now();
      assert SaneRecord(was.promises, was.promises[e]);
      chained := Listen(e, zone, f, g);
      NowIs(Register(was, e, Reaction(zone, chained, f, g)));
    }

    method Then(e: ZoneAwarePromise, zone: Zone, f: Callback, g: Callback) returns (chained: ZoneAwarePromise)
      requires Inv(Now()) && e in all
      modifies this, e
      ensures fresh(chained) && all == old(all) + {chained}
      ensures var step := PromiseRuns.Then(e, Reaction(zone, chained, f, g));
        Possible(old(Now()), step) && Now() == Apply(old(Now()), step) && Inv(Now())
    {
      InvOf(Now(), e);
      chained := Enlist(e, zone, f, g);
      RegisterInv(old(Now()), e, Reaction(zone, chained, f, g));
    }

    /** Takes the listeners of a settled promise four cells at a time. */
    method ScheduleAll(e: ZoneAwarePromise, listeners: seq<Item<ZoneAwarePromise>>)
      requires Celled(listeners) && e.status != RejectedNoCatch
      modifies this`uncaught, this`scheduled, e`status
      ensures e.status == old(e.status) && uncaught == old(uncaught)
      ensures scheduled == old(scheduled) + TasksOf(e, e.status == Fulfilled, listeners)
    {
      ghost var ok, done := e.status == Fulfilled, [];
      var p := 0;
      while p < |listeners|
        invariant p <= |listeners| && Celled(listeners[p..])
        invariant e.status == old(e.status) && uncaught == old(uncaught)
        invariant scheduled == old(scheduled) + done
        invariant TasksOf(e, ok, listeners) == done + TasksOf(e, ok, listeners[p..])
      {
        ghost var rest := listeners[p..];
        assert rest[0] == listeners[p] && rest[1] == listeners[p + 1] && rest[2] == listeners[p + 2]
               && rest[3] == listeners[p + 3];
        assert rest[4..] == listeners[p + 4..];
        ScheduleReaction(e, listeners[p].zone, listeners[p + 1].p, listeners[p + 2].f, listeners[p + 3].f);
        done := done + [TaskFor(e, ok, First(rest))];
        p := p + 4;
      }
      assert listeners[p..] == [];
    }

    method SettleFields(e: ZoneAwarePromise, ok: bool, v: Value<ZoneAwarePromise>)
      requires e.status == Pending && e.slot.Listeners? && Celled(e.slot.items)
      modifies this`scheduled, this`uncaught, e`status, e`slot
      ensures e.slot == Settled(v) && scheduled == old(scheduled) + TasksOf(e, ok, old(e.slot.items))
      ensures e.status == if ok then Fulfilled else if old(e.slot.items) == [] then RejectedNoCatch else Rejected
      ensures uncaught == if e.status == RejectedNoCatch then old(uncaught) + [e] else old(uncaught)
    {
      e.status := if ok then Fulfilled else Rejected;
      var listeners := e.slot.items;
      e.slot := Settled(v);
      ScheduleAll(e, listeners);
      if |listeners| == 0 && !ok {
        e.status := RejectedNoCatch;
        uncaught := uncaught + [e];
      }
    }

    method SettleNow(e: ZoneAwarePromise, ok: bool, v: Value<ZoneAwarePromise>)
      requires Sane(Now()) && e in all && e.status == Pending
      modifies this`scheduled, this`uncaught, e`status, e`slot
      ensures Now() == Settle(old(Now()), e, ok, v)
    {
      ghost var was := Now();
      assert SaneRecord(was.promises, was.promises[e]);
      SettleFields(e, ok, v);
      NowIs(Settle(was, e, ok, v));
    }

    method SettlePromise(e: ZoneAwarePromise, ok: bool, v: Value<ZoneAwarePromise>)
      requires Inv(Now()) && e in all && e.status == Pending && Known(Now().promises, v) && !v.BadThen?
               && (ok ==> IsPlain(v))
      modifies this`scheduled, this`uncaught, e`status, e`slot
      ensures Now() == Settle(old(Now()), e, ok, v) && Inv(Now())
    {
      SettleInv(Now(), e, ok, v);
      SettleNow(e, ok, v);
    }

    method Guarded(e: ZoneAwarePromise)
      requires Inv(Now()) && e in all
      modifies this`guards
      ensures var was := old(Now()); Now() == was.(guards := was.guards + [Guard(e, false)])
      ensures Inv(Now())
    {
      GuardInv(Now(), e);
      guards := guards + [Guard(e, false)];
    }

    /** The resolver `j`; `n` is the promise made if it adopts a pending one. */
    method ResolvePromise(e: ZoneAwarePromise, ok: bool, v: Value<ZoneAwarePromise>, zone: Zone)
      returns (throws: bool, n: ZoneAwarePromise)
      requires Inv(Now()) && e in all && Known(Now().promises, v)
      modifies this, all
      ensures old(all) <= all && (forall p | p in all :: p in old(all) || fresh(p))
      ensures old(Adopts(Now(), e, ok, v)) ==> fresh(n)
      ensures Outcome(Now(), throws) == Resolve(old(Now()), e, ok, v, zone, n) && Inv(Now())
      decreases if ok && v.Promise? then 1 else 0, v, 1
    {
      throws, n := false, e;
      if v == Promise(e) {
        throws := true;
      } else if e.status != Pending {
      } else if v.BadThen? {
        throws, n := ResolvePromise(e, false, v.error, zone);
      } else if ok && v.Promise? && v.p.status != Pending {
        throws, n := ResolveSettled(e, v, zone);
      } else if ok && v.Promise? {
        n := Adopt(e, v.p, zone);
      } else if ok && v.Thenable? {
        Guarded(e);
      } else {
        SettlePromise(e, ok, v);
      }
    }

    /** Resolving a promise with a pending one. */
    method Adopt(e: ZoneAwarePromise, p: ZoneAwarePromise, zone: Zone) returns (n: ZoneAwarePromise)
      requires Inv(Now()) && e in all && p in all && p != e && e.status == Pending && p.status == Pending
      modifies this, p
      ensures fresh(n) && all == old(all) + {n}
      ensures Outcome(Now(), false) == Resolve(old(Now()), e, true, Promise(p), zone, n) && Inv(Now())
    {
      var g := |guards|;
      Guarded(e);
      n := Then(p, zone, Resolver(g, true), Resolver(g, false));
      ResolvePending(old(Now()), e, p, zone, n);
    }

    /** Resolving a pending promise with a settled one. */
    method ResolveSettled(e: ZoneAwarePromise, v: Value<ZoneAwarePromise>, zone: Zone)
      returns (throws: bool, n: ZoneAwarePromise)
      requires Inv(Now()) && e in all && e.status == Pending && v.Promise? && v.p in all && v.p.status != Pending
      modifies this, all
      ensures old(all) <= all && (forall p | p in all :: p in old(all) || fresh(p))
      ensures Outcome(Now(), throws) == Resolve(old(Now()), e, true, v, zone, n) && Inv(Now())
      decreases 1, v, 0
    {
      CatchPromise(v.p);
      InvOf(Now(), v.p);
      throws, n := ResolvePromise(e, v.p.status == Fulfilled, v.p.slot.value, zone);
    }

    /** A resolver that was handed out (`x`): an exception becomes a rejection. */
    method CallResolver(e: ZoneAwarePromise, ok: bool, v: Value<ZoneAwarePromise>, zone: Zone)
      returns (n: ZoneAwarePromise)
      requires Inv(Now()) && e in all && Known(Now().promises, v)
      modifies this, all
      ensures old(all) <= all && (forall p | p in all :: p in old(all) || fresh(p))
      ensures Possible(old(Now()), Call(e, ok, v, zone, n))
      ensures Now() == Apply(old(Now()), Call(e, ok, v, zone, n)) && Inv(Now())
    {
      var throws;
      throws, n := ResolvePromise(e, ok, v, zone);
      if throws {
        ghost var st := Now();
        var _, m := ResolvePromise(e, false, ResolvedWithItself, zone);
        NothingMade(st, e, zone, m, n);
      }
    }

    method UseGuard(g: nat)
      requires Inv(Now()) && g < |guards|
      modifies this`guards
      ensures var was := old(Now()); Now() == was.(guards := was.guards[g := Guard(was.guards[g].target, true)])
      ensures Inv(Now())
    {
      UsedInv(Now(), g);
      guards := guards[g := Guard(guards[g].target, true)];
    }

    /** The same behind a guard: only the first call goes through. */
    method CallOnce(g: nat, ok: bool, v: Value<ZoneAwarePromise>, zone: Zone) returns (n: ZoneAwarePromise)
      requires Inv(Now()) && g < |guards| && Known(Now().promises, v)
      modifies this, all
      ensures old(all) <= all && (forall p | p in all :: p in old(all) || fresh(p))
      ensures Possible(old(Now()), CallGuarded(g, ok, v, zone, n))
      ensures Now() == Apply(old(Now()), CallGuarded(g, ok, v, zone, n)) && Inv(Now())
    {
      n := guards[g].target;
      assert n in all by { assert guards[g] in guards; }
      if !guards[g].used {
        UseGuard(g);
        n := CallResolver(n, ok, v, zone);
      }
    }

    /** The microtasks of a promise that has settled, in terms of the fields. */
    lemma EachAnswered(p: ZoneAwarePromise)
      requires Inv(Now()) && p in all && p.status != Pending
      ensures var mine := Mine(scheduled, p);
        && |mine| == |p.history|
        && (forall k | 0 <= k < |mine| ::
              && mine[k].source == p && mine[k].zone == p.history[k].zone && mine[k].chained == p.history[k].chained
              && (p.status == Fulfilled ==>
                    mine[k].handler == if p.history[k].onFulfilled == NotAFunction then Identity
                                       else Calling(p.history[k].onFulfilled))
              && (p.status != Fulfilled ==>
                    mine[k].handler == if p.history[k].onRejected == NotAFunction then Rejecting
                                       else Calling(p.history[k].onRejected)))
    {
      assert Accounted(p, Now().promises[p], Mine(scheduled, p));
    }

    /** `microtaskDrainDone`, one round: the oldest uncaught rejection leaves the list to be reported. */
    method ReportNext() returns (e: ZoneAwarePromise)
      requires Inv(Now()) && uncaught != []
      modifies this`uncaught, this`reported
      ensures e == old(uncaught)[0]
      ensures Now() == Apply(old(Now()), Report) && Inv(Now())
    {
      ghost var was := Now();
      ReportInv(was);
      e := uncaught[0];
      uncaught, reported := uncaught[1..], reported + [e];
      NowIs(Apply(was, Report));
    }
  }
}
