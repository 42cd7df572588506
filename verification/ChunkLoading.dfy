/** Arriving chunks: the entries that run once all their chunks are there (functions `r` and `t` of the webpack
    runtime). */
module ChunkLoading {
  import opened ModuleCache
  import opened Sequences

  type Chunk = int

  /** A deferred entry: the module to require, once all of `chunks` are installed. */
  datatype Entry = Entry(main: Id, chunks: seq<Chunk>)

  /** What one call of `push` brings. */
  datatype Push = Push(chunks: seq<Chunk>, modules: Table, entries: seq<Entry>)

  predicate Ready(e: Entry, installed: set<Chunk>)
  {
    forall k | 0 <= k < |e.chunks| :: e.chunks[k] in installed
  }

  /** The entries that still miss a chunk, in order. */
  function Waiting(queue: seq<Entry>, installed: set<Chunk>): seq<Entry>
  {
    if queue == [] then []
    else (if Ready(queue[0], installed) then [] else [queue[0]]) + Waiting(queue[1..], installed)
  }

  /** The others, in order. */
  function ReadyOnes(queue: seq<Entry>, installed: set<Chunk>): seq<Entry>
  {
    if queue == [] then []
    else (if Ready(queue[0], installed) then [queue[0]] else []) + ReadyOnes(queue[1..], installed)
  }

  /** The outcome of a scan: modules cached, entries left, entries started, and whether it returned. */
  datatype Scanned = Scanned(ran: seq<Id>, deferred: seq<Entry>, started: seq<Entry>, ok: bool)

  /** One pass over the queue: a ready entry is taken out and then required; an exception ends the pass. */
  function Scan(table: Table, installed: set<Chunk>, ran: seq<Id>, queue: seq<Entry>): (r: Scanned)
    ensures ran <= r.ran
    decreases |queue|
  {
    if queue == [] then Scanned(ran, [], [], true)
    else if !Ready(queue[0], installed) then
      var r := Scan(table, installed, ran, queue[1..]);
      r.(deferred := [queue[0]] + r.deferred)
    else
      var r := Require(table, ran, queue[0].main);
      if !r.ok then Scanned(r.ran, queue[1..], [queue[0]], false)
      else
        var q := Scan(table, installed, r.ran, queue[1..]);
        q.(started := [queue[0]] + q.started)
  }

  /** The whole scan is what is kept and begun so far, followed by the scan of the rest. */
  ghost predicate ScanGoesOn(all: Scanned, kept: seq<Entry>, begun: seq<Entry>, rest: Scanned)
  {
    all == Scanned(rest.ran, kept + rest.deferred, begun + rest.started, rest.ok)
  }

  lemma ScanNext(table: Table, installed: set<Chunk>, ran: seq<Id>, queue: seq<Entry>, all: Scanned, kept: seq<Entry>,
                 begun: seq<Entry>)
    requires queue != [] && ScanGoesOn(all, kept, begun, Scan(table, installed, ran, queue))
    ensures var r := Require(table, ran, queue[0].main);
      if !Ready(queue[0], installed) then
        ScanGoesOn(all, kept + [queue[0]], begun, Scan(table, installed, ran, queue[1..]))
      else if r.ok then ScanGoesOn(all, kept, begun + [queue[0]], Scan(table, installed, r.ran, queue[1..]))
      else all == Scanned(r.ran, kept + queue[1..], begun + [queue[0]], false)
  {
    if !Ready(queue[0], installed) {
      Regroup(kept, queue[0], Scan(table, installed, ran, queue[1..]).deferred);
    } else {
      Regroup(begun, queue[0], Scan(table, installed, Require(table, ran, queue[0].main).ran, queue[1..]).started);
    }
  }

  /** `started` lists every entry that was ever required, in that order. */
  datatype State = State(table: Table, installed: set<Chunk>, ran: seq<Id>, deferred: seq<Entry>, started: seq<Entry>)

  /** The runtime's own chunk 0 is installed from the start. */
  const INITIAL := State(map[], {0}, [], [], [])

  /** One `push`: install, merge, queue, scan. */
  function Receive(st: State, p: Push): (r: (State, bool))
  {
    var table, installed := st.table + p.modules, st.installed + Elements(p.chunks);
    var s := Scan(table, installed, st.ran, st.deferred + p.entries);
    (State(table, installed, s.ran, s.deferred, st.started + s.started), s.ok)
  }

  /** The state after all pushes; one that throws does not keep the next from coming. */
  function Run(ps: seq<Push>): State
  {
    if ps == [] then INITIAL else Receive(Run(ps[..|ps| - 1]), ps[|ps| - 1]).0
  }

  predicate AllReturn(ps: seq<Push>)
  {
    ps == [] || (AllReturn(ps[..|ps| - 1]) && Receive(Run(ps[..|ps| - 1]), ps[|ps| - 1]).1)
  }

  /** All entries in order of arrival. */
  function Arrived(ps: seq<Push>): seq<Entry>
  {
    if ps == [] then [] else Arrived(ps[..|ps| - 1]) + ps[|ps| - 1].entries
  }

  function InstalledBy(ps: seq<Push>): set<Chunk>
  {
    if ps == [] then {0} else InstalledBy(ps[..|ps| - 1]) + Elements(ps[|ps| - 1].chunks)
  }

  /** All modules merged; of two with one id, the later counts. */
  function Merged(ps: seq<Push>): Table
  {
    if ps == [] then map[] else Merged(ps[..|ps| - 1]) + ps[|ps| - 1].modules
  }

  class Runtime {
    var modules: Table
    var cache: set<Id>
    var installed: set<Chunk>
    var deferred: seq<Entry>
    ghost var ran: seq<Id>
    ghost var started: seq<Entry>

    ghost predicate Valid()
      reads this
    {
      cache == Elements(ran)
    }

    ghost function Now(): State
      reads this
    {
      State(modules, installed, ran, deferred, started)
    }

    constructor ()
      ensures Valid() && Now() == INITIAL
    {
      modules, cache, installed, deferred, ran, started := map[], {}, {0}, [], [], [];
    }

    method RequireModule(id: Id) returns (ok: bool)
      requires Valid()
      modifies this`cache, this`ran
      ensures Valid() && Outcome(ran, ok) == Require(modules, old(ran), id)
      ensures if id in old(cache) then ok && ran == old(ran) else |ran| > |old(ran)| && ran[|old(ran)|] == id
      decreases |Uncached(modules, ran)|
    {
      if id in cache {
        return true;
      }
      CachedOneMoreIfAny(modules, ran, id);
      cache := cache + {id};
      ran := ran + [id];
      if id !in modules {
        return false;
      }
      var needs := modules[id].needs;
      ghost var before := ran;
      for i := 0 to |needs|
        invariant Valid() && before <= ran
        invariant RequireAll(modules, before, needs) == RequireAll(modules, ran, needs[i..])
      {
        CachedMore(modules, before, ran);
        assert needs[i..][0] == needs[i] && needs[i..][1..] == needs[i + 1..];
        var returned := RequireModule(needs[i]);
        if !returned {
          return false;
        }
      }
      return !modules[id].throws;
    }

    method IsFulfilled(t: Entry) returns (fulfilled: bool)
      ensures fulfilled == Ready(t, installed)
    {
      fulfilled := true;
      for i := 0 to |t.chunks|
        invariant fulfilled <==> forall k | 0 <= k < i :: t.chunks[k] in installed
      {
        if t.chunks[i] !in installed {
          fulfilled := false;
        }
      }
    }

    /** One entry leaves the queue and is required. */
    method StartDeferred(r: nat) returns (ok: bool)
      requires Valid() && r < |deferred|
      modifies this`cache, this`ran, this`deferred, this`started
      ensures Valid()
      ensures deferred == old(deferred)[..r] + old(deferred)[r + 1..] && started == old(started) + [old(deferred)[r]]
      ensures var a := Require(modules, old(ran), old(deferred)[r].main); ran == a.ran && ok == a.ok
    {
      var t := deferred[r];
      deferred := deferred[..r] + deferred[r + 1..];
      started := started + [t];
      ok := RequireModule(t.main);
    }

    /** One entry of the scan: it is required if its chunks are there. */
    method VisitDeferred(r: nat, ghost all: Scanned, ghost begun: seq<Entry>) returns (fulfilled: bool, returned: bool)
      requires Valid() && r < |deferred|
      requires ScanGoesOn(all, deferred[..r], begun, Scan(modules, installed, ran, deferred[r..]))
      modifies this`cache, this`ran, this`deferred, this`started
      ensures Valid()
      ensures deferred == if fulfilled then old(deferred)[..r] + old(deferred)[r + 1..] else old(deferred)
      ensures started == if fulfilled then old(started) + [old(deferred)[r]] else old(started)
      ensures var next := if fulfilled then r else r + 1;
        var begun' := if fulfilled then begun + [old(deferred)[r]] else begun;
        if returned then ScanGoesOn(all, deferred[..next], begun', Scan(modules, installed, ran, deferred[next..]))
        else fulfilled && all == Scanned(ran, deferred, begun', false)
    {
      var t := deferred[r];
      ghost var queue := deferred[r..];
      assert queue[0] == t && queue[1..] == deferred[r + 1..];
      ScanNext(modules, installed, ran, queue, all, deferred[..r], begun);
      returned := true;
      fulfilled := IsFulfilled(t);
      if fulfilled {
        ghost var kept := deferred[..r];
        returned := StartDeferred(r);
        assert deferred[..r] == kept && deferred[r..] == queue[1..];
      } else {
        assert deferred[..r + 1] == deferred[..r] + [t];
      }
    }

    /** `t`: goes through the deferred entries, and takes out and requires those that are ready. */
    method CheckDeferred() returns (ok: bool)
      requires Valid()
      modifies this`cache, this`ran, this`deferred, this`started
      ensures Valid()
      ensures var s := Scan(modules, installed, old(ran), old(deferred));
        ran == s.ran && deferred == s.deferred && started == old(started) + s.started && ok == s.ok
    {
      var r := 0;
      ghost var begun, all := [], Scan(modules, installed, ran, deferred);
      while r < |deferred|
        invariant Valid() && r <= |deferred| && started == old(started) + begun
        invariant ScanGoesOn(all, deferred[..r], begun, Scan(modules, installed, ran, deferred[r..]))
        decreases |deferred| - r
      {
        ghost var t := deferred[r];
        var fulfilled, returned := VisitDeferred(r, all, begun);
        begun := if fulfilled then begun + [t] else begun;
        if !returned {
          return false;
        }
        r := if fulfilled then r else r + 1;
      }
      assert deferred[r..] == [] && deferred[..r] == deferred;
      ok := true;
    }

    method PushChunks(p: Push) returns (ok: bool)
      requires Valid()
      modifies this
      ensures Valid() && (Now(), ok) == Receive(old(Now()), p)
    {
      for i := 0 to |p.chunks|
        invariant Valid() && Now() == old(Now()).(installed := installed)
        invariant installed == old(installed) + Elements(p.chunks[..i])
      {
        installed := installed + {p.chunks[i]};
        assert Elements(p.chunks[..i + 1]) == Elements(p.chunks[..i]) + {p.chunks[i]};
      }
      assert p.chunks[..|p.chunks|] == p.chunks;
      modules := modules + p.modules;
      deferred := deferred + p.entries;
      ok := CheckDeferred();
    }
  }

  lemma CachedOneMoreIfAny(table: Table, ran: seq<Id>, id: Id)
    requires id !in ran
    ensures id in table ==> |Uncached(table, ran + [id])| < |Uncached(table, ran)|
    ensures Elements(ran + [id]) == Elements(ran) + {id}
  {
    if id in table {
      CachedOneMore(table, ran, id);
    }
  }

  // ---- one scan ----

  /** A scan loses no entry and repeats none: each is either still queued or started, and only ready ones are. */
  lemma {:induction false} ScanKeeps(table: Table, installed: set<Chunk>, ran: seq<Id>, queue: seq<Entry>)
    ensures var s := Scan(table, installed, ran, queue);
      && multiset(s.deferred) + multiset(s.started) == multiset(queue)
      && forall e | e in s.started :: Ready(e, installed)
    decreases |queue|
  {
    if queue != [] {
      assert queue == [queue[0]] + queue[1..];
      if !Ready(queue[0], installed) {
        ScanKeeps(table, installed, ran, queue[1..]);
      } else if Require(table, ran, queue[0].main).ok {
        ScanKeeps(table, installed, Require(table, ran, queue[0].main).ran, queue[1..]);
      }
    }
  }

  /** A scan that returns leaves exactly the entries that miss a chunk, in order, and has started the others. */
  lemma {:induction false} ScanSplits(table: Table, installed: set<Chunk>, ran: seq<Id>, queue: seq<Entry>)
    ensures var s := Scan(table, installed, ran, queue);
      s.ok ==> s.deferred == Waiting(queue, installed) && s.started == ReadyOnes(queue, installed)
    decreases |queue|
  {
    if queue != [] {
      if !Ready(queue[0], installed) {
        ScanSplits(table, installed, ran, queue[1..]);
      } else if Require(table, ran, queue[0].main).ok {
        ScanSplits(table, installed, Require(table, ran, queue[0].main).ran, queue[1..]);
      }
    }
  }

  /** A scan that throws has gone as far as the entry that threw: of those before it the ready ones are started and the
      others left, it is started itself, and all after it are left. */
  lemma {:induction false} ScanStops(table: Table, installed: set<Chunk>, ran: seq<Id>, queue: seq<Entry>)
    requires !Scan(table, installed, ran, queue).ok
    ensures var s := Scan(table, installed, ran, queue);
      exists k :: 0 <= k < |queue| && Ready(queue[k], installed)
        && s.deferred == Waiting(queue[..k], installed) + queue[k + 1..]
        && s.started == ReadyOnes(queue[..k], installed) + [queue[k]]
    decreases |queue|
  {
    var s := Scan(table, installed, ran, queue);
    var ready := Ready(queue[0], installed);
    var r := Require(table, ran, queue[0].main);
    if ready && !r.ok {
      assert s.deferred == Waiting(queue[..0], installed) + queue[1..];
      assert s.started == ReadyOnes(queue[..0], installed) + [queue[0]];
    } else {
      var next := if ready then r.ran else ran;
      ScanStops(table, installed, next, queue[1..]);
      var q := Scan(table, installed, next, queue[1..]);
      var k :| 0 <= k < |queue[1..]| && Ready(queue[1..][k], installed)
        && q.deferred == Waiting(queue[1..][..k], installed) + queue[1..][k + 1..]
        && q.started == ReadyOnes(queue[1..][..k], installed) + [queue[1..][k]];
      StopsLater(queue, installed, k, s, q);
    }
  }

  lemma StopsLater(queue: seq<Entry>, installed: set<Chunk>, k: nat, s: Scanned, q: Scanned)
    requires k + 1 < |queue|
    requires q.deferred == Waiting(queue[1..][..k], installed) + queue[1..][k + 1..]
    requires q.started == ReadyOnes(queue[1..][..k], installed) + [queue[1..][k]]
    requires if Ready(queue[0], installed) then s.deferred == q.deferred && s.started == [queue[0]] + q.started
             else s.deferred == [queue[0]] + q.deferred && s.started == q.started
    ensures s.deferred == Waiting(queue[..k + 1], installed) + queue[k + 2..]
    ensures s.started == ReadyOnes(queue[..k + 1], installed) + [queue[k + 1]]
  {
    var front := queue[..k + 1];
    assert front[0] == queue[0] && front[1..] == queue[1..][..k] && queue[1..][k + 1..] == queue[k + 2..];
  }

  function Mains(entries: seq<Entry>): (ids: seq<Id>)
    ensures |ids| == |entries| && forall k | 0 <= k < |ids| :: ids[k] == entries[k].main
  {
    seq(|entries|, k requires 0 <= k < |entries| => entries[k].main)
  }

  /** What a scan caches is what requiring the entries that it starts caches, one after the other, and it returns if
      that does. */
  lemma {:induction false} ScanRequires(table: Table, installed: set<Chunk>, ran: seq<Id>, queue: seq<Entry>)
    ensures var s := Scan(table, installed, ran, queue);
      RequireAll(table, ran, Mains(s.started)) == Outcome(s.ran, s.ok)
    decreases |queue|
  {
    if queue != [] {
      var s := Scan(table, installed, ran, queue);
      if !Ready(queue[0], installed) {
        ScanRequires(table, installed, ran, queue[1..]);
      } else {
        var r := Require(table, ran, queue[0].main);
        assert Mains(s.started)[0] == queue[0].main;
        assert Mains(s.started)[1..] == Mains(s.started[1..]);
        if r.ok {
          ScanRequires(table, installed, r.ran, queue[1..]);
          assert s.started[1..] == Scan(table, installed, r.ran, queue[1..]).started;
        }
      }
    }
  }

  /** Of two entries that a scan starts, the main module of the later one is cached only after that of the earlier one,
      unless it was cached already or the entries up to the earlier one reach it. */
  lemma ScanInOrder(table: Table, installed: set<Chunk>, ran: seq<Id>, queue: seq<Entry>, i: nat, j: nat, s: set<Id>)
    requires var q := Scan(table, installed, ran, queue).started;
      i < j < |q| && q[j].main !in ran && q[j].main !in s && (forall k | 0 <= k <= i :: q[k].main in s)
    requires NeedsInside(table, s)
    ensures var r := Scan(table, installed, ran, queue);
      r.started[j].main in r.ran ==> Precedes(r.ran, r.started[i].main, r.started[j].main)
  {
    ScanRequires(table, installed, ran, queue);
    AllInOrder(table, ran, Mains(Scan(table, installed, ran, queue).started), i, j, s);
  }

  lemma {:induction false} ScanOnce(table: Table, installed: set<Chunk>, ran: seq<Id>, queue: seq<Entry>)
    requires Distinct(ran)
    ensures Distinct(Scan(table, installed, ran, queue).ran)
    decreases |queue|
  {
    if queue != [] {
      if !Ready(queue[0], installed) {
        ScanOnce(table, installed, ran, queue[1..]);
      } else {
        RequireOnce(table, ran, queue[0].main);
        if Require(table, ran, queue[0].main).ok {
          ScanOnce(table, installed, Require(table, ran, queue[0].main).ran, queue[1..]);
        }
      }
    }
  }

  /** A scan that returns keeps the cache closed and has cached what it started. */
  lemma {:induction false} ScanAdds(table: Table, installed: set<Chunk>, ran: seq<Id>, queue: seq<Entry>)
    requires Closed(table, Elements(ran))
    ensures var s := Scan(table, installed, ran, queue);
      s.ok ==> Closed(table, Elements(s.ran)) && forall e | e in s.started :: e.main in s.ran
    decreases |queue|
  {
    if queue != [] {
      if !Ready(queue[0], installed) {
        ScanAdds(table, installed, ran, queue[1..]);
      } else {
        var r := Require(table, ran, queue[0].main);
        RequireReturns(table, ran, queue[0].main);
        RequireAdds(table, ran, queue[0].main);
        if r.ok {
          ScanAdds(table, installed, r.ran, queue[1..]);
        }
      }
    }
  }

  /** A scan stays inside any set that holds what it starts and what that needs. */
  lemma {:induction false} ScanStays(table: Table, installed: set<Chunk>, ran: seq<Id>, queue: seq<Entry>, s: set<Id>)
    requires NeedsInside(table, s)
    requires forall e | e in Scan(table, installed, ran, queue).started :: e.main in s
    ensures forall x | x in Scan(table, installed, ran, queue).ran :: x in ran || x in s
    decreases |queue|
  {
    if queue != [] {
      if !Ready(queue[0], installed) {
        ScanStays(table, installed, ran, queue[1..], s);
      } else {
        var r := Require(table, ran, queue[0].main);
        assert queue[0] in Scan(table, installed, ran, queue).started;
        RequireStays(table, ran, queue[0].main, s);
        if r.ok {
          ScanStays(table, installed, r.ran, queue[1..], s);
        }
      }
    }
  }

  /** An entry can be run: all that it can reach has a factory that does not throw. */
  ghost predicate Runnable(table: Table, e: Entry)
  {
    exists s :: Closed(table, s) && e.main in s
  }

  lemma {:induction false} ScanReturns(table: Table, installed: set<Chunk>, ran: seq<Id>, queue: seq<Entry>)
    requires forall e | e in queue && Ready(e, installed) :: Runnable(table, e)
    ensures Scan(table, installed, ran, queue).ok
    decreases |queue|
  {
    if queue != [] {
      if !Ready(queue[0], installed) {
        ScanReturns(table, installed, ran, queue[1..]);
      } else {
        var s :| Closed(table, s) && queue[0].main in s;
        ClosedNeedsInside(table, s);
        RequireStays(table, ran, queue[0].main, s);
        ScanReturns(table, installed, Require(table, ran, queue[0].main).ran, queue[1..]);
      }
    }
  }

  // ---- whole runs ----

  lemma ReadyLater(e: Entry, installed: set<Chunk>, more: set<Chunk>)
    requires Ready(e, installed) && installed <= more
    ensures Ready(e, more)
  {}

  lemma Balanced<T>(left: multiset<T>, begun: multiset<T>, queued: multiset<T>, added: multiset<T>,
                    started: multiset<T>, arrived: multiset<T>)
    requires left + begun == queued + added && queued + started == arrived
    ensures left + (started + begun) == arrived + added
  {
    assert left + (started + begun) == (left + begun) + started;
    assert (queued + added) + started == (queued + started) + added;
  }

  /** Over every run, whatever throws: no factory runs twice; each entry that arrived is still queued or was
      started, and never both; none was started before all its chunks were there. */
  lemma {:induction false} RunKeeps(ps: seq<Push>)
    ensures var st := Run(ps);
      && st.table == Merged(ps) && st.installed == InstalledBy(ps)
      && Distinct(st.ran)
      && multiset(st.deferred) + multiset(st.started) == multiset(Arrived(ps))
      && forall e | e in st.started :: Ready(e, st.installed)
  {
    if ps != [] {
      var p, st := ps[|ps| - 1], Run(ps[..|ps| - 1]);
      RunKeeps(ps[..|ps| - 1]);
      var table, installed := st.table + p.modules, st.installed + Elements(p.chunks);
      ScanOnce(table, installed, st.ran, st.deferred + p.entries);
      ScanKeeps(table, installed, st.ran, st.deferred + p.entries);
      forall e | e in st.started ensures Ready(e, installed) {
        ReadyLater(e, st.installed, installed);
      }
      var s := Scan(table, installed, st.ran, st.deferred + p.entries);
      Balanced(multiset(s.deferred), multiset(s.started), multiset(st.deferred), multiset(p.entries),
               multiset(st.started), multiset(Arrived(ps[..|ps| - 1])));
    }
  }

  /** The table holds for each id the factory that came last. */
  lemma {:induction false} LastMerged(ps: seq<Push>, k: nat, id: Id)
    requires k < |ps| && id in ps[k].modules && forall l | k < l < |ps| :: id !in ps[l].modules
    ensures id in Run(ps).table && Run(ps).table[id] == ps[k].modules[id]
  {
    var n := |ps| - 1;
    if k < n {
      LastMerged(ps[..n], k, id);
    }
  }

  lemma {:induction false} WaitingConcat(a: seq<Entry>, b: seq<Entry>, installed: set<Chunk>)
    ensures Waiting(a + b, installed) == Waiting(a, installed) + Waiting(b, installed)
    decreases |a|
  {
    if a == [] {
      assert a + b == b;
    } else {
      WaitingConcat(a[1..], b, installed);
      assert (a + b)[1..] == a[1..] + b && (a + b)[0] == a[0];
      Associative(if Ready(a[0], installed) then [] else [a[0]], Waiting(a[1..], installed), Waiting(b, installed));
    }
  }

  lemma {:induction false} WaitingLater(queue: seq<Entry>, installed: set<Chunk>, more: set<Chunk>)
    requires installed <= more
    ensures Waiting(Waiting(queue, installed), more) == Waiting(queue, more)
    decreases |queue|
  {
    if queue != [] {
      WaitingLater(queue[1..], installed, more);
      var rest := Waiting(queue[1..], installed);
      assert [] + rest == rest && [] + Waiting(queue[1..], more) == Waiting(queue[1..], more);
      if Ready(queue[0], installed) {
        ReadyLater(queue[0], installed, more);
      } else {
        assert ([queue[0]] + rest)[1..] == rest;
      }
    }
  }

  /** After every push of a run without exceptions, the queue holds exactly the entries that still miss a chunk,
      in order of arrival. */
  lemma {:induction false} QueueIsWaiting(ps: seq<Push>)
    requires AllReturn(ps)
    ensures Run(ps).deferred == Waiting(Arrived(ps), InstalledBy(ps))
  {
    if ps != [] {
      var p, st := ps[|ps| - 1], Run(ps[..|ps| - 1]);
      QueueIsWaiting(ps[..|ps| - 1]);
      RunKeeps(ps[..|ps| - 1]);
      ScanSplits(st.table + p.modules, InstalledBy(ps), st.ran, st.deferred + p.entries);
      WaitingConcat(st.deferred, p.entries, InstalledBy(ps));
      WaitingLater(Arrived(ps[..|ps| - 1]), st.installed, InstalledBy(ps));
      WaitingConcat(Arrived(ps[..|ps| - 1]), p.entries, InstalledBy(ps));
    }
  }

  // ---- any order of arrival ----

  /** No two pushes bring different factories under one id. */
  ghost predicate Consistent(ps: seq<Push>)
  {
    forall p, q, id | p in ps && q in ps && id in p.modules && id in q.modules :: p.modules[id] == q.modules[id]
  }

  /** Only one push brings a chunk, and none brings chunk 0, which is there from the start. */
  ghost predicate DistinctChunks(ps: seq<Push>)
  {
    && (forall p, q, c | p in ps && q in ps && c in p.chunks && c in q.chunks :: p == q)
    && (forall p | p in ps :: 0 !in p.chunks)
  }

  /** `q` comes with `p`, or with a chunk that `e` waits for. */
  ghost predicate Supplies(q: Push, p: Push, e: Entry)
  {
    q == p || exists c :: c in q.chunks && c in e.chunks
  }

  /** All that the entry `e` of `p` can reach comes with `p` or with the chunks `e` waits for, and does not throw. */
  ghost predicate SelfContained(ps: seq<Push>, p: Push, e: Entry, s: set<Id>)
  {
    && e.main in s
    && forall id | id in s :: exists q :: q in ps && Supplies(q, p, e) && Sound(q.modules, id, s)
  }

  /** Pushes as the bundler writes them. */
  ghost predicate WellBuilt(ps: seq<Push>)
  {
    && Consistent(ps) && DistinctChunks(ps)
    && forall p, e | p in ps && e in p.entries :: exists s :: SelfContained(ps, p, e, s)
  }

  lemma {:induction false} MergedHas(ps: seq<Push>, p: Push, id: Id)
    requires Consistent(ps) && p in ps && id in p.modules
    ensures id in Merged(ps) && Merged(ps)[id] == p.modules[id]
  {
    var n := |ps| - 1;
    if id !in ps[n].modules {
      MergedHas(ps[..n], p, id);
    }
  }

  lemma {:induction false} MergedFrom(ps: seq<Push>, id: Id)
    requires id in Merged(ps)
    ensures exists p :: p in ps && id in p.modules
  {
    var n := |ps| - 1;
    if id in ps[n].modules {
      assert ps[n] in ps;
    } else {
      MergedFrom(ps[..n], id);
      var p :| p in ps[..n] && id in p.modules;
    }
  }

  lemma {:induction false} InstalledFrom(ps: seq<Push>, c: Chunk)
    requires c in InstalledBy(ps) && c != 0
    ensures exists p :: p in ps && c in p.chunks
  {
    var n := |ps| - 1;
    if c in ps[n].chunks {
      assert ps[n] in ps;
    } else {
      InstalledFrom(ps[..n], c);
      var p :| p in ps[..n] && c in p.chunks;
    }
  }

  lemma {:induction false} InstalledHas(ps: seq<Push>, p: Push, c: Chunk)
    requires p in ps && c in p.chunks
    ensures c in InstalledBy(ps)
  {
    var n := |ps| - 1;
    if c !in ps[n].chunks {
      InstalledHas(ps[..n], p, c);
    }
  }

  lemma {:induction false} ArrivedFrom(ps: seq<Push>, e: Entry)
    requires e in Arrived(ps)
    ensures exists p :: p in ps && e in p.entries
  {
    var n := |ps| - 1;
    if e in ps[n].entries {
      assert ps[n] in ps;
    } else {
      ArrivedFrom(ps[..n], e);
      var p :| p in ps[..n] && e in p.entries;
    }
  }

  /** Once an entry's chunks are installed, all that it can reach is there. */
  lemma ReadyIsRunnable(ps: seq<Push>, k: nat, e: Entry)
    requires WellBuilt(ps) && k <= |ps|
    requires e in Arrived(ps[..k]) && Ready(e, InstalledBy(ps[..k]))
    ensures Runnable(Merged(ps[..k]), e)
  {
    ArrivedFrom(ps[..k], e);
    var p :| p in ps[..k] && e in p.entries;
    assert p in ps;
    ConsistentPrefix(ps, k);
    var s :| SelfContained(ps, p, e, s);
    forall id | id in s ensures Sound(Merged(ps[..k]), id, s) {
      var q :| q in ps && Supplies(q, p, e) && Sound(q.modules, id, s);
      if q != p {
        var c :| c in q.chunks && c in e.chunks;
        assert c in InstalledBy(ps[..k]);
        InstalledFrom(ps[..k], c);
        var o :| o in ps[..k] && c in o.chunks;
        assert o in ps;
      }
      assert q in ps[..k];
      MergedHas(ps[..k], q, id);
    }
    assert Closed(Merged(ps[..k]), s);
  }

  /** One more push of a well-built run. */
  lemma WellBuiltStep(ps: seq<Push>, k: nat)
    requires WellBuilt(ps) && 0 < k <= |ps|
    requires AllReturn(ps[..k - 1]) && Closed(Merged(ps[..k - 1]), Elements(Run(ps[..k - 1]).ran))
    ensures var st := Run(ps[..k - 1]);
      var s := Scan(Merged(ps[..k]), InstalledBy(ps[..k]), st.ran, st.deferred + ps[k - 1].entries);
      s.ok && Closed(Merged(ps[..k]), Elements(s.ran)) && forall e | e in s.started :: e.main in s.ran
  {
    var qs := ps[..k];
    assert qs[..k - 1] == ps[..k - 1];
    var st, p := Run(qs[..k - 1]), qs[k - 1];
    var queue := st.deferred + p.entries;
    QueueRunnable(ps, k);
    ScanReturns(Merged(qs), InstalledBy(qs), st.ran, queue);
    ConsistentPrefix(ps, k);
    ClosedInMore(qs, k - 1, Elements(st.ran));
    ScanAdds(Merged(qs), InstalledBy(qs), st.ran, queue);
  }

  lemma QueueRunnable(ps: seq<Push>, k: nat)
    requires WellBuilt(ps) && 0 < k <= |ps| && AllReturn(ps[..k - 1])
    ensures forall e | e in Run(ps[..k - 1]).deferred + ps[k - 1].entries && Ready(e, InstalledBy(ps[..k])) ::
      Runnable(Merged(ps[..k]), e)
  {
    QueueArrived(ps, k);
    forall e | e in Run(ps[..k - 1]).deferred + ps[k - 1].entries && Ready(e, InstalledBy(ps[..k]))
      ensures Runnable(Merged(ps[..k]), e)
    {
      ReadyIsRunnable(ps, k, e);
    }
  }

  lemma QueueArrived(ps: seq<Push>, k: nat)
    requires 0 < k <= |ps|
    ensures forall e | e in Run(ps[..k - 1]).deferred + ps[k - 1].entries :: e in Arrived(ps[..k])
  {
    var qs := ps[..k];
    assert qs[..k - 1] == ps[..k - 1];
    var st := Run(ps[..k - 1]);
    RunKeeps(ps[..k - 1]);
    forall e | e in st.deferred ensures e in Arrived(qs) {
      assert e in multiset(st.deferred) + multiset(st.started);
      assert e in multiset(Arrived(qs[..k - 1]));
    }
  }

  lemma ConsistentPrefix(ps: seq<Push>, k: nat)
    requires Consistent(ps) && k <= |ps|
    ensures Consistent(ps[..k])
  {}

  /** In every order, no push throws and the cache is closed after each. */
  lemma {:induction false} WellBuiltReturns(ps: seq<Push>, k: nat)
    requires WellBuilt(ps) && k <= |ps|
    ensures AllReturn(ps[..k])
    ensures Closed(Merged(ps[..k]), Elements(Run(ps[..k]).ran))
    ensures forall e | e in Run(ps[..k]).started :: e.main in Run(ps[..k]).ran
    decreases k
  {
    if k == 0 {
      assert ps[..0] == [];
    } else {
      WellBuiltReturns(ps, k - 1);
      WellBuiltStep(ps, k);
      assert ps[..k][..k - 1] == ps[..k - 1];
      RunKeeps(ps[..k - 1]);
    }
  }

  lemma ClosedInMore(ps: seq<Push>, k: nat, s: set<Id>)
    requires Consistent(ps) && k <= |ps| && Closed(Merged(ps[..k]), s)
    ensures Closed(Merged(ps), s)
  {
    forall id | id in s ensures Sound(Merged(ps), id, s) {
      assert Sound(Merged(ps[..k]), id, s);
      MergedSame(ps, k, id);
    }
  }

  lemma MergedSame(ps: seq<Push>, k: nat, id: Id)
    requires Consistent(ps) && k <= |ps| && id in Merged(ps[..k])
    ensures id in Merged(ps) && Merged(ps)[id] == Merged(ps[..k])[id]
  {
    MergedFrom(ps[..k], id);
    var p :| p in ps[..k] && id in p.modules;
    MergedHas(ps[..k], p, id);
    MergedHas(ps, p, id);
  }

  /** Nothing is cached but what the started entries reach. */
  lemma {:induction false} RunStays(ps: seq<Push>, k: nat, s: set<Id>)
    requires Consistent(ps) && k <= |ps| && NeedsInside(Merged(ps), s)
    requires forall e | e in Run(ps[..k]).started :: e.main in s
    ensures forall x | x in Run(ps[..k]).ran :: x in s
    decreases k
  {
    if k > 0 {
      var qs := ps[..k];
      assert qs[..k - 1] == ps[..k - 1];
      var st, p := Run(qs[..k - 1]), qs[k - 1];
      RunStays(ps, k - 1, s);
      RunKeeps(qs[..k - 1]);
      forall id, d | id in s && id in Merged(qs) && d in Merged(qs)[id].needs ensures d in s {
        MergedSame(ps, k, id);
      }
      ScanStays(Merged(qs), InstalledBy(qs), st.ran, st.deferred + p.entries, s);
    }
  }

  lemma {:induction false} ArrivedConcat(a: seq<Push>, b: seq<Push>)
    ensures Arrived(a + b) == Arrived(a) + Arrived(b)
    decreases |b|
  {
    if b == [] {
      assert a + b == a;
    } else {
      var n := |b| - 1;
      var ab := a + b;
      ArrivedConcat(a, b[..n]);
      assert ab[..|a| + n] == a + b[..n] && ab[|a| + n] == b[n];
      assert Arrived(ab) == Arrived(a + b[..n]) + b[n].entries;
    }
  }

  lemma MiddleOut<T>(a: seq<T>, x: seq<T>, b: seq<T>)
    ensures multiset(a + x + b) == multiset(x) + multiset(a + b)
  {
    assert multiset(a + x + b) == multiset(a) + multiset(x) + multiset(b);
    assert multiset(a + b) == multiset(a) + multiset(b);
  }

  lemma PushTakenOut(a: seq<Push>, p: Push, b: seq<Push>)
    ensures multiset(Arrived(a + [p] + b)) == multiset(p.entries) + multiset(Arrived(a + b))
  {
    ArrivedConcat(a, b);
    ArrivedConcat(a + [p], b);
    assert (a + [p])[..|a|] == a;
    MiddleOut(Arrived(a), p.entries, Arrived(b));
  }

  lemma {:induction false} ArrivedPermuted(ps: seq<Push>, qs: seq<Push>)
    requires multiset(ps) == multiset(qs)
    ensures multiset(Arrived(ps)) == multiset(Arrived(qs))
    decreases |ps|
  {
    if ps == [] {
      assert |qs| == |multiset(qs)| == 0;
    } else {
      var n := |ps| - 1;
      var p, rest := ps[n], ps[..n];
      assert ps == rest + [p];
      assert p in multiset(qs);
      var i :| 0 <= i < |qs| && qs[i] == p;
      var a, b := qs[..i], qs[i + 1..];
      assert qs == a + [p] + b;
      MiddleOut(a, [p], b);
      assert multiset(rest + [p]) == multiset([p]) + multiset(rest);
      OthersEqual(multiset([p]), multiset(rest), multiset([p]), multiset(a + b));
      PushTakenOut(a, p, b);
      ArrivedPermuted(rest, a + b);
    }
  }

  lemma {:induction false} WaitingCount(queue: seq<Entry>, installed: set<Chunk>, e: Entry)
    ensures multiset(Waiting(queue, installed))[e] == if Ready(e, installed) then 0 else multiset(queue)[e]
    decreases |queue|
  {
    if queue != [] {
      WaitingCount(queue[1..], installed, e);
      assert queue == [queue[0]] + queue[1..];
    }
  }

  lemma SameMembers(ps: seq<Push>, qs: seq<Push>)
    requires multiset(ps) == multiset(qs)
    ensures forall p :: p in ps <==> p in qs
  {
    assert forall p :: p in ps <==> p in multiset(ps);
  }

  lemma WellBuiltPermuted(ps: seq<Push>, qs: seq<Push>)
    requires WellBuilt(ps) && forall p :: p in ps <==> p in qs
    ensures WellBuilt(qs)
  {
    forall p, e | p in qs && e in p.entries ensures exists s :: SelfContained(qs, p, e, s) {
      var s :| SelfContained(ps, p, e, s);
      assert SelfContained(qs, p, e, s);
    }
  }

  lemma SameTable(ps: seq<Push>, qs: seq<Push>)
    requires Consistent(ps) && Consistent(qs) && forall p :: p in ps <==> p in qs
    ensures Merged(ps) == Merged(qs)
  {
    forall id ensures id in Merged(ps) <==> id in Merged(qs)
              ensures id in Merged(ps) ==> Merged(ps)[id] == Merged(qs)[id] {
      if id in Merged(ps) {
        MergedFrom(ps, id);
        var p :| p in ps && id in p.modules;
        MergedHas(ps, p, id);
        MergedHas(qs, p, id);
      } else if id in Merged(qs) {
        MergedFrom(qs, id);
        var p :| p in qs && id in p.modules;
        MergedHas(ps, p, id);
      }
    }
  }

  lemma SameInstalled(ps: seq<Push>, qs: seq<Push>)
    requires forall p :: p in ps <==> p in qs
    ensures InstalledBy(ps) <= InstalledBy(qs)
  {
    forall c | c in InstalledBy(ps) ensures c in InstalledBy(qs) {
      if c == 0 {
        ZeroInstalled(qs);
      } else {
        InstalledFrom(ps, c);
        var p :| p in ps && c in p.chunks;
        InstalledHas(qs, p, c);
      }
    }
  }

  lemma {:induction false} ZeroInstalled(ps: seq<Push>)
    ensures 0 in InstalledBy(ps)
  {
    if ps != [] {
      ZeroInstalled(ps[..|ps| - 1]);
    }
  }

  /** What was run is inside what another run of the same table ran, if that started all the same entries. */
  lemma RanInside(ps: seq<Push>, qs: seq<Push>)
    requires WellBuilt(ps) && WellBuilt(qs) && Merged(ps) == Merged(qs)
    requires multiset(Run(ps).started) <= multiset(Run(qs).started)
    ensures Elements(Run(ps).ran) <= Elements(Run(qs).ran)
  {
    var s := Elements(Run(qs).ran);
    assert qs[..|qs|] == qs && ps[..|ps|] == ps;
    WellBuiltReturns(qs, |qs|);
    ClosedNeedsInside(Merged(qs), s);
    forall e | e in Run(ps).started ensures e.main in s {
      assert e in multiset(Run(ps).started);
      assert e in Run(qs).started;
    }
    RunStays(ps, |ps|, s);
  }

  lemma OthersEqual<T>(a: multiset<T>, b: multiset<T>, c: multiset<T>, d: multiset<T>)
    requires a + b == c + d && a == c
    ensures b == d
  {
    assert b == (a + b) - a && d == (c + d) - c;
  }

  lemma DeferredPermuted(ps: seq<Push>, qs: seq<Push>)
    requires AllReturn(ps) && AllReturn(qs)
    requires multiset(Arrived(ps)) == multiset(Arrived(qs)) && InstalledBy(ps) == InstalledBy(qs)
    ensures multiset(Run(ps).deferred) == multiset(Run(qs).deferred)
    ensures multiset(Run(ps).started) == multiset(Run(qs).started)
  {
    QueueIsWaiting(ps);
    QueueIsWaiting(qs);
    forall e ensures multiset(Run(ps).deferred)[e] == multiset(Run(qs).deferred)[e] {
      WaitingCount(Arrived(ps), InstalledBy(ps), e);
      WaitingCount(Arrived(qs), InstalledBy(qs), e);
    }
    RunKeeps(ps);
    RunKeeps(qs);
    OthersEqual(multiset(Run(ps).deferred), multiset(Run(ps).started), multiset(Run(qs).deferred),
                multiset(Run(qs).started));
  }

  /** Well-built chunks may arrive in any order: no push throws, and in the end the same modules have run, the
      same entries were started and the same still wait. */
  lemma OrderIndependent(ps: seq<Push>, qs: seq<Push>)
    requires WellBuilt(ps) && multiset(ps) == multiset(qs)
    ensures AllReturn(ps) && AllReturn(qs)
    ensures Elements(Run(ps).ran) == Elements(Run(qs).ran)
    ensures multiset(Run(ps).deferred) == multiset(Run(qs).deferred)
    ensures multiset(Run(ps).started) == multiset(Run(qs).started)
  {
    SameMembers(ps, qs);
    WellBuiltPermuted(ps, qs);
    SameTable(ps, qs);
    SameInstalled(ps, qs);
    SameInstalled(qs, ps);
    ArrivedPermuted(ps, qs);
    assert qs[..|qs|] == qs && ps[..|ps|] == ps;
    WellBuiltReturns(ps, |ps|);
    WellBuiltReturns(qs, |qs|);
    DeferredPermuted(ps, qs);
    RanInside(ps, qs);
    RanInside(qs, ps);
  }

  /** What has run in the end is the least set that holds the started entries and all their needs. */
  lemma RanIsLeast(ps: seq<Push>, s: set<Id>)
    requires WellBuilt(ps) && NeedsInside(Merged(ps), s)
    requires forall e | e in Run(ps).started :: e.main in s
    ensures Elements(Run(ps).ran) <= s
    ensures Closed(Merged(ps), Elements(Run(ps).ran))
    ensures forall e | e in Run(ps).started :: e.main in Elements(Run(ps).ran)
  {
    assert ps[..|ps|] == ps;
    WellBuiltReturns(ps, |ps|);
    RunStays(ps, |ps|, s);
  }
}
