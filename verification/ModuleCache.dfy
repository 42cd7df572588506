/** Requiring modules: the cache, and what a factory is asked to do (function `f` of the webpack runtime). */
module ModuleCache {
  import opened Sequences

  type Id = string

  /** A factory requires modules in order, and returns or throws after that. */
  datatype Factory = Factory(needs: seq<Id>, throws: bool)

  type Table = map<Id, Factory>

  function Elements<T>(s: seq<T>): set<T>
  {
    set x | x in s
  }

  /** The modules put in the cache, oldest first, and whether the call returned. */
  datatype Outcome = Outcome(ran: seq<Id>, ok: bool)

  function Uncached(table: Table, ran: seq<Id>): set<Id>
  {
    table.Keys - Elements(ran)
  }

  lemma CachedOneMore(table: Table, ran: seq<Id>, id: Id)
    requires id in table && id !in ran
    ensures |Uncached(table, ran + [id])| < |Uncached(table, ran)|
  {
    assert Uncached(table, ran + [id]) == Uncached(table, ran) - {id};
  }

  lemma CachedMore(table: Table, ran: seq<Id>, more: seq<Id>)
    requires ran <= more
    ensures |Uncached(table, more)| <= |Uncached(table, ran)|
  {
    assert Uncached(table, more) <= Uncached(table, ran);
    Smaller(Uncached(table, more), Uncached(table, ran));
  }

  lemma Smaller<T>(a: set<T>, b: set<T>)
    requires a <= b
    ensures |a| <= |b|
  {
    assert b == a + (b - a);
  }

  /** `f(id)`: a cached module is not run again; a new one is cached before its factory runs, also when there is
      no factory to run, which throws. */
  function Require(table: Table, ran: seq<Id>, id: Id): (r: Outcome)
    ensures ran <= r.ran
    decreases |Uncached(table, ran)|, 0, 1
  {
    if id in ran then Outcome(ran, true)
    else if id !in table then Outcome(ran + [id], false)
    else
      CachedOneMore(table, ran, id);
      var r := RequireAll(table, ran + [id], table[id].needs);
      Outcome(r.ran, r.ok && !table[id].throws)
  }

  function RequireAll(table: Table, ran: seq<Id>, ids: seq<Id>): (r: Outcome)
    ensures ran <= r.ran
    decreases |Uncached(table, ran)|, |ids|, 0
  {
    if ids == [] then Outcome(ran, true)
    else
      var r := Require(table, ran, ids[0]);
      CachedMore(table, ran, r.ran);
      if r.ok then RequireAll(table, r.ran, ids[1..]) else r
  }

  /** No factory runs twice, whatever the module graph, whatever throws. */
  lemma {:induction false} RequireOnce(table: Table, ran: seq<Id>, id: Id)
    requires Distinct(ran)
    ensures Distinct(Require(table, ran, id).ran)
    decreases |Uncached(table, ran)|, 0, 1
  {
    if id !in ran && id in table {
      CachedOneMore(table, ran, id);
      RequireAllOnce(table, ran + [id], table[id].needs);
    }
  }

  lemma {:induction false} RequireAllOnce(table: Table, ran: seq<Id>, ids: seq<Id>)
    requires Distinct(ran)
    ensures Distinct(RequireAll(table, ran, ids).ran)
    decreases |Uncached(table, ran)|, |ids|, 0
  {
    if ids != [] {
      RequireOnce(table, ran, ids[0]);
      var r := Require(table, ran, ids[0]);
      CachedMore(table, ran, r.ran);
      if r.ok {
        RequireAllOnce(table, r.ran, ids[1..]);
      }
    }
  }

  /** A module whose factory is missing or threw stays cached: requiring it again succeeds and runs nothing. */
  lemma FailureIsForgotten(table: Table, ran: seq<Id>, id: Id)
    ensures var after := Require(table, ran, id).ran;
      id in after && Require(table, after, id) == Outcome(after, true)
  {
    if id !in ran {
      assert (ran + [id])[|ran|] == id;
      assert ran + [id] <= Require(table, ran, id).ran;
    }
  }

  /** A module that runs through once all it needs are there: it has a factory that does not throw and that
      needs only `s`. */
  ghost predicate Sound(table: Table, id: Id, s: set<Id>)
  {
    id in table && !table[id].throws && forall d | d in table[id].needs :: d in s
  }

  ghost predicate Closed(table: Table, s: set<Id>)
  {
    forall id | id in s :: Sound(table, id, s)
  }

  lemma SoundInMore(table: Table, id: Id, s: set<Id>, t: set<Id>)
    requires Sound(table, id, s) && s <= t
    ensures Sound(table, id, t)
  {}

  /** What a call that returned has added. */
  ghost predicate Adds(table: Table, ran: seq<Id>, r: Outcome)
  {
    ran <= r.ran && forall k | |ran| <= k < |r.ran| :: Sound(table, r.ran[k], Elements(r.ran))
  }

  lemma AddsTwice(table: Table, ran: seq<Id>, r: Outcome, q: Outcome)
    requires Adds(table, ran, r) && Adds(table, r.ran, q)
    ensures Adds(table, ran, q)
  {
    forall k | |ran| <= k < |r.ran| ensures Sound(table, q.ran[k], Elements(q.ran)) {
      assert r.ran[k] == q.ran[k];
      SoundInMore(table, r.ran[k], Elements(r.ran), Elements(q.ran));
    }
  }

  /** A call that returns has added only modules all of whose needs are cached too, and the one asked for. */
  lemma {:induction false} RequireAdds(table: Table, ran: seq<Id>, id: Id)
    ensures var r := Require(table, ran, id); r.ok ==> id in r.ran && Adds(table, ran, r)
    decreases |Uncached(table, ran)|, 0, 1
  {
    var r := Require(table, ran, id);
    if id !in ran && id in table && r.ok {
      CachedOneMore(table, ran, id);
      RequireAllAdds(table, ran + [id], table[id].needs);
      assert r.ran[|ran|] == id;
    }
  }

  lemma {:induction false} RequireAllAdds(table: Table, ran: seq<Id>, ids: seq<Id>)
    ensures var r := RequireAll(table, ran, ids); r.ok ==> Adds(table, ran, r) && forall d | d in ids :: d in r.ran
    decreases |Uncached(table, ran)|, |ids|, 0
  {
    if ids != [] {
      RequireAdds(table, ran, ids[0]);
      var r := Require(table, ran, ids[0]);
      CachedMore(table, ran, r.ran);
      if r.ok {
        RequireAllAdds(table, r.ran, ids[1..]);
        var q := RequireAll(table, r.ran, ids[1..]);
        if q.ok {
          AddsTwice(table, ran, r, q);
          forall d | d in ids ensures d in q.ran {
            assert d == ids[0] || d in ids[1..];
          }
        }
      }
    }
  }

  /** What the factories of `s` need is in `s`. */
  ghost predicate NeedsInside(table: Table, s: set<Id>)
  {
    forall id, d | id in s && id in table && d in table[id].needs :: d in s
  }

  lemma ClosedNeedsInside(table: Table, s: set<Id>)
    requires Closed(table, s)
    ensures NeedsInside(table, s)
  {
    forall id, d | id in s && id in table && d in table[id].needs ensures d in s {
      assert Sound(table, id, s);
    }
  }

  /** A call that starts inside such a set stays inside; if the set is closed, it returns. */
  lemma {:induction false} RequireStays(table: Table, ran: seq<Id>, id: Id, s: set<Id>)
    requires NeedsInside(table, s) && id in s
    ensures Closed(table, s) ==> Require(table, ran, id).ok
    ensures forall x | x in Require(table, ran, id).ran :: x in ran || x in s
    decreases |Uncached(table, ran)|, 0, 1
  {
    if id !in ran && id in table {
      CachedOneMore(table, ran, id);
      RequireAllStays(table, ran + [id], table[id].needs, s);
    }
    assert Closed(table, s) ==> Sound(table, id, s);
  }

  lemma {:induction false} RequireAllStays(table: Table, ran: seq<Id>, ids: seq<Id>, s: set<Id>)
    requires NeedsInside(table, s) && forall d | d in ids :: d in s
    ensures Closed(table, s) ==> RequireAll(table, ran, ids).ok
    ensures forall x | x in RequireAll(table, ran, ids).ran :: x in ran || x in s
    decreases |Uncached(table, ran)|, |ids|, 0
  {
    if ids != [] {
      RequireStays(table, ran, ids[0], s);
      var r := Require(table, ran, ids[0]);
      CachedMore(table, ran, r.ran);
      RequireAllStays(table, r.ran, ids[1..], s);
    }
  }

  /** Every module of `s` is in the cache or runs through with what `s` and the cache hold. */
  ghost predicate ClosedBeyond(table: Table, ran: seq<Id>, s: set<Id>)
  {
    forall id | id in s && id !in ran :: Sound(table, id, s + Elements(ran))
  }

  lemma ClosedBeyondMore(table: Table, ran: seq<Id>, more: seq<Id>, s: set<Id>)
    requires ClosedBeyond(table, ran, s) && ran <= more
    ensures ClosedBeyond(table, more, s)
  {
    forall id | id in s && id !in more ensures Sound(table, id, s + Elements(more)) {
      assert Elements(ran) <= Elements(more);
      assert Sound(table, id, s + Elements(ran));
    }
  }

  lemma {:induction false} BeyondReturns(table: Table, ran: seq<Id>, id: Id, s: set<Id>)
    requires ClosedBeyond(table, ran, s) && id in s + Elements(ran)
    ensures Require(table, ran, id).ok
    decreases |Uncached(table, ran)|, 0, 1
  {
    if id !in ran {
      assert Sound(table, id, s + Elements(ran));
      CachedOneMore(table, ran, id);
      ClosedBeyondMore(table, ran, ran + [id], s);
      BeyondAllReturn(table, ran + [id], table[id].needs, s);
    }
  }

  lemma {:induction false} BeyondAllReturn(table: Table, ran: seq<Id>, ids: seq<Id>, s: set<Id>)
    requires ClosedBeyond(table, ran, s) && forall d | d in ids :: d in s + Elements(ran)
    ensures RequireAll(table, ran, ids).ok
    decreases |Uncached(table, ran)|, |ids|, 0
  {
    if ids != [] {
      BeyondReturns(table, ran, ids[0], s);
      var r := Require(table, ran, ids[0]);
      CachedMore(table, ran, r.ran);
      ClosedBeyondMore(table, ran, r.ran, s);
      assert Elements(ran) <= Elements(r.ran);
      forall d | d in ids[1..] ensures d in s + Elements(r.ran) {
        assert d in ids;
      }
      BeyondAllReturn(table, r.ran, ids[1..], s);
    }
  }

  /** Whatever the cache holds, a call returns exactly when all that it can reach outside the cache has a factory that
      does not throw. */
  lemma ReturnsExactly(table: Table, ran: seq<Id>, id: Id)
    ensures Require(table, ran, id).ok <==> exists s :: ClosedBeyond(table, ran, s) && id in s
  {
    var r := Require(table, ran, id);
    if s :| ClosedBeyond(table, ran, s) && id in s {
      BeyondReturns(table, ran, id, s);
    }
    if r.ok {
      RequireAdds(table, ran, id);
      forall x | x in Elements(r.ran) && x !in ran ensures Sound(table, x, Elements(r.ran) + Elements(ran)) {
        var k :| 0 <= k < |r.ran| && r.ran[k] == x;
        SoundInMore(table, x, Elements(r.ran), Elements(r.ran) + Elements(ran));
      }
      assert ClosedBeyond(table, ran, Elements(r.ran)) && id in Elements(r.ran);
    }
  }

  // ---- the order ----

  lemma {:induction false} RequireAllSplit(table: Table, ran: seq<Id>, ids: seq<Id>, k: nat)
    requires k <= |ids|
    ensures var a := RequireAll(table, ran, ids[..k]);
      RequireAll(table, ran, ids) == if a.ok then RequireAll(table, a.ran, ids[k..]) else a
    decreases k
  {
    if k == 0 {
      assert ids[0..] == ids;
    } else {
      var r := Require(table, ran, ids[0]);
      assert ids[..k][0] == ids[0] && ids[..k][1..] == ids[1..][..k - 1] && ids[1..][k - 1..] == ids[k..];
      if r.ok {
        RequireAllSplit(table, r.ran, ids[1..], k - 1);
      }
    }
  }

  /** `x` is in the sequence, and `y` is not before it. */
  ghost predicate Precedes(ran: seq<Id>, x: Id, y: Id)
  {
    exists a :: 0 <= a < |ran| && ran[a] == x && y !in ran[..a + 1]
  }

  lemma PrecedesLater(ran: seq<Id>, more: seq<Id>, x: Id, y: Id)
    requires ran <= more && Precedes(ran, x, y)
    ensures Precedes(more, x, y)
  {
    var a :| 0 <= a < |ran| && ran[a] == x && y !in ran[..a + 1];
    assert more[a] == x && more[..a + 1] == ran[..a + 1];
  }

  lemma FirstComesFirst(ran: seq<Id>, more: seq<Id>, x: Id, y: Id)
    requires ran <= more && x in ran && y !in ran
    ensures Precedes(more, x, y)
  {
    var a :| 0 <= a < |ran| && ran[a] == x;
    assert ran[..a + 1] <= ran;
    assert Precedes(ran, x, y);
    PrecedesLater(ran, more, x, y);
  }

  /** Of two things required, the later one is cached only after the earlier one, unless it was cached already or the
      things up to the earlier one reach it. */
  lemma AllInOrder(table: Table, ran: seq<Id>, ids: seq<Id>, i: nat, j: nat, s: set<Id>)
    requires i < j < |ids| && ids[j] !in ran && ids[j] !in s
    requires NeedsInside(table, s) && forall k | 0 <= k <= i :: ids[k] in s
    ensures var r := RequireAll(table, ran, ids); ids[j] in r.ran ==> Precedes(r.ran, ids[i], ids[j])
  {
    var a := RequireAll(table, ran, ids[..i + 1]);
    RequireAllSplit(table, ran, ids, i + 1);
    RequireAllStays(table, ran, ids[..i + 1], s);
    assert ids[j] !in a.ran;
    if a.ok {
      RequireAllAdds(table, ran, ids[..i + 1]);
      assert ids[..i + 1][i] == ids[i];
      FirstComesFirst(a.ran, RequireAll(table, ran, ids).ran, ids[i], ids[j]);
    }
  }

  /** The module cached at `p` needs two modules, in this order, of which the later one was not cached before and is
      not in `s`, where all is that the needs up to the earlier one reach. */
  ghost predicate Turn(table: Table, ran: seq<Id>, p: nat, i: nat, j: nat, s: set<Id>)
  {
    && p < |ran| && ran[p] in table && i < j < |table[ran[p]].needs|
    && table[ran[p]].needs[j] !in ran[..p + 1] && table[ran[p]].needs[j] !in s
    && NeedsInside(table, s) && forall k | 0 <= k <= i :: table[ran[p]].needs[k] in s
  }

  ghost predicate TakenInTurn(table: Table, ran: seq<Id>, p: nat, i: nat, j: nat)
    requires p < |ran| && ran[p] in table && i < j < |table[ran[p]].needs|
  {
    var needs := table[ran[p]].needs;
    needs[j] in ran ==> Precedes(ran, needs[i], needs[j])
  }

  /** The module asked for is cached first, and then its needs in order: for every module that a call caches, of any
      two of its needs that were not cached before it, the later one is cached only after the earlier one, unless the
      needs up to the earlier one reach it. */
  lemma {:induction false} RequireInOrder(table: Table, ran: seq<Id>, id: Id, p: nat, i: nat, j: nat, s: set<Id>)
    requires |ran| <= p && Turn(table, Require(table, ran, id).ran, p, i, j, s)
    ensures var r := Require(table, ran, id).ran; r[|ran|] == id && TakenInTurn(table, r, p, i, j)
    decreases |Uncached(table, ran)|, 0, 1
  {
    var r := Require(table, ran, id).ran;
    assert id !in ran;
    assert r[..|ran| + 1] == ran + [id];
    if p == |ran| {
      AllInOrder(table, ran + [id], table[id].needs, i, j, s);
    } else {
      CachedOneMore(table, ran, id);
      AllRequiredInOrder(table, ran + [id], table[id].needs, p, i, j, s);
    }
  }

  lemma {:induction false} AllRequiredInOrder(table: Table, ran: seq<Id>, ids: seq<Id>, p: nat, i: nat, j: nat,
                                              s: set<Id>)
    requires |ran| <= p && Turn(table, RequireAll(table, ran, ids).ran, p, i, j, s)
    ensures TakenInTurn(table, RequireAll(table, ran, ids).ran, p, i, j)
    decreases |Uncached(table, ran)|, |ids|, 0
  {
    var all := RequireAll(table, ran, ids).ran;
    var r := Require(table, ran, ids[0]);
    CachedMore(table, ran, r.ran);
    if p < |r.ran| {
      TurnBefore(table, r.ran, all, p, i, j, s);
      RequireInOrder(table, ran, ids[0], p, i, j, s);
      RequireAdds(table, ran, ids[0]);
      if r.ok {
        TakenBefore(table, ran, r, all, p, i, j);
      }
    } else {
      AllRequiredInOrder(table, r.ran, ids[1..], p, i, j, s);
    }
  }

  lemma TurnBefore(table: Table, ran: seq<Id>, more: seq<Id>, p: nat, i: nat, j: nat, s: set<Id>)
    requires ran <= more && p < |ran| && Turn(table, more, p, i, j, s)
    ensures Turn(table, ran, p, i, j, s)
  {
    assert more[p] == ran[p] && more[..p + 1] == ran[..p + 1];
  }

  lemma TakenBefore(table: Table, ran: seq<Id>, r: Outcome, more: seq<Id>, p: nat, i: nat, j: nat)
    requires Adds(table, ran, r) && r.ran <= more && |ran| <= p < |r.ran| && r.ran[p] in table
             && i < j < |table[r.ran[p]].needs|
    requires TakenInTurn(table, r.ran, p, i, j)
    ensures TakenInTurn(table, more, p, i, j)
  {
    var needs := table[r.ran[p]].needs;
    assert Sound(table, r.ran[p], Elements(r.ran));
    assert needs[j] in needs;
    PrecedesLater(r.ran, more, needs[i], needs[j]);
  }

  lemma AllReturnBeyond(table: Table, ran: seq<Id>, ids: seq<Id>, i: nat)
    requires i < |ids| && RequireAll(table, ran, ids).ok
    ensures exists t :: ClosedBeyond(table, ran, t) && ids[i] in t
  {
    var a := RequireAll(table, ran, ids);
    RequireAllAdds(table, ran, ids);
    forall x | x in Elements(a.ran) && x !in ran ensures Sound(table, x, Elements(a.ran) + Elements(ran)) {
      var k :| 0 <= k < |a.ran| && a.ran[k] == x;
      SoundInMore(table, x, Elements(a.ran), Elements(a.ran) + Elements(ran));
    }
    assert ClosedBeyond(table, ran, Elements(a.ran)) && ids[i] in Elements(a.ran);
  }

  /** When a need fails, nothing is cached after it: only the module itself and what the needs up to that one reach. */
  lemma FailureStops(table: Table, ran: seq<Id>, id: Id, i: nat, s: set<Id>)
    requires id in table && id !in ran && i < |table[id].needs|
    requires !exists t :: ClosedBeyond(table, ran + [id], t) && table[id].needs[i] in t
    requires NeedsInside(table, s) && forall k | 0 <= k <= i :: table[id].needs[k] in s
    ensures !Require(table, ran, id).ok
    ensures forall x | x in Require(table, ran, id).ran :: x in ran || x == id || x in s
  {
    var needs := table[id].needs;
    var a := RequireAll(table, ran + [id], needs[..i + 1]);
    RequireAllSplit(table, ran + [id], needs, i + 1);
    RequireAllStays(table, ran + [id], needs[..i + 1], s);
    assert needs[..i + 1][i] == needs[i];
    if a.ok {
      AllReturnBeyond(table, ran + [id], needs[..i + 1], i);
    }
  }

  /** With a closed cache, a call returns exactly when all that can be reached has a factory that does not throw;
      then the cache is closed again. */
  lemma RequireReturns(table: Table, ran: seq<Id>, id: Id)
    requires Closed(table, Elements(ran))
    ensures Require(table, ran, id).ok <==> exists s :: Closed(table, s) && id in s
    ensures Require(table, ran, id).ok ==> Closed(table, Elements(Require(table, ran, id).ran))
  {
    var r := Require(table, ran, id);
    if s :| Closed(table, s) && id in s {
      ClosedNeedsInside(table, s);
      RequireStays(table, ran, id, s);
    }
    if r.ok {
      RequireAdds(table, ran, id);
      AddsClosed(table, ran, r);
      assert id in Elements(r.ran);
    }
  }

  lemma AddsClosed(table: Table, ran: seq<Id>, r: Outcome)
    requires Closed(table, Elements(ran)) && Adds(table, ran, r)
    ensures Closed(table, Elements(r.ran))
  {
    forall id | id in Elements(r.ran) ensures Sound(table, id, Elements(r.ran)) {
      if id in ran {
        assert id in Elements(ran);
        SoundInMore(table, id, Elements(ran), Elements(r.ran));
      } else {
        var k :| 0 <= k < |r.ran| && r.ran[k] == id;
      }
    }
  }
}
