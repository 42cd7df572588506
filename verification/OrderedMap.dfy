/** The ordered map of ECMA-262 (6th edition, section 23.1.3): a list of entries searched by key identity.
    The ledger of a collection refines it. */
module OrderedMap {
  import opened Keys
  import opened Ledger
  import opened Sequences

  type Entries<V> = seq<(Key, V)>

  /** Map.prototype.set: overwrite in place, or add at the end. */
  function Put<V>(es: Entries<V>, k: Key, v: V): Entries<V>
  {
    if es == [] then [(k, v)]
    else if es[0].0 == k then [(k, v)] + es[1..]
    else [es[0]] + Put(es[1..], k, v)
  }

  /** Map.prototype.delete. */
  function Drop<V>(es: Entries<V>, k: Key): Entries<V>
  {
    if es == [] then [] else if es[0].0 == k then es[1..] else [es[0]] + Drop(es[1..], k)
  }

  predicate Has<V>(es: Entries<V>, k: Key)
  {
    exists a | 0 <= a < |es| :: es[a].0 == k
  }

  function EntriesOf<V>(rows: seq<Row<V>>): Entries<V>
  {
    if rows == [] then []
    else (if rows[0].live then [(rows[0].key, rows[0].value)] else []) + EntriesOf(rows[1..])
  }

  /** A lookup of `k` compares by identity alone: `k` is not an object looked up by scanning, or no live entry
      before it (before the end, when it is absent) has a primitive key that `==` takes for it. */
  predicate ByIdentity<V>(rows: seq<Row<V>>, k: Key, scans: set<Key>)
  {
    k !in scans || forall j | 0 <= j < Find(rows, k, {}) && rows[j].live :: !Matches(rows[j].key, k, scans)
  }

  /** The lookup finds the entry with exactly this key, or nothing when there is none, just when it compares
      by identity alone. */
  lemma LookupByIdentity<V>(rows: seq<Row<V>>, k: Key, scans: set<Key>)
    ensures Find(rows, k, scans) == Find(rows, k, {}) <==> ByIdentity(rows, k, scans)
    ensures Find(rows, k, {}) < |rows| <==> Has(EntriesOf(rows), k)
  {
    HasRow(rows, k);
    var i := Find(rows, k, {});
    assert i < |rows| ==> Matches(rows[i].key, k, scans);
  }

  lemma {:induction false} HasRow<V>(rows: seq<Row<V>>, k: Key)
    ensures Find(rows, k, {}) < |rows| <==> Has(EntriesOf(rows), k)
  {
    if rows != [] {
      HasRow(rows[1..], k);
      var es := EntriesOf(rows);
      assert rows[0].live ==> es[0] == (rows[0].key, rows[0].value) && es[1..] == EntriesOf(rows[1..]);
      assert !rows[0].live ==> es == EntriesOf(rows[1..]);
    }
  }

  /** The comparison by `==` can go wrong: an object that prints as "x", no longer extensible and never used as
      a key, is taken for the string key "x". */
  lemma LookupGoesWrong(v: int)
    ensures var o := Obj(0, {Str("x")});
      var rows := [Row(Str("x"), v, true)];
      Find(rows, o, {o}) == 0 && !Has(EntriesOf(rows), o)
  {
    var o := Obj(0, {Str("x")});
    var rows := [Row(Str("x"), v, true)];
    assert Find(rows, o, {}) == 1 by {
      assert rows[1..] == [];
    }
    LookupByIdentity(rows, o, {o});
  }

  lemma {:induction false} SetExact<V>(rows: seq<Row<V>>, k: Key, v: V)
    ensures EntriesOf(Set(rows, k, v, {})) == Put(EntriesOf(rows), k, v)
  {
    if rows == [] {
      assert Set(rows, k, v, {})[1..] == [];
    } else if Find(rows, k, {}) == 0 {
      assert Set(rows, k, v, {})[1..] == rows[1..];
      FirstEntry(rows);
    } else {
      SetExact(rows[1..], k, v);
      SetLater(rows, k, v);
    }
  }

  /** The first row, if it is live, is the first entry. */
  lemma FirstEntry<V>(rows: seq<Row<V>>)
    requires rows != []
    ensures var es := EntriesOf(rows);
      if rows[0].live then es != [] && es[0] == (rows[0].key, rows[0].value) && es[1..] == EntriesOf(rows[1..])
      else es == EntriesOf(rows[1..])
  {
  }

  lemma SetLater<V>(rows: seq<Row<V>>, k: Key, v: V)
    requires rows != [] && Find(rows, k, {}) != 0
    requires EntriesOf(Set(rows[1..], k, v, {})) == Put(EntriesOf(rows[1..]), k, v)
    ensures EntriesOf(Set(rows, k, v, {})) == Put(EntriesOf(rows), k, v)
  {
    var after := Set(rows, k, v, {});
    assert after[0] == rows[0] && after[1..] == Set(rows[1..], k, v, {});
    FirstEntry(rows);
    FirstEntry(after);
  }

  lemma {:induction false} DeleteExact<V>(rows: seq<Row<V>>, k: Key)
    ensures EntriesOf(Ledger.Delete(rows, k, {})) == Drop(EntriesOf(rows), k)
  {
    var i := Find(rows, k, {});
    if rows != [] {
      DeleteExact(rows[1..], k);
      var es, tail := EntriesOf(rows), EntriesOf(rows[1..]);
      assert if rows[0].live then es[1..] == tail else es == tail;
      var after := Ledger.Delete(rows, k, {});
      assert after == [if i == 0 then rows[0].(live := false) else rows[0]]
             + if i == 0 then rows[1..] else Ledger.Delete(rows[1..], k, {});
      assert EntriesOf(after) == (if after[0].live then [(after[0].key, after[0].value)] else [])
             + EntriesOf(after[1..]);
    }
  }

  /** `set`, `delete` and `clear` on the ledger are those of the ordered map. */
  lemma LedgerRefinesMap<V>(rows: seq<Row<V>>, k: Key, v: V, scans: set<Key>)
    requires ByIdentity(rows, k, scans)
    ensures EntriesOf(Set(rows, k, v, scans)) == Put(EntriesOf(rows), k, v)
    ensures EntriesOf(Ledger.Delete(rows, k, scans)) == Drop(EntriesOf(rows), k)
    ensures EntriesOf(Clear(rows)) == []
  {
    LookupByIdentity(rows, k, scans);
    SetExact(rows, k, v);
    DeleteExact(rows, k);
    DeadRows(Clear(rows));
  }

  // ---- whole runs ----

  /** The same operations on the map. */
  function Update<V>(es: Entries<V>, op: Op<V>): Entries<V>
  {
    match op
    case SetOp(k, v) => Put(es, k, v)
    case DeleteOp(k) => Drop(es, k)
    case ClearOp => []
  }

  function UpdateAll<V>(es: Entries<V>, ops: seq<Op<V>>): Entries<V>
    decreases |ops|
  {
    if ops == [] then es else UpdateAll(Update(es, ops[0]), ops[1..])
  }

  predicate OpByIdentity<V>(rows: seq<Row<V>>, op: Op<V>, scans: set<Key>)
  {
    op.ClearOp? || ByIdentity(rows, op.k, scans)
  }

  /** An operation, and the objects looked up by scanning at the time: programs may freeze objects in between. */
  datatype Step<V> = Step(op: Op<V>, scans: set<Key>)

  function After<V>(rows: seq<Row<V>>, step: Step<V>): seq<Row<V>>
  {
    Apply(rows, step.op, step.scans)
  }

  function Play<V>(rows: seq<Row<V>>, steps: seq<Step<V>>): seq<Row<V>>
    decreases |steps|
  {
    if steps == [] then rows else Play(After(rows, steps[0]), steps[1..])
  }

  function Ops<V>(steps: seq<Step<V>>): (ops: seq<Op<V>>)
    ensures |ops| == |steps|
  {
    seq(|steps|, i requires 0 <= i < |steps| => steps[i].op)
  }

  /** Every lookup of a run compares by identity alone. */
  predicate AllByIdentity<V>(rows: seq<Row<V>>, steps: seq<Step<V>>)
    decreases |steps|
  {
    steps != [] ==> OpByIdentity(rows, steps[0].op, steps[0].scans) && AllByIdentity(After(rows, steps[0]), steps[1..])
  }

  /** After any sequence of `set`, `delete` and `clear` with such lookups the entries are those of the map. */
  lemma {:induction false} RunRefinesMap<V>(rows: seq<Row<V>>, steps: seq<Step<V>>)
    requires AllByIdentity(rows, steps)
    ensures EntriesOf(Play(rows, steps)) == UpdateAll(EntriesOf(rows), Ops(steps))
    decreases |steps|
  {
    if steps != [] {
      StepRefinesMap(rows, steps[0].op, steps[0].scans);
      RunRefinesMap(After(rows, steps[0]), steps[1..]);
      assert Ops(steps)[1..] == Ops(steps[1..]);
    }
  }

  lemma StepRefinesMap<V>(rows: seq<Row<V>>, op: Op<V>, scans: set<Key>)
    requires OpByIdentity(rows, op, scans)
    ensures EntriesOf(Apply(rows, op, scans)) == Update(EntriesOf(rows), op)
  {
    match op
    case SetOp(k, v) => LedgerRefinesMap(rows, k, v, scans);
    case DeleteOp(k) =>
      LookupByIdentity(rows, k, scans);
      DeleteExact(rows, k);
    case ClearOp => DeadRows(Clear(rows));
  }

  /** No live row answers a lookup of the key of a later one.  In particular, no key is there twice. */
  ghost predicate Unshadowed<V>(rows: seq<Row<V>>, scans: set<Key>)
  {
    forall i, j | 0 <= i < j < |rows| && rows[i].live && rows[j].live :: !Matches(rows[i].key, rows[j].key, scans)
  }

  /** When other objects come to be looked up by scanning, they are no keys of live rows. */
  ghost predicate NewToRows<V>(rows: seq<Row<V>>, scans: set<Key>, scans': set<Key>)
  {
    forall j | 0 <= j < |rows| && rows[j].live && rows[j].key.Obj? :: rows[j].key in scans' ==> rows[j].key in scans
  }

  /** Over a run from `rows`, where the objects `scans` are looked up by scanning, it is so whenever any are frozen. */
  ghost predicate Freezing<V>(rows: seq<Row<V>>, scans: set<Key>, steps: seq<Step<V>>)
    decreases |steps|
  {
    steps != [] ==>
      && NewToRows(rows, scans, steps[0].scans)
      && Freezing(After(rows, steps[0]), steps[0].scans, steps[1..])
  }

  lemma FreezingSooner<V>(rows: seq<Row<V>>, scans: set<Key>, scans': set<Key>, steps: seq<Step<V>>)
    requires NewToRows(rows, scans, scans') && Freezing(rows, scans', steps)
    ensures Freezing(rows, scans, steps)
  {
  }

  lemma MoreScans<V>(rows: seq<Row<V>>, scans: set<Key>, scans': set<Key>)
    requires Unshadowed(rows, scans) && NewToRows(rows, scans, scans')
    ensures Unshadowed(rows, scans')
  {
  }

  function LastScans<V>(scans: set<Key>, steps: seq<Step<V>>): set<Key>
  {
    if steps == [] then scans else steps[|steps| - 1].scans
  }

  /** No row becomes shadowed over a run from an empty collection, for lookups that go wrong, too. */
  lemma {:induction false} KeysStayDistinct<V>(rows: seq<Row<V>>, scans: set<Key>, steps: seq<Step<V>>)
    requires Unshadowed(rows, scans) && Freezing(rows, scans, steps)
    ensures Unshadowed(Play(rows, steps), LastScans(scans, steps))
    decreases |steps|
  {
    if steps != [] {
      MoreScans(rows, scans, steps[0].scans);
      KeysStayDistinct(After(rows, steps[0]), steps[0].scans, steps[1..]);
    }
  }

  /** The entries stay those of the map after every operation of a run. */
  predicate Agree<V(==)>(rows: seq<Row<V>>, es: Entries<V>, steps: seq<Step<V>>)
    decreases |steps|
  {
    EntriesOf(rows) == es && (steps != [] ==> Agree(After(rows, steps[0]), Update(es, steps[0].op), steps[1..]))
  }

  /** Over a run from an empty collection (or any without shadowed rows) they do if and only if all lookups are by
      identity, whichever objects are frozen on the way. */
  lemma {:induction false} RunAgreesExactly<V>(rows: seq<Row<V>>, scans: set<Key>, steps: seq<Step<V>>)
    requires Unshadowed(rows, scans) && Freezing(rows, scans, steps)
    ensures Agree(rows, EntriesOf(rows), steps) <==> AllByIdentity(rows, steps)
    decreases |steps|
  {
    if steps != [] {
      var op, next := steps[0].op, After(rows, steps[0]);
      MoreScans(rows, scans, steps[0].scans);
      KeysStayDistinct(rows, scans, steps[..1]);
      RunAgreesExactly(next, steps[0].scans, steps[1..]);
      if OpByIdentity(rows, op, steps[0].scans) {
        StepRefinesMap(rows, op, steps[0].scans);
      } else {
        StepGoesWrong(rows, op, steps[0].scans);
        assert EntriesOf(next) != Update(EntriesOf(rows), op);
      }
    }
  }

  /** A `set` or `delete` whose lookup is not by identity finds the entry of another key while its own is not there, so
      that the entries become too few. */
  lemma StepGoesWrong<V>(rows: seq<Row<V>>, op: Op<V>, scans: set<Key>)
    requires Unshadowed(rows, scans) && !OpByIdentity(rows, op, scans)
    ensures |EntriesOf(Apply(rows, op, scans))| == |Update(EntriesOf(rows), op)| - 1
  {
    var k, i := op.k, Find(rows, op.k, scans);
    LookupByIdentity(rows, k, scans);
    assert !Has(EntriesOf(rows), k) && i < |rows|;
    NothingToDo(EntriesOf(rows), k);
    match op
    case SetOp(_, v) =>
      PutAbsent(EntriesOf(rows), k, v);
      SameCount(rows, Apply(rows, op, scans), i);
    case DeleteOp(_) =>
      SameCount(rows, Apply(rows, op, scans), i);
  }

  lemma {:induction false} NothingToDo<V>(es: Entries<V>, k: Key)
    requires !Has(es, k)
    ensures Drop(es, k) == es
  {
    if es != [] {
      assert forall a | 0 <= a < |es[1..]| :: es[1..][a] == es[a + 1];
      assert es[0].0 != k;
      NothingToDo(es[1..], k);
    }
  }

  lemma {:induction false} PutAbsent<V>(es: Entries<V>, k: Key, v: V)
    requires !Has(es, k)
    ensures Put(es, k, v) == es + [(k, v)]
  {
    if es != [] {
      assert forall a | 0 <= a < |es[1..]| :: es[1..][a] == es[a + 1];
      assert es[0].0 != k;
      PutAbsent(es[1..], k, v);
    }
  }

  /** At the first entry with the key: set overwrites its value where it stands, and delete takes it out; all others
      stay in order. */
  lemma {:induction false} PutAndDropAt<V>(es: Entries<V>, k: Key, v: V, a: nat)
    requires a < |es| && es[a].0 == k && forall b | 0 <= b < a :: es[b].0 != k
    ensures Put(es, k, v) == es[a := (k, v)] && Drop(es, k) == es[..a] + es[a + 1..]
  {
    if a > 0 {
      PutAndDropAt(es[1..], k, v, a - 1);
      assert es[1..][..a - 1] == es[1..a] && es[1..][a..] == es[a + 1..];
      assert [es[0]] + es[1..][a - 1 := (k, v)] == es[a := (k, v)];
      assert [es[0]] + es[1..a] == es[..a];
    }
  }

  /** So set and delete do what they are for: with no key twice, the key has the new value afterwards and every other
      entry stays, in order; or the key is gone and every other entry stays, in order. */
  lemma PutAndDrop<V>(es: Entries<V>, k: Key, v: V)
    requires forall a, b | 0 <= a < b < |es| :: es[a].0 != es[b].0
    ensures if Has(es, k) then
              exists a :: 0 <= a < |es| && es[a].0 == k
                && Put(es, k, v) == es[a := (k, v)] && Drop(es, k) == es[..a] + es[a + 1..]
            else Put(es, k, v) == es + [(k, v)] && Drop(es, k) == es
  {
    if Has(es, k) {
      var a :| 0 <= a < |es| && es[a].0 == k;
      PutAndDropAt(es, k, v, a);
    } else {
      PutAbsent(es, k, v);
      NothingToDo(es, k);
    }
  }

  /** Changing one live row changes the number of entries by one or not at all. */
  lemma {:induction false} SameCount<V>(rows: seq<Row<V>>, after: seq<Row<V>>, i: nat)
    requires i < |rows| == |after| && rows[i].live && after == rows[i := after[i]]
    ensures |EntriesOf(after)| == |EntriesOf(rows)| - if after[i].live then 0 else 1
  {
    if i == 0 {
      assert after[1..] == rows[1..];
    } else {
      assert after[1..] == rows[1..][i - 1 := after[i]];
      SameCount(rows[1..], after[1..], i - 1);
    }
  }

  lemma {:induction false} DeadRows<V>(rows: seq<Row<V>>)
    requires forall j | 0 <= j < |rows| :: !rows[j].live
    ensures EntriesOf(rows) == []
  {
    if rows != [] {
      DeadRows(rows[1..]);
    }
  }

  lemma {:induction false} EntriesSplit<V>(a: seq<Row<V>>, b: seq<Row<V>>)
    ensures EntriesOf(a + b) == EntriesOf(a) + EntriesOf(b)
  {
    if a == [] {
      assert a + b == b;
    } else {
      EntriesSplit(a[1..], b);
      FirstOfConcat(a, b);
      Associative(if a[0].live then [(a[0].key, a[0].value)] else [], EntriesOf(a[1..]), EntriesOf(b));
    }
  }

  /** How many entries there are. */
  lemma {:induction false} EntriesCount<V>(rows: seq<Row<V>>, live: set<nat>)
    requires forall j :: j in live <==> 0 <= j < |rows| && rows[j].live
    ensures |EntriesOf(rows)| == |live|
  {
    if rows == [] {
      assert live == {};
    } else {
      var n := |rows| - 1;
      assert rows == rows[..n] + [rows[n]];
      EntriesSplit(rows[..n], [rows[n]]);
      assert [rows[n]][1..] == [];
      EntriesCount(rows[..n], live - {n});
    }
  }
}
