/** The strong collection behind core-js Map and Set (bundle module wmvG): an index from fast keys to
    entries, and a doubly linked list of the entries in insertion order. */
module OrderedCollection {
  import opened Keys
  import opened Ledger
  import opened LinkChain
  import OrderedMap

  class Entry<V> {
    const i: FastKey
    const k: Key
    var v: V
    var p: Entry?<V>
    var n: Entry?<V>
    var r: bool
    ghost const pos: nat  // how many entries were ever created before this one

    constructor (i: FastKey, k: Key, v: V, p: Entry?<V>, ghost pos: nat)
      ensures this.i == i && this.k == k && this.v == v && this.p == p && this.pos == pos
      ensures n == null && !r
    {
      this.i, this.k, this.v, this.p, this.pos := i, k, v, p, pos;
      n, r := null, false;
    }
  }

  /** The part of the index `was` that files entries after row `seen`. */
  ghost predicate FiledAfter<V>(index: map<FastKey, Entry<V>>, was: map<FastKey, Entry<V>>, seen: int)
  {
    forall f :: f in index <==> f in was && seen < was[f].pos
  }

  lemma FiledAfterNext<V>(log: seq<Entry<V>>, chain: Chain, was: map<FastKey, Entry<V>>, index: map<FastKey, Entry<V>>,
                          ids: map<Key, nat>, sealed: set<Key>, seen: int, j: int)
    requires Filed(log, chain.live, was, ids, sealed) && FiledAfter(index, was, seen)
    requires |chain.ps| == |log| && chain.After(j, seen)
    ensures j == -1 ==> index == map[]
    ensures 0 <= j < |log| ==> FiledAfter(index - {log[j].i}, was, j)
  {
    if 0 <= j < |log| {
      assert log[j].i != F ==> log[j].i in was && was[log[j].i] == log[j];
    }
  }

  /** What an entry holds. */
  datatype Cell<V> = Cell(v: V, r: bool, p: Entry?<V>, n: Entry?<V>)

  ghost predicate Holds<V>(log: seq<Entry<V>>, cells: seq<Cell<V>>)
    reads log
  {
    && |cells| == |log|
    && (forall j {:trigger log[j]} | 0 <= j < |log| :: log[j].pos == j)
    && (forall j {:trigger cells[j]} | 0 <= j < |log| :: cells[j] == Cell(log[j].v, log[j].r, log[j].p, log[j].n))
  }

  ghost function At<V>(log: seq<Entry<V>>, j: int): Entry?<V>
  {
    if 0 <= j < |log| then log[j] else null
  }

  /** The cells realise the chain.  A removed entry's `n` is not looked at any more. */
  ghost predicate Shaped<V>(log: seq<Entry<V>>, cells: seq<Cell<V>>, chain: Chain)
  {
    && |chain.ps| == |cells| == |log|
    && chain.Valid()
    && (forall j {:trigger cells[j]} | 0 <= j < |cells| ::
          && (cells[j].r <==> j !in chain.live)
          && cells[j].p == At(log, chain.ps[j])
          && (j in chain.live ==> cells[j].n == At(log, chain.ns[j])))
  }

  ghost function Appended<V>(cells: seq<Cell<V>>, at: int, i: Entry<V>, last: Entry?<V>, v: V): seq<Cell<V>>
    requires -1 <= at < |cells|
  {
    (if at == -1 then cells else cells[at := cells[at].(n := i)]) + [Cell(v, false, last, null)]
  }

  ghost function RowsOf<V>(log: seq<Entry<V>>, cells: seq<Cell<V>>): (rows: seq<Row<V>>)
    requires |cells| == |log|
    ensures |rows| == |log|
    ensures forall j | 0 <= j < |rows| :: rows[j] == Row(log[j].k, cells[j].v, !cells[j].r)
  {
    seq(|log|, j requires 0 <= j < |log| => Row(log[j].k, cells[j].v, !cells[j].r))
  }

  lemma ShapedAppend<V>(log: seq<Entry<V>>, cells: seq<Cell<V>>, chain: Chain, i: Entry<V>, v: V)
    requires Shaped(log, cells, chain)
    ensures Shaped(log + [i], Appended(cells, chain.last, i, At(log, chain.last), v), chain.Append())
    ensures chain.Append().last == |log| && |chain.Append().live| == |chain.live| + 1
    ensures chain.Append().first == if chain.first == -1 then |log| else chain.first
    ensures RowsOf(log + [i], Appended(cells, chain.last, i, At(log, chain.last), v))
            == RowsOf(log, cells) + [Row(i.k, v, true)]
  {
    chain.AppendValid();
  }

  lemma ShapedOverwrite<V>(log: seq<Entry<V>>, cells: seq<Cell<V>>, chain: Chain, j: nat, v: V)
    requires Shaped(log, cells, chain) && j in chain.live && j < |log|
    ensures var cells' := cells[j := cells[j].(v := v)];
      Shaped(log, cells', chain) && RowsOf(log, cells') == RowsOf(log, cells)[j := Row(log[j].k, v, true)]
  {
  }

  /** The cells after `delete` on row `j`: its neighbours point at each other. */
  ghost function Removed<V>(cells: seq<Cell<V>>, p: int, j: nat, n: int): seq<Cell<V>>
    requires -1 <= p < |cells| && j < |cells| && -1 <= n < |cells|
  {
    var c := cells[j := cells[j].(r := true)];
    var c' := if p == -1 then c else c[p := c[p].(n := cells[j].n)];
    if n == -1 then c' else c'[n := c'[n].(p := cells[j].p)]
  }

  lemma ShapedRemove<V>(log: seq<Entry<V>>, cells: seq<Cell<V>>, chain: Chain, j: nat)
    requires Shaped(log, cells, chain) && j in chain.live
    ensures -1 <= chain.ps[j] < j && (chain.ns[j] == -1 || j < chain.ns[j] < |log|)
    ensures Shaped(log, Removed(cells, chain.ps[j], j, chain.ns[j]), chain.Remove(j))
  {
    assert chain.Before(chain.ps[j], j) && chain.After(chain.ns[j], j);
    chain.RemoveValid(j);
    var c, cells' := chain.Remove(j), Removed(cells, chain.ps[j], j, chain.ns[j]);
    forall m {:trigger cells'[m]} | 0 <= m < |cells|
      ensures (cells'[m].r <==> m !in c.live) && cells'[m].p == At(log, c.ps[m])
      ensures m in c.live ==> cells'[m].n == At(log, c.ns[m])
    {
      assert cells[m].r <==> m !in chain.live;
      assert cells[j].p == At(log, chain.ps[j]) && cells[j].n == At(log, chain.ns[j]);
    }
  }

  /** `clear` has dealt with the live entries before row `end`. */
  ghost predicate Cut<V>(was: seq<Cell<V>>, cells: seq<Cell<V>>, live: set<nat>, end: int)
  {
    |cells| == |was| && forall m {:trigger cells[m]} | 0 <= m < |cells| ::
      cells[m] == if m in live && m < end then was[m].(r := true, p := null, n := cells[m].n) else was[m]
  }

  ghost function CutOne<V>(cells: seq<Cell<V>>, p: int, j: nat): seq<Cell<V>>
    requires -1 <= p < |cells| && j < |cells|
  {
    var c := cells[j := cells[j].(r := true, p := null)];
    if p == -1 then c else c[p := c[p].(n := null)]
  }

  lemma CutNext<V>(was: seq<Cell<V>>, cells: seq<Cell<V>>, chain: Chain, seen: int, j: nat)
    requires Cut(was, cells, chain.live, seen + 1) && chain.Valid() && |chain.ps| == |cells|
    requires seen < j < |cells| && chain.After(j, seen)
    ensures -1 <= chain.ps[j] < j && Cut(was, CutOne(cells, chain.ps[j], j), chain.live, j + 1)
  {
    assert chain.Before(chain.ps[j], j);
  }

  lemma ShapedClear<V>(log: seq<Entry<V>>, was: seq<Cell<V>>, cells: seq<Cell<V>>, chain: Chain)
    requires Shaped(log, was, chain) && Cut(was, cells, chain.live, |log|)
    ensures Shaped(log, cells, chain.Clear())
    ensures RowsOf(log, cells) == Ledger.Clear(RowsOf(log, was))
  {
    chain.ClearValid();
  }

  lemma RowsRemoved<V>(log: seq<Entry<V>>, cells: seq<Cell<V>>, p: int, j: nat, n: int)
    requires |cells| == |log| && -1 <= p < |cells| && j < |cells| && -1 <= n < |cells|
    ensures RowsOf(log, Removed(cells, p, j, n)) == Buried(RowsOf(log, cells), j)
  {
  }

  /** The index and the list hold exactly the same entries, but for those filed under "F". */
  ghost predicate Filed<V>(log: seq<Entry<V>>, live: set<nat>, index: map<FastKey, Entry<V>>,
                           ids: map<Key, nat>, sealed: set<Key>)
  {
    && (forall f {:trigger index[f]} | f in index ::
          f != F && index[f].i == f && index[f].pos in live && index[f].pos < |log| && log[index[f].pos] == index[f])
    && (forall j {:trigger log[j].i} | 0 <= j < |log| && j in live ::
          && log[j].pos == j && log[j].i == NameOf(log[j].k, ids, sealed) && log[j].i != E
          && (log[j].i != F ==> log[j].i in index && index[log[j].i] == log[j]))
  }

  /** New meta numbers and newly sealed objects leave the index right. */
  lemma FiledGrows<V>(log: seq<Entry<V>>, live: set<nat>, index: map<FastKey, Entry<V>>,
                      was: map<Key, nat>, wasSealed: set<Key>, ids: map<Key, nat>, sealed: set<Key>)
    requires Filed(log, live, index, was, wasSealed)
    requires was.Keys <= ids.Keys && (forall k | k in was :: ids[k] == was[k])
    requires wasSealed <= sealed && wasSealed - was.Keys <= sealed - ids.Keys
    ensures Filed(log, live, index, ids, sealed)
  {
    forall j | 0 <= j < |log| && j in live ensures log[j].i == NameOf(log[j].k, ids, sealed) {
      assert log[j].k in wasSealed - was.Keys ==> log[j].k in sealed - ids.Keys;
    }
  }

  lemma FiledAppend<V>(log: seq<Entry<V>>, live: set<nat>, index: map<FastKey, Entry<V>>, i: Entry<V>,
                       ids: map<Key, nat>, sealed: set<Key>)
    requires Filed(log, live, index, ids, sealed) && (forall j | j in live :: j < |log|)
    requires forall k, k' :: k in ids && k' in ids && ids[k] == ids[k'] ==> k == k'
    requires forall j | j in live :: log[j].k != i.k
    requires i.pos == |log| && i.i == NameOf(i.k, ids, sealed) && i.i != E
    ensures Filed(log + [i], live + {|log|}, if i.i == F then index else index[i.i := i], ids, sealed)
  {
    var log' := log + [i];
    forall j | j in live ensures log'[j].i == NameOf(log'[j].k, ids, sealed) && (i.i != F ==> log'[j].i != i.i) {
      assert log[j].i == NameOf(log[j].k, ids, sealed);
    }
  }

  lemma FiledRemove<V>(log: seq<Entry<V>>, live: set<nat>, index: map<FastKey, Entry<V>>, j: nat,
                       ids: map<Key, nat>, sealed: set<Key>)
    requires Filed(log, live, index, ids, sealed) && j in live && j < |log|
    ensures Filed(log, live - {j}, index - {log[j].i}, ids, sealed)
  {
  }

  lemma NothingFiled<V>(log: seq<Entry<V>>, index: map<FastKey, Entry<V>>, ids: map<Key, nat>, sealed: set<Key>)
    requires index == map[]
    ensures Filed(log, {}, index, ids, sealed)
  {
  }

  lemma NextIsAfter<V>(rows: seq<Row<V>>, chain: Chain, i: int, j: int)
    requires |rows| == |chain.ps| && (forall m | m in chain.live :: m < |rows|)
    requires forall m | 0 <= m < |rows| :: rows[m].live <==> m in chain.live
    requires -1 <= j < |rows| && chain.After(i, j)
    ensures Next(rows, j) == if i == -1 then |rows| else i
  {
  }

  class Collection<V> {
    const meta: MetaStore
    var index: map<FastKey, Entry<V>>
    var first: Entry?<V>
    var last: Entry?<V>
    var size: int

    ghost var log: seq<Entry<V>>   // every entry ever created, in order
    ghost var cells: seq<Cell<V>>  // what they hold
    ghost var chain: Chain         // which of them are in the list, and how all of them are linked

    ghost predicate Valid()
      reads this, log, meta
    {
      && meta.Valid()
      && Holds(log, cells)
      && Shaped(log, cells, chain)
      && Filed(log, chain.live, index, meta.ids, meta.sealed)
      && first == At(log, chain.first) && last == At(log, chain.last) && size == |chain.live|
    }

    ghost predicate Live(e: Entry<V>)
      reads this
    {
      e.pos < |log| && log[e.pos] == e && e.pos in chain.live
    }

    /** The abstract value. */
    ghost function Rows(): seq<Row<V>>
      requires |cells| == |log|
      reads this
    {
      RowsOf(log, cells)
    }

    /** `size` is the number of entries. */
    lemma SizeCounts()
      requires Valid()
      ensures size == |OrderedMap.EntriesOf(Rows())|
    {
      OrderedMap.EntriesCount(Rows(), chain.live);
    }

    constructor (meta: MetaStore)
      requires meta.Valid()
      ensures Valid() && this.meta == meta && Rows() == []
    {
      this.meta := meta;
      index, first, last, size := map[], null, null, 0;
      log, cells, chain := [], [], Chain({}, [], [], -1, -1);
    }

    /** The entry found by a lookup, against the row found by it. */
    ghost predicate Found(k: Key, e: Entry?<V>)
      requires Valid()
      reads this, log, meta
    {
      var i := Find(Rows(), k, meta.Scans());
      e == At(log, i) && (e != null ==> i in chain.live)
    }

    lemma FoundIs(k: Key, i: nat)
      requires Valid() && i <= |log|
      requires i < |log| ==> i in chain.live && Matches(log[i].k, k, meta.Scans())
      requires forall j | j in chain.live && j < i :: !Matches(log[j].k, k, meta.Scans())
      ensures Found(k, At(log, i))
    {
      assert Find(Rows(), k, meta.Scans()) == i by {
        assert forall j | 0 <= j < |log| :: Rows()[j].live <==> j in chain.live;
      }
    }

    lemma FoundDelete(k: Key, e: Entry?<V>)
      requires Valid() && Found(k, e)
      ensures Ledger.Delete(Rows(), k, meta.Scans()) ==
              if e == null then Rows() else Buried(Rows(), e.pos)
      ensures e != null <==> Find(Rows(), k, meta.Scans()) < |log|
    {
    }

    /** A key that is not scanned for is found through the index. */
    lemma FoundByIndex(k: Key)
      requires Valid() && meta.Peek(k) != F
      ensures Found(k, if meta.Peek(k) in index then index[meta.Peek(k)] else null)
    {
      var f := meta.Peek(k);
      assert forall j | j in chain.live :: log[j].k == k ==> log[j].i == f;
      if f in index {
        meta.PeekInjective(index[f].k, k);
        FoundIs(k, index[f].pos);
      } else {
        FoundIs(k, |log|);
      }
    }

    method GetEntry(t: Key) returns (e: Entry?<V>)
      requires Valid()
      ensures Found(t, e)
    {
      var f := meta.Peek(t);
      if f != F {
        FoundByIndex(t);
        return if f in index then index[f] else null;
      }
      e := first;
      ghost var j, seen := chain.first, -1;
      while e != null
        invariant chain.After(j, seen) && -1 <= seen < |log| && e == At(log, j)
        invariant forall m | m in chain.live && m <= seen :: !Matches(log[m].k, t, meta.Scans())
        decreases |log| - seen
      {
        if Matches(e.k, t, meta.Scans()) {
          FoundIs(t, j);
          return;
        }
        assert cells[j].n == At(log, chain.ns[j]);
        seen, j := j, chain.ns[j];
        e := e.n;
      }
      FoundIs(t, |log|);
    }

    /** The collection does not mind what else happens to the meta numbers. */
    twostate lemma MetaGrows()
      requires old(Valid()) && meta.Valid() && meta.Grows()
      requires unchanged(this) && unchanged(log)
      ensures Valid()
    {
      FiledGrows(log, chain.live, index, old(meta.ids), old(meta.sealed), meta.ids, meta.sealed);
    }

    /** Objects that come to be looked up by scanning are no keys of this collection. */
    twostate lemma FreezesOthers()
      requires old(Valid()) && meta.Valid() && meta.Grows()
      requires unchanged(this) && unchanged(log)
      ensures OrderedMap.NewToRows(Rows(), old(meta.Scans()), meta.Scans())
    {
      ghost var rows := Rows();
      forall j | 0 <= j < |rows| && rows[j].live && rows[j].key.Obj?
        ensures rows[j].key in meta.Scans() ==> rows[j].key in old(meta.Scans())
      {
        assert j in chain.live && log[j].i == NameOf(log[j].k, old(meta.ids), old(meta.sealed)) != E;
      }
    }

    method Def(t: Key, v: V)
      requires Valid()
      modifies this, meta, log
      ensures Valid() && meta.Grows() && meta.Scans() == old(meta.Scans())
      ensures Extended()
      ensures Rows() == Set(old(Rows()), t, v, meta.Scans())
    {
      var e := GetEntry(t);
      if e != null {
        Overwrite(e, v);
      } else {
        assert forall j | j in chain.live :: Rows()[j].live && Rows()[j].key == log[j].k;
        Append(t, v);
      }
    }

    /** The branch of `def` that finds an entry. */
    method Overwrite(e: Entry<V>, v: V)
      requires Valid() && Live(e)
      modifies e`v, this`cells
      ensures Valid()
      ensures Rows() == old(Rows())[e.pos := Row(e.k, v, true)]
    {
      ShapedOverwrite(log, cells, chain, e.pos, v);
      e.v := v;
      cells := cells[e.pos := cells[e.pos].(v := v)];
      assert Holds(log, cells);
    }

    /** The branch of `def` that creates an entry. */
    method Append(t: Key, v: V)
      requires Valid() && forall j | j in chain.live :: log[j].k != t
      modifies this, meta, log
      ensures Valid() && meta.Grows() && meta.Scans() == old(meta.Scans())
      ensures |log| == |old(log)| + 1 && Extended()
      ensures Rows() == old(Rows()) + [Row(t, v, true)]
    {
      var o := meta.FastKeyOf(t, true);
      MetaGrows();
      Create(t, v, o);
    }

    method Create(t: Key, v: V, o: FastKey)
      requires Valid() && o == meta.Peek(t) && o != E && forall j | j in chain.live :: log[j].k != t
      modifies this, log
      ensures Valid()
      ensures |log| == |old(log)| + 1 && Extended()
      ensures Rows() == old(Rows()) + [Row(t, v, true)]
    {
      var i := new Entry<V>(o, t, v, last, |log|);
      Link(i);
    }

    method Link(i: Entry<V>)
      requires Valid() && i !in log && i.pos == |log| && i.p == last && i.n == null && !i.r
      requires i.i == meta.Peek(i.k) && i.i != E && forall j | j in chain.live :: log[j].k != i.k
      modifies this, log
      ensures Valid() && log == old(log) + [i]
      ensures Rows() == old(Rows()) + [Row(i.k, old(i.v), true)]
    {
      EndsInLog();
      FiledAppend(log, chain.live, index, i, meta.ids, meta.sealed);
      ShapedAppend(log, cells, chain, i, i.v);
      LinkLast(i, chain.Append());
    }

    lemma EndsInLog()
      requires Valid()
      ensures -1 <= chain.first < |log| && -1 <= chain.last < |log|
      ensures first == null <==> chain.first == -1
    {
    }

    /** The writes of `def` on a new entry. */
    method LinkLast(i: Entry<V>, ghost c: Chain)
      requires Holds(log, cells) && -1 <= chain.last < |log| && last == At(log, chain.last)
      requires i !in log && i.pos == |log| && i.p == last && i.n == null && !i.r
      requires c.last == |log| && c.first < c.last + 1 && |c.live| == size + 1
      requires if first == null then c.first == |log| else first == At(log, c.first)
      modifies this, log
      ensures chain == c && log == old(log) + [i] && cells == Appended(old(cells), old(chain.last), i, old(last), i.v)
      ensures Holds(log, cells)
      ensures first == At(log, c.first) && last == At(log, c.last) && size == |c.live|
      ensures index == if i.i == F then old(index) else old(index)[i.i := i]
      ensures i.v == old(i.v)
    {
      var r := last;
      last := i;
      first := if first == null then i else first;
      if r != null {
        assert r == log[chain.last];
        r.n := i;
      }
      size := size + 1;
      index := if i.i == F then index else index[i.i := i];
      log, cells, chain := log + [i], Appended(cells, chain.last, i, r, i.v), c;
    }

    method Delete(t: Key) returns (done: bool)
      requires Valid()
      modifies this, log
      ensures Valid() && log == old(log)
      ensures Rows() == Ledger.Delete(old(Rows()), t, meta.Scans())
      ensures done == (Find(old(Rows()), t, meta.Scans()) < |log|)
    {
      var e := GetEntry(t);
      FoundDelete(t, e);
      if e == null {
        return false;
      }
      ghost var scans, after := meta.Scans(), Buried(Rows(), e.pos);
      Erase(e);
      assert meta.Scans() == scans && Rows() == after;
      return true;
    }

    /** The branch of `delete` that finds an entry. */
    method Erase(e: Entry<V>)
      requires Valid() && Live(e)
      modifies this, log
      ensures Valid() && log == old(log)
      ensures Rows() == Buried(old(Rows()), e.pos)
    {
      ghost var j := e.pos;
      FiledRemove(log, chain.live, index, j, meta.ids, meta.sealed);
      ShapedRemove(log, cells, chain, j);
      RowsRemoved(log, cells, chain.ps[j], j, chain.ns[j]);
      index := index - {e.i};
      Unlink(e, j, chain.Remove(j));
    }

    method Splice(e: Entry<V>, ghost j: nat)
      requires Holds(log, cells) && j < |log| && log[j] == e
      requires |chain.ps| == |chain.ns| == |log| && -1 <= chain.ps[j] < j
               && (chain.ns[j] == -1 || j < chain.ns[j] < |log|)
      requires cells[j].p == At(log, chain.ps[j]) && cells[j].n == At(log, chain.ns[j])
      modifies log
      ensures Holds(log, Removed(cells, chain.ps[j], j, chain.ns[j]))
    {
      var o, i := e.n, e.p;
      assert i != null ==> i == log[chain.ps[j]] && i.pos < j;
      assert o != null ==> o == log[chain.ns[j]] && j < o.pos;
      e.r := true;
      if i != null {
        i.n := o;
      }
      if o != null {
        o.p := i;
      }
    }

    /** The writes of `delete` on the entry it found. */
    method Unlink(e: Entry<V>, ghost j: nat, ghost c: Chain)
      requires Holds(log, cells) && j < |log| && log[j] == e
      requires -1 <= chain.first < |log| && first == At(log, chain.first)
      requires -1 <= chain.last < |log| && last == At(log, chain.last)
      requires |chain.ps| == |chain.ns| == |log| && -1 <= chain.ps[j] < j
               && (chain.ns[j] == -1 || j < chain.ns[j] < |log|)
      requires cells[j].p == At(log, chain.ps[j]) && cells[j].n == At(log, chain.ns[j])
      modifies this`first, this`last, this`size, this`cells, this`chain, log
      ensures chain == c && cells == Removed(old(cells), old(chain).ps[j], j, old(chain).ns[j])
      ensures Holds(log, cells)
      ensures first == At(log, if old(chain).first == j then old(chain).ns[j] else old(chain).first)
      ensures last == At(log, if old(chain).last == j then old(chain).ps[j] else old(chain).last)
      ensures size == old(size) - 1
    {
      var o, i := e.n, e.p;
      Splice(e, j);
      first := if first == e then o else first;
      last := if last == e then i else last;
      size := size - 1;
      cells, chain := Removed(cells, chain.ps[j], j, chain.ns[j]), c;
    }

    method Clear()
      requires Valid()
      modifies this, log
      ensures Valid() && log == old(log)
      ensures Rows() == Ledger.Clear(old(Rows()))
    {
      CutAll();
      NothingFiled(log, index, meta.ids, meta.sealed);
      first, last, size := null, null, 0;
    }

    /** The loop of `clear`. */
    method CutAll()
      requires Valid()
      modifies log, this`cells, this`index, this`chain
      ensures Holds(log, cells) && index == map[]
      ensures chain == old(chain).Clear() && Shaped(log, cells, chain)
      ensures RowsOf(log, cells) == Ledger.Clear(RowsOf(log, old(cells)))
    {
      var r := first;
      ghost var j, seen := chain.first, -1;
      while r != null
        invariant Holds(log, cells) && chain == old(chain)
        invariant chain.After(j, seen) && -1 <= seen < |log| && r == At(log, j)
        invariant Cut(old(cells), cells, chain.live, seen + 1)
        invariant FiledAfter(index, old(index), seen)
        decreases |log| - seen
      {
        assert cells[j].n == At(log, chain.ns[j]) && cells[j].p == At(log, chain.ps[j]);
        FiledAfterNext(log, chain, old(index), index, meta.ids, meta.sealed, seen, j);
        CutNext(old(cells), cells, chain, seen, j);
        CutBack(r, j);
        assert cells[j].n == At(log, chain.ns[j]);
        index := index - {r.i};
        seen, j := j, chain.ns[j];
        r := r.n;
      }
      FiledAfterNext(log, chain, old(index), index, meta.ids, meta.sealed, seen, -1);
      ShapedClear(log, old(cells), cells, chain);
      chain := chain.Clear();
    }

    /** The writes of `clear` on one entry. */
    method CutBack(r: Entry<V>, ghost j: nat)
      requires Holds(log, cells) && j < |log| && log[j] == r
      requires |chain.ps| == |log| && -1 <= chain.ps[j] < j && cells[j].p == At(log, chain.ps[j])
      modifies log, this`cells
      ensures Holds(log, cells)
      ensures cells == CutOne(old(cells), chain.ps[j], j)
    {
      var p := r.p;
      assert p != null ==> p == log[chain.ps[j]] && p.pos < j;
      r.r := true;
      if p != null {
        p.n := null;
        r.p := null;
      }
      cells := CutOne(cells, chain.ps[j], j);
    }

    /** The inner loop of `forEach` and of the iterators: from an entry that may have been removed (row `j`)
        back to one that is still there. */
    method StepBack(e: Entry?<V>, ghost j: int) returns (t: Entry?<V>)
      requires Valid() && -1 <= j < |log| && e == At(log, j)
      ensures t == At(log, chain.WalkBack(j))
    {
      t := e;
      ghost var i := j;
      while t != null && t.r
        invariant -1 <= i < |log| && t == At(log, i) && chain.WalkBack(i) == chain.WalkBack(j)
        decreases i
      {
        assert cells[i].p == At(log, chain.ps[i]) && chain.NotOver(chain.ps[i], i);
        t, i := t.p, chain.ps[i];
      }
      assert i == -1 || cells[i].r == log[i].r;
    }

    /** The entry after `t`: the next live one after row `j`, from wherever the walk back from `j` has led. */
    method StepOn(t: Entry?<V>, ghost j: int) returns (n: Entry?<V>)
      requires Valid() && -1 <= j < |log| && t == At(log, chain.WalkBack(j))
      ensures n == At(log, Next(Rows(), j)) && (n != null ==> Live(n))
    {
      chain.WalkBackNearest(j);
      ghost var b := chain.WalkBack(j);
      n := if t != null then t.n else first;
      ghost var i := if b == -1 then chain.first else chain.ns[b];
      assert b != -1 ==> cells[b].n == At(log, i);
      assert chain.After(i, j);
      NextIsAfter(Rows(), chain, i, j);
    }

    /** Entries are only added. */
    twostate predicate Extended()
      reads this
    {
      old(log) <= log && forall j | |old(log)| <= j < |log| :: fresh(log[j])
    }

    method Do(op: Op<V>)
      requires Valid()
      modifies this, meta, log
      ensures Valid() && meta.Scans() == old(meta.Scans()) && Extended()
      ensures Rows() == Apply(old(Rows()), op, meta.Scans())
    {
      match op {
        case SetOp(k, v) => Def(k, v);
        case DeleteOp(k) => var _ := Delete(k);
        case ClearOp => Clear();
      }
    }

    /** One callback's changes. */
    method Run(ops: seq<Op<V>>)
      requires Valid()
      modifies this, meta, log
      ensures Valid() && meta.Scans() == old(meta.Scans()) && Extended()
      ensures Rows() == ApplyAll(old(Rows()), ops, meta.Scans())
      ensures ops == [] ==> log == old(log)
      decreases |ops|
    {
      if ops != [] {
        Do(ops[0]);
        assert forall e | e in log :: e in old(log) || fresh(e);
        Run(ops[1..]);
      }
    }

    /** What a program does to the collection, freezing objects as it goes; freezing what is no object does nothing. */
    method RunAsMap(script: seq<Change<V>>) returns (ghost steps: seq<OrderedMap.Step<V>>)
      requires Valid()
      modifies this, meta, log
      ensures Valid() && size == |OrderedMap.EntriesOf(Rows())|
      ensures Rows() == OrderedMap.Play(old(Rows()), steps) && OrderedMap.Ops(steps) == OpsOf(script)
      ensures OrderedMap.Freezing(old(Rows()), old(meta.Scans()), steps)
      ensures OrderedMap.AllByIdentity(old(Rows()), steps) ==>
                OrderedMap.EntriesOf(Rows()) == OrderedMap.UpdateAll(OrderedMap.EntriesOf(old(Rows())), OpsOf(script))
    {
      steps := PlayScript(script);
      SizeCounts();
      if OrderedMap.AllByIdentity(old(Rows()), steps) {
        OrderedMap.RunRefinesMap(old(Rows()), steps);
      }
    }

    method PlayScript(script: seq<Change<V>>) returns (ghost steps: seq<OrderedMap.Step<V>>)
      requires Valid()
      modifies this, meta, log
      ensures Valid() && Extended() && Rows() == OrderedMap.Play(old(Rows()), steps)
              && OrderedMap.Ops(steps) == OpsOf(script)
      ensures OrderedMap.Freezing(old(Rows()), old(meta.Scans()), steps)
      decreases |script|
    {
      steps := [];
      if script != [] {
        ghost var step := PlayOne(script[0]);
        assert forall e | e in log :: e in old(log) || fresh(e);
        ghost var rows, scans, was := Rows(), meta.Scans(), log;
        ghost var rest := PlayScript(script[1..]);
        forall k | |old(log)| <= k < |log| ensures fresh(log[k]) {
          assert k < |was| ==> log[k] == was[k];
        }
        steps := step + rest;
        StepsJoin(old(Rows()), old(meta.Scans()), step, rows, scans, rest);
      }
    }

    method PlayOne(change: Change<V>) returns (ghost steps: seq<OrderedMap.Step<V>>)
      requires Valid()
      modifies this, meta, log
      ensures Valid() && Extended() && Rows() == OrderedMap.Play(old(Rows()), steps)
      ensures OrderedMap.Ops(steps) == OpsOf([change]) && |steps| <= 1
      ensures steps == [] ==> OrderedMap.NewToRows(Rows(), old(meta.Scans()), meta.Scans())
      ensures steps != [] ==> meta.Scans() == old(meta.Scans()) == steps[0].scans
    {
      steps := [];
      match change {
        case Operate(op) =>
          steps := [OrderedMap.Step(op, meta.Scans())];
          Do(op);
        case Freeze(k) =>
          if k.Obj? {
            meta.PreventExtensions(k);
            MetaGrows();
            FreezesOthers();
          }
      }
    }
  }

  datatype Change<V> = Operate(op: Op<V>) | Freeze(k: Key)

  /** The operations of a script. */
  function OpsOf<V>(script: seq<Change<V>>): seq<Op<V>>
  {
    if script == [] then [] else (if script[0].Operate? then [script[0].op] else []) + OpsOf(script[1..])
  }

  lemma StepsJoin<V>(rows: seq<Row<V>>, scans: set<Key>, step: seq<OrderedMap.Step<V>>, rows': seq<Row<V>>,
                     scans': set<Key>,
                     rest: seq<OrderedMap.Step<V>>)
    requires |step| <= 1 && rows' == OrderedMap.Play(rows, step) && OrderedMap.Freezing(rows', scans', rest)
    requires if step == [] then OrderedMap.NewToRows(rows', scans, scans') else scans' == scans == step[0].scans
    ensures OrderedMap.Play(rows, step + rest) == OrderedMap.Play(rows', rest)
    ensures OrderedMap.Freezing(rows, scans, step + rest)
    ensures OrderedMap.Ops(step + rest) == OrderedMap.Ops(step) + OrderedMap.Ops(rest)
  {
    if step == [] {
      assert step + rest == rest;
      OrderedMap.FreezingSooner(rows, scans, scans', rest);
    } else {
      assert (step + rest)[1..] == rest && step[1..] == [];
    }
  }
}
