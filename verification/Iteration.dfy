/** `forEach` and the iterators of the collection (bundle module wmvG). */
module Iteration {
  import opened Keys
  import opened Ledger
  import opened OrderedCollection

  /** A walk over `c` under way, standing on row `cursor` with `n` the entry to call back for next, and with the
      callback changes `script` still to come. */
  ghost predicate Walking<V>(c: Collection<V>, n: Entry?<V>, whole: (seq<Visit<V>>, seq<Row<V>>), visits: seq<Visit<V>>,
                             calls: seq<(Key, V)>, cursor: int, script: seq<seq<Op<V>>>, scans: set<Key>)
    reads c, c.log, c.meta
  {
    && c.Valid() && c.meta.Scans() == scans
    && Splits(whole, visits, c.Rows(), cursor, script, scans) && calls == Calls(visits)
    && n == At(c.log, Next(c.Rows(), cursor)) && (n != null ==> c.Live(n) && cursor < n.pos)
  }

  /** `forEach`: the callback's `a`-th call makes the changes `script[a]` (none when the script has run out). */
  method ForEach<V>(c: Collection<V>, script: seq<seq<Op<V>>>)
    returns (calls: seq<(Key, V)>, ghost visits: seq<Visit<V>>)
    requires c.Valid()
    modifies c, c.meta, c.log
    ensures c.Valid() && c.meta.Scans() == old(c.meta.Scans()) && c.Extended()
    ensures (visits, c.Rows()) == Walk(old(c.Rows()), -1, script, c.meta.Scans()) && calls == Calls(visits)
  {
    calls, visits := [], [];
    var rest := script;
    var n := c.StepOn(null, -1);
    ghost var j: int, scans := -1, c.meta.Scans();
    ghost var whole := Walk(c.Rows(), -1, script, scans);
    WalkStarts(c, n, script);
    while n != null
      invariant Walking(c, n, whole, visits, calls, j, rest, scans) && c.Extended()
      decreases |rest|, |c.log| - j
    {
      assert forall e | e in c.log :: e in old(c.log) || fresh(e);
      ghost var i, was := n.pos, c.log;
      calls, visits, n := Turn(c, n, calls, visits, rest, j, whole);
      forall k | |old(c.log)| <= k < |c.log| ensures fresh(c.log[k]) {
        assert k < |was| ==> c.log[k] == was[k];
      }
      j, rest := i, Rest(rest);
    }
    SplitsDone(whole, visits, c.Rows(), j, rest, scans);
  }

  lemma WalkStarts<V>(c: Collection<V>, n: Entry?<V>, script: seq<seq<Op<V>>>)
    requires c.Valid() && n == At(c.log, Next(c.Rows(), -1)) && (n != null ==> c.Live(n))
    ensures var scans := c.meta.Scans(); Walking(c, n, Walk(c.Rows(), -1, script, scans), [], [], -1, script, scans)
  {
    SplitsStart(c.Rows(), script, c.meta.Scans());
  }

  /** One callback with its changes, and the way to the next entry. */
  method Turn<V>(c: Collection<V>, e: Entry<V>, calls: seq<(Key, V)>, ghost visits: seq<Visit<V>>,
                 script: seq<seq<Op<V>>>,
                 ghost cursor: int, ghost whole: (seq<Visit<V>>, seq<Row<V>>))
    returns (calls': seq<(Key, V)>, ghost visits': seq<Visit<V>>, n: Entry?<V>)
    requires Walking(c, e, whole, visits, calls, cursor, script, c.meta.Scans())
    modifies c, c.meta, c.log
    ensures c.Extended() && (script == [] ==> c.log == old(c.log))
    ensures Walking(c, n, whole, visits', calls', e.pos, Rest(script), old(c.meta.Scans()))
  {
    SplitsNext(whole, visits, c.Rows(), cursor, script, c.meta.Scans());
    calls', visits' := calls + [(e.k, e.v)], visits + [Visit(e.pos, e.k, e.v, c.Rows())];
    c.Run(Changes(script));
    assert c.log[e.pos] == e;
    var t := c.StepBack(e, e.pos);
    n := c.StepOn(t, e.pos);
  }

  datatype Result<V> = Done | Item(key: Key, value: V)

  /** A Map or Set iterator (`setStrong`). */
  class Iterator<V> {
    var t: Collection?<V>
    var l: Entry?<V>
    ghost var cursor: int  // the row of the entry given out last

    ghost predicate Valid()
      reads this, t
    {
      t != null ==> -1 <= cursor < |t.log| && l == At(t.log, cursor)
    }

    constructor (c: Collection<V>)
      ensures Valid() && t == c && cursor == -1
    {
      t, l, cursor := c, null, -1;
    }

    /** Gives the next live entry after the last one given, whatever was set, deleted or cleared in between;
        once there was none, it is done for good. */
    method Next() returns (r: Result<V>)
      requires Valid() && (t != null ==> t.Valid())
      modifies this
      ensures Valid()
      ensures old(t) == null ==> r == Done && t == null
      ensures old(t) != null ==>
        var rows := old(t).Rows();
        var i := Ledger.Next(rows, old(cursor));
        if i == |rows| then r == Done && t == null
        else r == Item(rows[i].key, rows[i].value) && t == old(t) && cursor == i
    {
      if t == null {
        return Done;
      }
      var e := t.StepBack(l, cursor);
      var n := t.StepOn(e, cursor);
      l := n;
      if n != null {
        cursor := n.pos;
        return Item(n.k, n.v);
      }
      t := null;
      return Done;
    }
  }

  /** A walk by iterator, which has just answered `r` when it stood on row `cursor`. */
  ghost predicate Answered<V>(c: Collection<V>, it: Iterator<V>, r: Result<V>, whole: (seq<Visit<V>>, seq<Row<V>>),
                              visits: seq<Visit<V>>, items: seq<(Key, V)>, cursor: int, script: seq<seq<Op<V>>>,
                                scans: set<Key>)
    reads c, c.log, c.meta, it
  {
    && Walking(c, if r.Done? then null else it.l, whole, visits, items, cursor, script, scans)
    && (r.Item? ==> it.t == c && it.l != null && it.l.pos == it.cursor && r == Item(it.l.k, it.l.v))
  }

  /** A program that asks an iterator for one entry after the other, and makes the changes `script[a]` between the
      `a`-th and the next: it is given the entries of the ledger walk with the same changes. */
  method IterateAll<V>(c: Collection<V>, script: seq<seq<Op<V>>>)
    returns (items: seq<(Key, V)>, ghost visits: seq<Visit<V>>)
    requires c.Valid()
    modifies c, c.meta, c.log
    ensures c.Valid() && c.meta.Scans() == old(c.meta.Scans()) && c.Extended()
    ensures (visits, c.Rows()) == Walk(old(c.Rows()), -1, script, c.meta.Scans()) && items == Calls(visits)
  {
    items, visits := [], [];
    var rest := script;
    ghost var j: int, scans := -1, c.meta.Scans();
    ghost var whole := Walk(c.Rows(), -1, script, scans);
    var it, r := FirstAnswer(c, script);
    while r.Item?
      invariant Answered(c, it, r, whole, visits, items, j, rest, scans) && c.Extended()
      decreases |rest|, |c.log| - j
    {
      assert forall e | e in c.log :: e in old(c.log) || fresh(e);
      ghost var i, was := it.cursor, c.log;
      items, visits, r := ChangeAndAsk(c, it, r, items, visits, rest, j, whole);
      forall k | |old(c.log)| <= k < |c.log| ensures fresh(c.log[k]) {
        assert k < |was| ==> c.log[k] == was[k];
      }
      j, rest := i, Rest(rest);
    }
    SplitsDone(whole, visits, c.Rows(), j, rest, scans);
  }

  method FirstAnswer<V>(c: Collection<V>, ghost script: seq<seq<Op<V>>>) returns (it: Iterator<V>, r: Result<V>)
    requires c.Valid()
    ensures fresh(it)
    ensures var scans := c.meta.Scans();
      Answered(c, it, r, Walk(c.Rows(), -1, script, scans), [], [], -1, script, scans)
  {
    it := new Iterator<V>(c);
    r := it.Next();
    WalkStarts(c, if r.Done? then null else it.l, script);
  }

  /** The changes after one entry, and the request for the next. */
  method ChangeAndAsk<V>(c: Collection<V>, it: Iterator<V>, r: Result<V>, items: seq<(Key, V)>,
                         ghost visits: seq<Visit<V>>,
                         script: seq<seq<Op<V>>>, ghost cursor: int, ghost whole: (seq<Visit<V>>, seq<Row<V>>))
    returns (items': seq<(Key, V)>, ghost visits': seq<Visit<V>>, r': Result<V>)
    requires r.Item? && Answered(c, it, r, whole, visits, items, cursor, script, c.meta.Scans())
    modifies c, c.meta, c.log, it
    ensures c.Extended() && (script == [] ==> c.log == old(c.log))
    ensures cursor < old(it.cursor) < |c.log|
    ensures Answered(c, it, r', whole, visits', items', old(it.cursor), Rest(script), old(c.meta.Scans()))
  {
    SplitsNext(whole, visits, c.Rows(), cursor, script, c.meta.Scans());
    items', visits' := items + [(r.key, r.value)], visits + [Visit(it.cursor, r.key, r.value, c.Rows())];
    c.Run(Changes(script));
    assert it.Valid();
    r' := it.Next();
  }
}
