/** The keys of the core-js Map and Set, and the hidden meta number that makes an object key hashable
    (bundle module Z6vF). */
module Keys {

  /** A collection key.  `Prim` is a number, boolean, null or undefined in its printed form.  `Obj` is an
      object: its identity, and the primitive keys that JavaScript's `==` treats as equal to it. */
  datatype Key = Str(text: string) | Prim(text: string) | Sym(id: nat) | Obj(id: nat, looks: set<Key>)

  /** What `fastKey` answers: a property name usable in the index, or "F" (not indexable), or "E" (absent). */
  datatype FastKey = S(text: string) | P(text: string) | Symbol(id: nat) | O(meta: nat) | F | E

  function NameOf(k: Key, ids: map<Key, nat>, sealed: set<Key>): FastKey
  {
    match k
    case Str(s) => S(s)
    case Prim(s) => P(s)
    case Sym(n) => Symbol(n)
    case Obj(_, _) => if k in ids then O(ids[k]) else if k in sealed then F else E
  }

  /** The meta numbers handed out so far.  They are stored as a hidden property of each object. */
  class MetaStore {
    var ids: map<Key, nat>
    var issued: nat
    var sealed: set<Key>  // the objects that are no longer extensible

    ghost predicate Valid()
      reads this
    {
      && (forall k :: k in ids ==> k.Obj? && ids[k] <= issued)
      && (forall k, k' :: k in ids && k' in ids && ids[k] == ids[k'] ==> k == k')
    }

    constructor ()
      ensures Valid() && ids == map[] && sealed == {}
    {
      ids, issued, sealed := map[], 0, {};
    }

    /** The objects that `fastKey` calls "F": no meta number, and no way to add one. */
    function Scans(): set<Key>
      reads this
    {
      sealed - ids.Keys
    }

    /** `fastKey` without permission to create a meta number. */
    function Peek(k: Key): FastKey
      reads this
    {
      NameOf(k, ids, sealed)
    }

    method FastKeyOf(k: Key, create: bool) returns (f: FastKey)
      requires Valid()
      modifies this
      ensures Valid() && Grows()
      ensures f == (if create then Peek(k) else old(Peek(k)))
      ensures create ==> f != E
      ensures !create ==> ids == old(ids)
      ensures sealed == old(sealed) && Scans() == old(Scans())
    {
      if k.Obj? && k !in ids {
        if k in sealed {
          return F;
        }
        if !create {
          return E;
        }
        issued := issued + 1;
        ids := ids[k := issued];
      }
      f := Peek(k);
    }

    /** `Object.preventExtensions` on a key object, done by the program that owns it. */
    method PreventExtensions(k: Key)
      requires Valid() && k.Obj?
      modifies this
      ensures Valid() && Grows() && sealed == old(sealed) + {k} && ids == old(ids)
    {
      sealed := sealed + {k};
    }

    /** Meta numbers stay, and an object that was not extensible and had none never gets one. */
    twostate predicate Grows()
      reads this
    {
      && old(ids.Keys) <= ids.Keys && (forall k :: k in old(ids) ==> ids[k] == old(ids[k]))
      && old(sealed) <= sealed
      && old(Scans()) <= Scans()
    }

    /** An object is looked up by scanning exactly if it has no meta number and can get none, and is known to be absent
        exactly if it has none but could get one; every other key has a name in the index. */
    lemma PeekKinds(k: Key)
      ensures Peek(k) == F <==> k.Obj? && k in Scans()
      ensures Peek(k) == E <==> k.Obj? && k !in ids && k !in sealed
      ensures k.Obj? && k in ids ==> Peek(k) == O(ids[k])
    {
    }

    /** Distinct keys that can be indexed get distinct index names. */
    lemma PeekInjective(a: Key, b: Key)
      requires Valid() && Peek(a) == Peek(b) && Peek(a) != F && Peek(a) != E
      ensures a == b
    {
    }
  }
}

/** The ordered map the collection is meant to be, with its deleted rows kept, so that "where an iterator
    stands" is a row number. */
module Ledger {
  import opened Keys

  datatype Row<V> = Row(key: Key, value: V, live: bool)

  /** Does an entry with key `a` answer a lookup of `k`?  `scans` are the objects looked up by linear scan,
      whose comparison is JavaScript's `==`. */
  predicate Matches(a: Key, k: Key, scans: set<Key>): (m: bool)
    ensures !k.Obj? || a.Obj? || k !in scans ==> m == (a == k)
  {
    a == k || (k in scans && k.Obj? && !a.Obj? && a in k.looks)
  }

  /** The first live row answering a lookup of `k`; the number of rows when there is none. */
  function Find<V>(rows: seq<Row<V>>, k: Key, scans: set<Key>): (i: nat)
    ensures i <= |rows|
    ensures i < |rows| ==> rows[i].live && Matches(rows[i].key, k, scans)
    ensures forall j | 0 <= j < i :: rows[j].live ==> !Matches(rows[j].key, k, scans)
  {
    if rows == [] then 0
    else if rows[0].live && Matches(rows[0].key, k, scans) then 0
    else 1 + Find(rows[1..], k, scans)
  }

  /** The first live row after row `cursor` (-1 to start); the number of rows when there is none. */
  function Next<V>(rows: seq<Row<V>>, cursor: int): (i: nat)
    requires -1 <= cursor < |rows|
    ensures cursor < i <= |rows|
    ensures i < |rows| ==> rows[i].live
    ensures forall j | cursor < j < i :: !rows[j].live
    decreases |rows| - cursor
  {
    if cursor + 1 == |rows| || rows[cursor + 1].live then cursor + 1 else Next(rows, cursor + 1)
  }

  function Set<V>(rows: seq<Row<V>>, k: Key, v: V, scans: set<Key>): seq<Row<V>>
  {
    var i := Find(rows, k, scans);
    if i < |rows| then rows[i := rows[i].(value := v)] else rows + [Row(k, v, true)]
  }

  /** The row at `i` is no longer live. */
  function Buried<V>(rows: seq<Row<V>>, i: nat): seq<Row<V>>
    requires i < |rows|
  {
    rows[i := rows[i].(live := false)]
  }

  function Delete<V>(rows: seq<Row<V>>, k: Key, scans: set<Key>): seq<Row<V>>
  {
    var i := Find(rows, k, scans);
    if i < |rows| then Buried(rows, i) else rows
  }

  function Clear<V>(rows: seq<Row<V>>): seq<Row<V>>
  {
    seq(|rows|, i requires 0 <= i < |rows| => rows[i].(live := false))
  }

  /** A change made by a callback while the collection is being walked. */
  datatype Op<V> = SetOp(k: Key, v: V) | DeleteOp(k: Key) | ClearOp

  function Apply<V>(rows: seq<Row<V>>, op: Op<V>, scans: set<Key>): seq<Row<V>>
  {
    match op
    case SetOp(k, v) => Set(rows, k, v, scans)
    case DeleteOp(k) => Delete(rows, k, scans)
    case ClearOp => Clear(rows)
  }

  function ApplyAll<V>(rows: seq<Row<V>>, ops: seq<Op<V>>, scans: set<Key>): seq<Row<V>>
    decreases |ops|
  {
    if ops == [] then rows else ApplyAll(Apply(rows, ops[0], scans), ops[1..], scans)
  }

  /** Rows are never lost, reordered or revived, and keep their keys. */
  ghost predicate Later<V>(rows: seq<Row<V>>, rows': seq<Row<V>>)
  {
    |rows| <= |rows'| && forall j | 0 <= j < |rows| :: rows'[j].key == rows[j].key && (rows'[j].live ==> rows[j].live)
  }

  lemma {:induction false} ApplyAllLater<V>(rows: seq<Row<V>>, ops: seq<Op<V>>, scans: set<Key>)
    ensures Later(rows, ApplyAll(rows, ops, scans))
    decreases |ops|
  {
    if ops != [] {
      ApplyAllLater(Apply(rows, ops[0], scans), ops[1..], scans);
    }
  }

  /** One callback of a walk: its row, its arguments, and all rows as they are then. */
  datatype Visit<V> = Visit(row: nat, key: Key, value: V, rows: seq<Row<V>>)

  /** The changes that the next callback makes, and what is left of the script; callbacks after its end make none. */
  function Changes<V>(script: seq<seq<Op<V>>>): seq<Op<V>>
  {
    if script == [] then [] else script[0]
  }

  function Rest<V>(script: seq<seq<Op<V>>>): seq<seq<Op<V>>>
  {
    if script == [] then [] else script[1..]
  }

  /** A walk that stands on row `cursor` and whose next callbacks make the changes in `script`. */
  function Walk<V>(rows: seq<Row<V>>, cursor: int, script: seq<seq<Op<V>>>, scans: set<Key>)
      : (r: (seq<Visit<V>>, seq<Row<V>>))
    requires -1 <= cursor < |rows|
    decreases |script|, |rows| - cursor
  {
    var i := Next(rows, cursor);
    if i == |rows| then ([], rows)
    else
      ApplyAllLater(rows, Changes(script), scans);
      var rest := Walk(ApplyAll(rows, Changes(script), scans), i, Rest(script), scans);
      ([Visit(i, rows[i].key, rows[i].value, rows)] + rest.0, rest.1)
  }

  /** The visits made so far and the walk still to come. */
  ghost predicate Splits<V>(whole: (seq<Visit<V>>, seq<Row<V>>), visits: seq<Visit<V>>, rows: seq<Row<V>>, cursor: int,
                            script: seq<seq<Op<V>>>, scans: set<Key>)
  {
    -1 <= cursor < |rows| &&
    var rest := Walk(rows, cursor, script, scans); whole == (visits + rest.0, rest.1)
  }

  lemma SplitsStart<V>(rows: seq<Row<V>>, script: seq<seq<Op<V>>>, scans: set<Key>)
    ensures Splits(Walk(rows, -1, script, scans), [], rows, -1, script, scans)
  {
    var rest := Walk(rows, -1, script, scans);
    assert [] + rest.0 == rest.0;
  }

  lemma SplitsDone<V>(whole: (seq<Visit<V>>, seq<Row<V>>), visits: seq<Visit<V>>, rows: seq<Row<V>>, cursor: int,
                      script: seq<seq<Op<V>>>, scans: set<Key>)
    requires Splits(whole, visits, rows, cursor, script, scans) && Next(rows, cursor) == |rows|
    ensures whole == (visits, rows)
  {
    assert visits + [] == visits;
  }

  lemma SplitsNext<V>(whole: (seq<Visit<V>>, seq<Row<V>>), visits: seq<Visit<V>>, rows: seq<Row<V>>, cursor: int,
                      script: seq<seq<Op<V>>>, scans: set<Key>)
    requires Splits(whole, visits, rows, cursor, script, scans)
    requires Next(rows, cursor) < |rows|
    ensures var i := Next(rows, cursor);
      var v := Visit(i, rows[i].key, rows[i].value, rows);
      && Calls(visits + [v]) == Calls(visits) + [(v.key, v.value)]
      && Splits(whole, visits + [v], ApplyAll(rows, Changes(script), scans), i, Rest(script), scans)
  {
    var i := Next(rows, cursor);
    var v := Visit(i, rows[i].key, rows[i].value, rows);
    ApplyAllLater(rows, Changes(script), scans);
    var rest := Walk(rows, cursor, script, scans);
    assert visits + rest.0 == (visits + [v]) + rest.0[1..];
  }

  /** What the first `a` callbacks of a walk change, in order. */
  function ChangesUpTo<V>(script: seq<seq<Op<V>>>, a: nat): seq<Op<V>>
  {
    if a == 0 then [] else Changes(script) + ChangesUpTo(Rest(script), a - 1)
  }

  lemma FirstOpOfConcat<V>(rows: seq<Row<V>>, ops: seq<Op<V>>, more: seq<Op<V>>, scans: set<Key>)
    requires ops != []
    ensures ApplyAll(rows, ops + more, scans) == ApplyAll(Apply(rows, ops[0], scans), ops[1..] + more, scans)
  {
    assert (ops + more)[0] == ops[0] && (ops + more)[1..] == ops[1..] + more;
  }

  lemma {:induction false} ApplyAllConcat<V>(rows: seq<Row<V>>, ops: seq<Op<V>>, more: seq<Op<V>>, scans: set<Key>)
    ensures ApplyAll(rows, ops + more, scans) == ApplyAll(ApplyAll(rows, ops, scans), more, scans)
    decreases |ops|
  {
    if ops == [] {
      assert ops + more == more;
    } else {
      var next := Apply(rows, ops[0], scans);
      ApplyAllConcat(next, ops[1..], more, scans);
      FirstOpOfConcat(rows, ops, more, scans);
    }
  }

  /** At every callback of a walk, and at its end, all changes that the callbacks before made have been made, and no
      others. */
  lemma {:induction false} WalkChanges<V>(rows: seq<Row<V>>, cursor: int, script: seq<seq<Op<V>>>, scans: set<Key>,
                                          a: nat)
    requires -1 <= cursor < |rows| && a <= |Walk(rows, cursor, script, scans).0|
    ensures var (visits, end) := Walk(rows, cursor, script, scans);
      (if a < |visits| then visits[a].rows else end) == ApplyAll(rows, ChangesUpTo(script, a), scans)
    decreases a
  {
    if a > 0 {
      ApplyAllLater(rows, Changes(script), scans);
      var next, i := ApplyAll(rows, Changes(script), scans), Next(rows, cursor);
      var rest := Walk(next, i, Rest(script), scans);
      assert Walk(rows, cursor, script, scans) == ([Visit(i, rows[i].key, rows[i].value, rows)] + rest.0, rest.1);
      WalkChanges(next, i, Rest(script), scans, a - 1);
      ApplyAllConcat(rows, Changes(script), ChangesUpTo(Rest(script), a - 1), scans);
    }
  }

  ghost predicate NoneLive<V>(rows: seq<Row<V>>, lo: int, hi: int)
  {
    forall j | 0 <= j < |rows| && lo < j < hi :: !rows[j].live
  }

  /** From row `cursor` on, every callback is for a row that is live then and further on than all before it,
      with no live row passed over; and at the end no live row is left further on. */
  ghost predicate Fair<V>(visits: seq<Visit<V>>, cursor: int, end: seq<Row<V>>)
  {
    if visits == [] then NoneLive(end, cursor, |end|)
    else
      var Visit(i, k, v, rows) := visits[0];
      && cursor < i < |rows| && rows[i] == Row(k, v, true) && NoneLive(rows, cursor, i)
      && Later(rows, end)
      && Fair(visits[1..], i, end)
  }

  lemma {:induction false} WalkFair<V>(rows: seq<Row<V>>, cursor: int, script: seq<seq<Op<V>>>, scans: set<Key>)
    requires -1 <= cursor < |rows|
    ensures var (visits, end) := Walk(rows, cursor, script, scans); Later(rows, end) && Fair(visits, cursor, end)
    decreases |script|, |rows| - cursor
  {
    var i := Next(rows, cursor);
    if i < |rows| {
      ApplyAllLater(rows, Changes(script), scans);
      WalkFair(ApplyAll(rows, Changes(script), scans), i, Rest(script), scans);
    }
  }

  /** Every entry that is still there when a fair walk ends was visited, and exactly once. */
  lemma {:induction false} FairComplete<V>(visits: seq<Visit<V>>, cursor: int, end: seq<Row<V>>, i: nat)
    requires Fair(visits, cursor, end) && i < |end| && end[i].live
    ensures (multiset(VisitedRows(visits)))[i] == if cursor < i then 1 else 0
  {
    if visits != [] {
      assert VisitedRows(visits) == [visits[0].row] + VisitedRows(visits[1..]);
      FairComplete(visits[1..], visits[0].row, end, i);
    }
  }

  function Calls<V>(visits: seq<Visit<V>>): seq<(Key, V)>
  {
    seq(|visits|, a requires 0 <= a < |visits| => (visits[a].key, visits[a].value))
  }

  function VisitedRows<V>(visits: seq<Visit<V>>): seq<nat>
  {
    seq(|visits|, a requires 0 <= a < |visits| => visits[a].row)
  }
}
