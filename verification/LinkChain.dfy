/** The doubly linked list of the collection by row numbers: which rows are live, where each row's `p` and `n`
    point (-1 is null), and the two ends.  Removed rows stay, with their stale links. */
module LinkChain {

  datatype Chain = Chain(live: set<nat>, ps: seq<int>, ns: seq<int>, first: int, last: int)
  {
    /** No live row lies strictly between `lo` and `hi`. */
    ghost predicate NoneLive(lo: int, hi: int)
    {
      forall m | m in live :: !(lo < m < hi)
    }

    /** `p` is a row before `j` with no live row in between; -1 stands before the first row. */
    ghost predicate NotOver(p: int, j: int)
    {
      -1 <= p < j && NoneLive(p, j)
    }

    /** `p` is the nearest live row before `j`, or -1. */
    ghost predicate Before(p: int, j: int)
    {
      NotOver(p, j) && (p == -1 || p in live)
    }

    /** `n` is the nearest live row after `j`, or -1. */
    ghost predicate After(n: int, j: int)
    {
      if n == -1 then NoneLive(j, |ps|) else n in live && j < n && NoneLive(j, n)
    }

    /** Live rows are linked to their live neighbours; a removed row's `p` never steps over a live row. */
    ghost predicate Valid()
    {
      && |ns| == |ps|
      && (forall j | j in live :: j < |ps|)
      && (forall j {:trigger ps[j]} | 0 <= j < |ps| :: if j in live then Before(ps[j], j) else NotOver(ps[j], j))
      && (forall j {:trigger ns[j]} | 0 <= j < |ns| :: -1 <= ns[j] < |ns| && (j in live ==> After(ns[j], j)))
      && After(first, -1)
      && Before(last, |ps|)
    }

    /** A new row goes to the end. */
    ghost function Append(): Chain
      requires Valid()
    {
      var k := |ps|;
      Chain(live + {k}, ps + [last], (if last == -1 then ns else ns[last := k]) + [-1],
            if first == -1 then k else first, k)
    }

    lemma AppendValid()
      requires Valid()
      ensures Append().Valid()
    {
    }

    /** Unlinking live row `j` makes its two neighbours point at each other and leaves its own links. */
    ghost function Remove(j: nat): Chain
      requires Valid() && j in live
    {
      var p, n := ps[j], ns[j];
      Chain(live - {j}, if n == -1 then ps else ps[n := p], if p == -1 then ns else ns[p := n],
            if first == j then n else first, if last == j then p else last)
    }

    lemma RemoveValid(j: nat)
      requires Valid() && j in live
      ensures Remove(j).Valid()
    {
      assert Before(ps[j], j) && After(ns[j], j);
      RemoveBack(j);
      RemoveOn(j);
    }

    lemma RemoveBack(j: nat)
      requires Valid() && j in live
      ensures var c := Remove(j);
        && (forall m {:trigger c.ps[m]} | 0 <= m < |ps| ::
              if m in c.live then c.Before(c.ps[m], m) else c.NotOver(c.ps[m], m))
        && c.Before(c.last, |ps|)
    {
      var c := Remove(j);
      assert Before(ps[j], j) && After(ns[j], j);
      forall m | 0 <= m < |ps| ensures if m in c.live then c.Before(c.ps[m], m) else c.NotOver(c.ps[m], m) {
        assert if m in live then Before(ps[m], m) else NotOver(ps[m], m);
      }
    }

    lemma RemoveOn(j: nat)
      requires Valid() && j in live
      ensures var c := Remove(j);
        && (forall m {:trigger c.ns[m]} | 0 <= m < |ns| ::
            -1 <= c.ns[m] < |ns| && (m in c.live ==> c.After(c.ns[m], m)))
        && c.After(c.first, -1)
    {
      assert Before(ps[j], j) && After(ns[j], j);
      forall m | m in Remove(j).live ensures Remove(j).After(Remove(j).ns[m], m) {
        RemoveAfter(j, m);
      }
    }

    lemma RemoveAfter(j: nat, m: nat)
      requires Valid() && j in live && m in live && m != j
      ensures Remove(j).After(Remove(j).ns[m], m)
    {
      assert Before(ps[j], j) && After(ns[j], j) && After(ns[m], m);
    }

    /** `clear` empties the list and cuts the back link of every row that was live. */
    ghost function Clear(): Chain
      requires Valid()
    {
      Chain({}, seq(|ps|, j requires 0 <= j < |ps| => if j in live then -1 else ps[j]), ns, -1, -1)
    }

    lemma ClearValid()
      requires Valid()
      ensures Clear().Valid()
    {
    }

    /** The row reached from `j` by following `p` as long as the row is removed. */
    ghost function WalkBack(j: int): int
      requires Valid() && -1 <= j < |ps|
      decreases j
    {
      if j == -1 || j in live then j else assert NotOver(ps[j], j); WalkBack(ps[j])
    }

    /** From any row, removed or not, the walk reaches the nearest live row at or before it. */
    lemma {:induction false} WalkBackNearest(j: int)
      requires Valid() && -1 <= j < |ps|
      ensures Before(WalkBack(j), j + 1)
      decreases j
    {
      if j != -1 && j !in live {
        assert NotOver(ps[j], j);
        WalkBackNearest(ps[j]);
      }
    }
  }
}
