/** `Chartist.Svg.Path`: a list of path elements with a cursor at which new elements go in. */
module SvgPaths {
  import opened Numerals
  import opened PathText
  import opened Sequences

  datatype Datum<D> = NoData | Data(value: D)

  datatype Element<D> = Element(raw: Raw, data: Datum<D>)

  function Raws<D>(es: seq<Element<D>>): (rs: seq<Raw>)
    ensures |rs| == |es| && forall i | 0 <= i < |es| :: rs[i] == es[i].raw
  {
    seq(|es|, i requires 0 <= i < |es| => es[i].raw)
  }

  /** Elements as `parse` makes them: with no data. */
  function Bare<D>(rs: seq<Raw>): (es: seq<Element<D>>)
    ensures |es| == |rs| && Raws(es) == rs && forall e | e in es :: e.data == NoData
  {
    seq(|rs|, i requires 0 <= i < |rs| => Element(rs[i], NoData))
  }

  /** A described command with all its parameters. */
  predicate IsDescribed<D>(e: Element<D>)
  {
    Arity(e.raw.command) == Ok(|e.raw.params|)
  }

  lemma {:induction false} ReadDescribed(chunks: seq<seq<string>>)
    requires forall i | 0 <= i < |chunks| :: chunks[i] != []
    ensures ReadElements(chunks).Ok? ==> forall r | r in ReadElements(chunks).value ::
            Arity(r.command) == Ok(|r.params|)
  {
    if chunks != [] {
      ReadDescribed(chunks[1..]);
    }
  }

  lemma ParsedDescribed(path: string)
    ensures ParseText(path).Ok? ==> forall r | r in ParseText(path).value :: Arity(r.command) == Ok(|r.params|)
  {
    var tokens := Split(SpaceDigitLetter(SpaceLetterDigit(path)));
    ChunksNonempty([], tokens);
    if Chunks([], tokens).Ok? {
      var cs := Chunks([], tokens).value;
      ReadDescribed(WithoutClosing(cs));
    }
  }

  function Upper(c: char): char
  {
    if 'a' <= c <= 'z' then c - 'a' + 'A' else c
  }

  function UpperCase(s: string): string
  {
    seq(|s|, i requires 0 <= i < |s| => Upper(s[i]))
  }

  function Lower(c: char): char
  {
    if 'A' <= c <= 'Z' then c - 'A' + 'a' else c
  }

  function LowerCase(s: string): string
  {
    seq(|s|, i requires 0 <= i < |s| => Lower(s[i]))
  }

  /** The letters that the commands have. */
  lemma CommandLetters()
    ensures UpperCase("M") == "M" && UpperCase("L") == "L" && UpperCase("C") == "C" && UpperCase("A") == "A"
    ensures LowerCase("M") == "m" && LowerCase("L") == "l" && LowerCase("C") == "c" && LowerCase("A") == "a"
  {}

  /** `es` cut before every `command` that does not come first in a piece. */
  function Pieces<D>(es: seq<Element<D>>, command: string): (pieces: seq<seq<Element<D>>>)
    ensures pieces != []
  {
    if es == [] then [[]]
    else
      NextPieces(Pieces(es[..|es| - 1], command), es[|es| - 1], command)
  }

  function NextPieces<D>(pieces: seq<seq<Element<D>>>, e: Element<D>, command: string): (next: seq<seq<Element<D>>>)
    requires pieces != []
    ensures next != []
  {
    var last := |pieces| - 1;
    if e.raw.command == command && pieces[last] != [] then pieces + [[e]] else pieces[last := pieces[last] + [e]]
  }

  /** Nothing but the first element of a piece is `command`, and every piece after the first starts with it. */
  predicate CutAt<D>(pieces: seq<seq<Element<D>>>, command: string)
  {
    && (forall i, j | 0 <= i < |pieces| && 0 < j < |pieces[i]| :: pieces[i][j].raw.command != command)
    && (forall i | 0 < i < |pieces| :: pieces[i] != [] && pieces[i][0].raw.command == command)
    && (|pieces| > 1 ==> pieces[0] != [])
  }

  lemma CutAtStep<D>(pieces: seq<seq<Element<D>>>, e: Element<D>, command: string)
    requires pieces != [] && CutAt(pieces, command)
    ensures CutAt(NextPieces(pieces, e, command), command)
  {}

  lemma PiecesStep<D>(es: seq<Element<D>>, n: nat, command: string)
    requires n < |es|
    ensures Pieces(es[..n + 1], command) == NextPieces(Pieces(es[..n], command), es[n], command)
  {
    assert es[..n + 1][..n] == es[..n];
  }

  /** Splitting loses nothing, keeps the order and cuts exactly at the command; joining is its inverse. */
  lemma {:induction false} PiecesSplit<D>(es: seq<Element<D>>, command: string)
    ensures Flat(Pieces(es, command)) == es
    ensures CutAt(Pieces(es, command), command)
  {
    if es == [] {
      assert Flat<Element<D>>([[]][..0]) == [];
    } else {
      var n := |es| - 1;
      PiecesSplit(es[..n], command);
      var pieces := Pieces(es[..n], command);
      CutAtStep(pieces, es[n], command);
      FlatExtended(pieces, es[n]);
      FlatAppended(pieces, [es[n]]);
      assert es[..n] + [es[n]] == es;
    }
  }

  class SvgPath<D> {
    var pathElements: seq<Element<D>>
    var pos: nat
    const close: bool
    const accuracy: nat

    ghost predicate Valid()
      reads this
    {
      pos <= |pathElements| && accuracy > 0 && forall e | e in pathElements :: IsDescribed(e)
    }

    constructor (close: bool, accuracy: nat)
      requires accuracy > 0
      ensures Valid() && pathElements == [] && pos == 0 && this.close == close && this.accuracy == accuracy
    {
      this.close, this.accuracy, pathElements, pos := close, accuracy, [], 0;
    }

    method Position(p: int)
      requires Valid()
      modifies this`pos
      ensures Valid()
      ensures pos as int == if p < 0 then 0 else if p > |pathElements| then |pathElements| else p
    {
      var capped := if |pathElements| < p then |pathElements| else p;
      pos := if capped < 0 then 0 else capped;
    }

    /** Takes out what lies from the cursor on, `count` elements at most. */
    method Remove(count: int)
      requires Valid()
      modifies this`pathElements
      ensures Valid()
      ensures count <= 0 ==> pathElements == old(pathElements)
      ensures count > 0 ==> pathElements[..pos] == old(pathElements)[..pos]
      ensures count > 0 ==>
                pathElements[pos..]
                == if pos + count <= |old(pathElements)| then old(pathElements)[pos + count..] else []
    {
      var n := if count < 0 then 0 else count;
      var end := if pos + n > |pathElements| then |pathElements| else pos + n;
      pathElements := pathElements[..pos] + pathElements[end..];
    }

    /** Puts an element in at the cursor and moves the cursor behind it. */
    method Insert(command: string, params: seq<Num>, relative: bool, data: Datum<D>)
      requires Valid()
      requires command == "M" || command == "L" || command == "C" || command == "A"
      requires Arity(command) == Ok(|params|)
      modifies this
      ensures Valid()
      ensures pos == old(pos) + 1
      ensures pathElements == old(pathElements)[..old(pos)]
        + [Element(Raw(if relative then LowerCase(command) else UpperCase(command), params), data)]
          + old(pathElements)[old(pos)..]
    {
      CommandLetters();
      var e := Element(Raw(if relative then LowerCase(command) else UpperCase(command), params), data);
      pathElements := pathElements[..pos] + [e] + pathElements[pos..];
      pos := pos + 1;
    }

    method Move(x: Num, y: Num, relative: bool, data: Datum<D>)
      requires Valid()
      modifies this
      ensures Valid() && pos == old(pos) + 1
      ensures pathElements == old(pathElements)[..old(pos)]
        + [Element(Raw(if relative then "m" else "M", [x, y]), data)] + old(pathElements)[old(pos)..]
    {
      CommandLetters();
      Insert("M", [x, y], relative, data);
    }

    method Line(x: Num, y: Num, relative: bool, data: Datum<D>)
      requires Valid()
      modifies this
      ensures Valid() && pos == old(pos) + 1
      ensures pathElements == old(pathElements)[..old(pos)]
        + [Element(Raw(if relative then "l" else "L", [x, y]), data)] + old(pathElements)[old(pos)..]
    {
      CommandLetters();
      Insert("L", [x, y], relative, data);
    }

    method Curve(x1: Num, y1: Num, x2: Num, y2: Num, x: Num, y: Num, relative: bool, data: Datum<D>)
      requires Valid()
      modifies this
      ensures Valid() && pos == old(pos) + 1
      ensures pathElements == old(pathElements)[..old(pos)]
        + [Element(Raw(if relative then "c" else "C", [x1, y1, x2, y2, x, y]), data)] + old(pathElements)[old(pos)..]
    {
      CommandLetters();
      Insert("C", [x1, y1, x2, y2, x, y], relative, data);
    }

    method Arc(rx: Num, ry: Num, xAr: Num, lAf: Num, sf: Num, x: Num, y: Num, relative: bool, data: Datum<D>)
      requires Valid()
      modifies this
      ensures Valid() && pos == old(pos) + 1
      ensures pathElements == old(pathElements)[..old(pos)]
        + [Element(Raw(if relative then "a" else "A", [rx, ry, xAr, lAf, sf, x, y]), data)]
          + old(pathElements)[old(pos)..]
    {
      CommandLetters();
      Insert("A", [rx, ry, xAr, lAf, sf, x, y], relative, data);
    }

    function Stringify(): string
      requires Valid()
      reads this
    {
      PathText.Stringify(Raws(pathElements), close, accuracy)
    }

    /** Inserts what it reads at the cursor and moves the cursor behind it; a text it cannot read changes nothing. */
    method Parse(path: string) returns (ok: bool)
      requires Valid()
      modifies this
      ensures Valid()
      ensures ok <==> ParseText(path).Ok?
      ensures ok ==>
        && pathElements == old(pathElements)[..old(pos)] + Bare(ParseText(path).value) + old(pathElements)[old(pos)..]
        && pos == old(pos) + |ParseText(path).value|
      ensures !ok ==> pathElements == old(pathElements) && pos == old(pos)
    {
      var read := ParseText(path);
      if read.TypeError? {
        return false;
      }
      ParsedDescribed(path);
      var elements: seq<Element<D>> := Bare(read.value);
      forall e | e in elements ensures IsDescribed(e) {
        assert e.raw in Raws(elements);
      }
      pathElements := pathElements[..pos] + elements + pathElements[pos..];
      pos := pos + |elements|;
      ok := true;
    }

    method Append(e: Element<D>)
      requires Valid() && IsDescribed(e)
      modifies this`pathElements
      ensures Valid() && pathElements == old(pathElements) + [e]
    {
      pathElements := pathElements + [e];
    }

    /** Cuts the path before every `command`, in upper case; the new paths take the default options. */
    method SplitByCommand(command: string) returns (split: seq<SvgPath<D>>)
      requires Valid()
      ensures |split| == |Pieces(pathElements, UpperCase(command))|
      ensures forall i | 0 <= i < |split| ::
        fresh(split[i]) && split[i].Valid() && split[i].pathElements == Pieces(pathElements, UpperCase(command))[i]
    {
      var c := UpperCase(command);
      var path := new SvgPath(false, DEFAULT_ACCURACY);
      split := [path];
      for i := 0 to |pathElements|
        invariant Apart(split) && Holding(split, Pieces(pathElements[..i], c)) && forall p | p in split :: fresh(p)
      {
        assert pathElements[i] in pathElements && split[|split| - 1] in split;
        PiecesStep(pathElements, i, c);
        split := AddTo(split, pathElements[i], c, Pieces(pathElements[..i], c));
      }
      assert pathElements[..|pathElements|] == pathElements;
      assert forall i | 0 <= i < |split| :: split[i] in split;
    }
  }

  ghost predicate Apart<D>(split: seq<SvgPath<D>>)
  {
    forall k, l | 0 <= k < l < |split| :: split[k] != split[l]
  }

  /** The paths hold the pieces. */
  ghost predicate Holding<D>(split: seq<SvgPath<D>>, pieces: seq<seq<Element<D>>>)
    reads split
  {
    |split| == |pieces| && forall k | 0 <= k < |split| :: split[k].Valid() && split[k].pathElements == pieces[k]
  }

  /** One element more, on the last path or on a new one. */
  method AddTo<D>(split: seq<SvgPath<D>>, e: Element<D>, command: string, ghost pieces: seq<seq<Element<D>>>)
    returns (more: seq<SvgPath<D>>)
    requires split != [] && Apart(split) && Holding(split, pieces) && IsDescribed(e)
    modifies split[|split| - 1]
    ensures Apart(more) && Holding(more, NextPieces(pieces, e, command))
            && forall p | p in more :: p in split || fresh(p)
  {
    var last := split[|split| - 1];
    if e.raw.command == command && |last.pathElements| != 0 {
      var path := new SvgPath(false, DEFAULT_ACCURACY);
      path.Append(e);
      more := split + [path];
    } else {
      last.Append(e);
      more := split;
    }
  }

  const DEFAULT_ACCURACY := 3

  /** What a sequence of paths holds. */
  ghost function Contents<D>(paths: seq<SvgPath<D>>): (c: seq<seq<Element<D>>>)
    reads paths
    ensures |c| == |paths| && forall i | 0 <= i < |paths| :: c[i] == paths[i].pathElements
  {
    seq(|paths|, i requires 0 <= i < |paths| reads paths => paths[i].pathElements)
  }

  /** Reading the printed text of `other` into a path puts the elements of `other` at the cursor, without their data,
      when there is something to read and no element starts with a negative parameter; otherwise it throws, and nothing
      changes. */
  method ReadPrinted<D>(path: SvgPath<D>, other: SvgPath<D>) returns (ok: bool)
    requires path.Valid() && other.Valid() && forall r | r in Raws(other.pathElements) :: Exact(r, other.accuracy)
    modifies path
    ensures path.Valid()
    ensures ok <==>
            (old(other.pathElements) != [] || other.close)
              && forall r | r in Raws(old(other.pathElements)) :: StartsNotNegative(r)
    ensures ok ==>
      && path.pathElements == old(path.pathElements)[..old(path.pos)] + Bare(Raws(old(other.pathElements)))
                              + old(path.pathElements)[old(path.pos)..]
      && path.pos == old(path.pos) + |old(other.pathElements)|
    ensures !ok ==> path.pathElements == old(path.pathElements) && path.pos == old(path.pos)
  {
    PathRoundTrip(Raws(other.pathElements), other.close, other.accuracy);
    ok := path.Parse(other.Stringify());
  }

  /** The elements of all paths in order, in a new path whose cursor stays at the start. */
  method Join<D>(paths: seq<SvgPath<D>>, close: bool, accuracy: nat) returns (joined: SvgPath<D>)
    requires accuracy > 0 && forall p | p in paths :: p.Valid()
    ensures fresh(joined) && joined.Valid() && joined.pos == 0 && joined.close == close && joined.accuracy == accuracy
    ensures joined.pathElements == Flat(Contents(paths))
  {
    joined := new SvgPath(close, accuracy);
    for i := 0 to |paths|
      invariant joined.Valid() && joined.pos == 0
      invariant joined.pathElements == Flat(Contents(paths)[..i])
    {
      assert paths[i] in paths;
      for j := 0 to |paths[i].pathElements|
        invariant joined.Valid() && joined.pos == 0
        invariant joined.pathElements == Flat(Contents(paths)[..i]) + paths[i].pathElements[..j]
      {
        joined.Append(paths[i].pathElements[j]);
      }
      TakeOneMore(Contents(paths), i);
      FlatAppended(Contents(paths)[..i], paths[i].pathElements);
      assert paths[i].pathElements[..|paths[i].pathElements|] == paths[i].pathElements;
    }
    assert Contents(paths)[..|paths|] == Contents(paths);
  }
}
