/** The text form of SVG paths: printing (`stringify`) and parsing (`parse`) of `Chartist.Svg.Path`. */
module PathText {
  import opened Numerals
  import opened Sequences

  datatype Result<T> = TypeError | Ok(value: T)

  predicate IsLetter(c: char)
  {
    'A' <= c <= 'Z' || 'a' <= c <= 'z'
  }

  /** The characters between which `split` cuts: white space and commas. */
  predicate IsSeparator(c: char)
  {
    c == ' ' || c == ',' || '\t' <= c <= '\r' || c == '\U{A0}' || c == '\U{1680}' || '\U{2000}' <= c <= '\U{200A}'
    || c == '\U{2028}' || c == '\U{2029}' || c == '\U{202F}' || c == '\U{205F}' || c == '\U{3000}' || c == '\U{FEFF}'
  }

  predicate HasLetter(s: string)
  {
    exists i | 0 <= i < |s| :: IsLetter(s[i])
  }

  /** How many parameters a command has (`elementDescriptions`); anything else is not described. */
  function Arity(command: string): Result<nat>
  {
    if command == "M" || command == "m" || command == "L" || command == "l" then Ok(2)
    else if command == "C" || command == "c" then Ok(6)
    else if command == "A" || command == "a" then Ok(7)
    else TypeError
  }

  datatype Raw = Raw(command: string, params: seq<Num>)

  // ---- printing ----

  function Upscaled(v: real, a: nat): real
  {
    if a == 0 then v else 10.0 * Upscaled(v, a - 1)
  }

  /** Math.round(v * 10^a). */
  function Rounded(v: real, a: nat): int
  {
    (Upscaled(v, a) + 0.5).Floor
  }

  function NumText(p: Num, a: nat): string
  {
    if p.NaN? then "NaN" else Text(Rounded(p.value, a), a)
  }

  function Join(ts: seq<string>): string
  {
    if ts == [] then "" else if |ts| == 1 then ts[0] else ts[0] + "," + Join(ts[1..])
  }

  function ParamTexts(e: Raw, a: nat): (ts: seq<string>)
    ensures |ts| == |e.params|
  {
    seq(|e.params|, i requires 0 <= i < |e.params| => NumText(e.params[i], a))
  }

  function ElementText(e: Raw, a: nat): string
  {
    e.command + Join(ParamTexts(e, a))
  }

  function Stringify(es: seq<Raw>, close: bool, a: nat): string
  {
    if es == [] then (if close then "Z" else "") else ElementText(es[0], a) + Stringify(es[1..], close, a)
  }

  // ---- parsing ----

  /** `replace(/([A-Za-z])([0-9])/g, '$1 $2')`: no two matches overlap, a letter not being a digit. */
  function SpaceLetterDigit(s: string): string
  {
    if |s| < 2 then s
    else [s[0]] + (if IsLetter(s[0]) && IsDigit(s[1]) then " " else "") + SpaceLetterDigit(s[1..])
  }

  /** `replace(/([0-9])([A-Za-z])/g, '$1 $2')`. */
  function SpaceDigitLetter(s: string): string
  {
    if |s| < 2 then s
    else [s[0]] + (if IsDigit(s[0]) && IsLetter(s[1]) then " " else "") + SpaceDigitLetter(s[1..])
  }

  function SkipSeparators(s: string): (r: string)
    ensures |r| <= |s|
  {
    if s != "" && IsSeparator(s[0]) then SkipSeparators(s[1..]) else s
  }

  /** `split(/[\s,]+/)`. */
  function Split(s: string): (ts: seq<string>)
    ensures ts != []
    decreases |s|
  {
    if s == "" then [""]
    else if IsSeparator(s[0]) then [""] + Split(SkipSeparators(s))
    else
      var ts := Split(s[1..]);
      [[s[0]] + ts[0]] + ts[1..]
  }

  /** The chunks after one more token: a token with a letter starts a new one. */
  function AddToken(chunks: seq<seq<string>>, token: string): Result<seq<seq<string>>>
  {
    if HasLetter(token) then Ok(chunks + [[token]])
    else if chunks == [] then TypeError
    else Ok(chunks[|chunks| - 1 := chunks[|chunks| - 1] + [token]])
  }

  function Chunks(chunks: seq<seq<string>>, tokens: seq<string>): Result<seq<seq<string>>>
    decreases |tokens|
  {
    if tokens == [] then Ok(chunks)
    else
      var r := AddToken(chunks, tokens[0]);
      if r.TypeError? then TypeError else Chunks(r.value, tokens[1..])
  }

  predicate IsClosing(chunk: seq<string>)
  {
    chunk != [] && (chunk[0] == "Z" || chunk[0] == "z")
  }

  function WithoutClosing(chunks: seq<seq<string>>): seq<seq<string>>
    requires chunks != []
  {
    if IsClosing(chunks[|chunks| - 1]) then chunks[..|chunks| - 1] else chunks
  }

  function ReadElement(chunk: seq<string>): Result<Raw>
    requires chunk != []
  {
    var arity := Arity(chunk[0]);
    if arity.TypeError? then TypeError
    else
      Ok(Raw(chunk[0], seq(arity.value, i requires i >= 0 => if i + 1 < |chunk| then ToNumber(chunk[i + 1]) else NaN)))
  }

  function ReadElements(chunks: seq<seq<string>>): Result<seq<Raw>>
    requires forall i | 0 <= i < |chunks| :: chunks[i] != []
  {
    if chunks == [] then Ok([])
    else
      var e, rest := ReadElement(chunks[0]), ReadElements(chunks[1..]);
      if e.TypeError? || rest.TypeError? then TypeError else Ok([e.value] + rest.value)
  }

  lemma {:induction false} ChunksNonempty(chunks: seq<seq<string>>, tokens: seq<string>)
    requires forall i | 0 <= i < |chunks| :: chunks[i] != []
    ensures Chunks(chunks, tokens).Ok? ==> forall i | 0 <= i < |Chunks(chunks, tokens).value| ::
            Chunks(chunks, tokens).value[i] != []
    ensures Chunks(chunks, tokens).Ok? && (chunks != [] || tokens != []) ==> Chunks(chunks, tokens).value != []
    decreases |tokens|
  {
    if tokens != [] && AddToken(chunks, tokens[0]).Ok? {
      ChunksNonempty(AddToken(chunks, tokens[0]).value, tokens[1..]);
    }
  }

  function ParseText(path: string): Result<seq<Raw>>
  {
    var tokens := Split(SpaceDigitLetter(SpaceLetterDigit(path)));
    var chunks := Chunks([], tokens);
    ChunksNonempty([], tokens);
    if chunks.TypeError? then TypeError else ReadElements(WithoutClosing(chunks.value))
  }

  // ---- reading back what was printed ----

  /** An element as the library makes them: a command with all its parameters, which are numbers. */
  predicate IsElement(e: Raw)
  {
    Arity(e.command) == Ok(|e.params|) && forall i | 0 <= i < |e.params| :: e.params[i].Num?
  }

  /** The first parameter prints without a minus sign. */
  predicate StartsUnsigned(e: Raw, a: nat)
    requires IsElement(e)
  {
    Rounded(e.params[0].value, a) >= 0
  }

  /** The tokens an element comes to: with a minus sign after it, the command stays glued to its first number. */
  function Tokens(e: Raw, a: nat): (ts: seq<string>)
    requires IsElement(e)
    ensures ts != []
  {
    var ts := ParamTexts(e, a);
    if StartsUnsigned(e, a) then [e.command] + ts else [e.command + ts[0]] + ts[1..]
  }

  function AllTokens(es: seq<Raw>, close: bool, a: nat): seq<string>
    requires forall e | e in es :: IsElement(e)
  {
    if es == [] then (if close then ["Z"] else []) else Tokens(es[0], a) + AllTokens(es[1..], close, a)
  }

  predicate NoSeparator(s: string)
  {
    forall i | 0 <= i < |s| :: !IsSeparator(s[i])
  }

  /** The text of an element once spaces are put in. */
  function SpacedText(e: Raw, a: nat): string
    requires IsElement(e)
  {
    if StartsUnsigned(e, a) then e.command + " " + Join(ParamTexts(e, a)) else ElementText(e, a)
  }

  /** What the two replacements make of the whole text. */
  function Spaced(es: seq<Raw>, close: bool, a: nat): string
    requires forall e | e in es :: IsElement(e)
  {
    if es == [] then (if close then "Z" else "")
    else if |es| == 1 && !close then SpacedText(es[0], a)
    else SpacedText(es[0], a) + " " + Spaced(es[1..], close, a)
  }

  lemma {:induction false} SplitCons(t: string, sep: char, rest: string)
    requires NoSeparator(t) && IsSeparator(sep) && rest != "" && !IsSeparator(rest[0])
    ensures Split(t + [sep] + rest) == [t] + Split(rest)
  {
    var s := t + [sep] + rest;
    if t == "" {
      assert s == [sep] + rest && s[1..] == rest;
      assert SkipSeparators(s) == SkipSeparators(rest) == rest;
    } else {
      SplitCons(t[1..], sep, rest);
      assert s[1..] == t[1..] + [sep] + rest;
      SplitLetter(t[0], t[1..] + [sep] + rest);
      assert [t[0]] + t[1..] == t && [t[0]] + (t[1..] + [sep] + rest) == s;
    }
  }

  /** A character that is no separator joins the first token after it. */
  lemma SplitLetter(c: char, s: string)
    requires !IsSeparator(c)
    ensures Split([c] + s) == [[c] + Split(s)[0]] + Split(s)[1..]
  {
    assert ([c] + s)[1..] == s;
  }

  lemma SplitOne(t: string)
    requires NoSeparator(t)
    ensures Split(t) == [t]
  {
    if t != "" {
      SplitOne(t[1..]);
      assert [t[0]] + t[1..] == t;
    }
  }

  /** Joined numerals are split again. */
  lemma {:induction false} SplitJoin(ts: seq<string>)
    requires ts != [] && forall t | t in ts :: IsNumeral(t)
    ensures Split(Join(ts)) == ts
  {
    assert IsNumeral(ts[0]) && NoSeparator(ts[0]);
    if |ts| == 1 {
      SplitOne(ts[0]);
    } else {
      SplitJoin(ts[1..]);
      JoinStarts(ts[1..]);
      SplitCons(ts[0], ',', Join(ts[1..]));
    }
  }

  lemma CommaFirst(t: string, tail: string, rest: string)
    ensures t + "," + tail + " " + rest == t + [','] + (tail + " " + rest)
  {}

  /** And so they are with more text after a space. */
  lemma {:induction false} SplitJoinMore(ts: seq<string>, rest: string)
    requires ts != [] && (forall t | t in ts :: IsNumeral(t)) && rest != "" && !IsSeparator(rest[0])
    ensures Split(Join(ts) + " " + rest) == ts + Split(rest)
  {
    assert IsNumeral(ts[0]) && NoSeparator(ts[0]);
    if |ts| == 1 {
      SplitCons(ts[0], ' ', rest);
    } else {
      var tail := Join(ts[1..]);
      SplitJoinMore(ts[1..], rest);
      JoinStarts(ts[1..]);
      SplitCons(ts[0], ',', tail + " " + rest);
      CommaFirst(ts[0], tail, rest);
      FirstOfConcat(ts, Split(rest));
    }
  }

  lemma {:induction false} JoinStarts(ts: seq<string>)
    requires ts != [] && forall t | t in ts :: IsNumeral(t)
    ensures IsNumeral(ts[0]) && Join(ts) != "" && Join(ts)[0] == ts[0][0] && !IsSeparator(Join(ts)[0])
            && IsDigit(Join(ts)[|Join(ts)| - 1])
    ensures Letterless(Join(ts))
  {
    assert IsNumeral(ts[0]);
    if |ts| > 1 {
      JoinStarts(ts[1..]);
    }
  }

  /** An element's parameters, printed: numerals, as many as the command has. */
  lemma Printed(e: Raw, a: nat)
    requires IsElement(e)
    ensures var ts := ParamTexts(e, a);
      && |ts| == |e.params| >= 2 && (forall t | t in ts :: IsNumeral(t))
      && (ts[0] != "" && IsDigit(ts[0][0]) <==> StartsUnsigned(e, a))
      && (forall i | 0 <= i < |ts| :: ToNumber(ts[i]) == Num(Decimal(Rounded(e.params[i].value, a), a)))
    ensures |e.command| == 1 && IsLetter(e.command[0])
  {
    var ts := ParamTexts(e, a);
    forall i | 0 <= i < |ts|
      ensures IsNumeral(ts[i]) && ToNumber(ts[i]) == Num(Decimal(Rounded(e.params[i].value, a), a))
      ensures IsDigit(ts[i][0]) <==> Rounded(e.params[i].value, a) >= 0
    {
      TextRoundTrip(Rounded(e.params[i].value, a), a);
    }
  }

  lemma {:induction false} LetterDigitConcat(x: string, y: string)
    requires x != "" && y != "" ==> !(IsLetter(x[|x| - 1]) && IsDigit(y[0]))
    ensures SpaceLetterDigit(x + y) == SpaceLetterDigit(x) + SpaceLetterDigit(y)
  {
    if x == "" {
      assert x + y == y;
    } else if y == "" {
      assert x + y == x;
    } else {
      FirstOfConcat(x, y);
      if |x| == 1 {
        assert x == [x[0]];
        LetterDigitCons(x[0], y);
      } else {
        LetterDigitConcat(x[1..], y);
        Associative([x[0]] + (if IsLetter(x[0]) && IsDigit(x[1]) then " " else ""), SpaceLetterDigit(x[1..]),
                    SpaceLetterDigit(y));
      }
    }
  }

  lemma LetterDigitCons(c: char, y: string)
    requires y != "" && !(IsLetter(c) && IsDigit(y[0]))
    ensures SpaceLetterDigit([c] + y) == [c] + SpaceLetterDigit(y)
  {
    assert ([c] + y)[1..] == y && [c] + "" == [c];
  }

  lemma {:induction false} DigitLetterConcat(x: string, y: string)
    requires x != "" && y != ""
    ensures SpaceDigitLetter(x + y) ==
            SpaceDigitLetter(x) + (if IsDigit(x[|x| - 1]) && IsLetter(y[0]) then " " else "") + SpaceDigitLetter(y)
  {
    assert (x + y)[1..] == x[1..] + y;
    if |x| > 1 {
      DigitLetterConcat(x[1..], y);
    } else {
      assert x[1..] + y == y;
    }
  }

  lemma {:induction false} NoLetters(s: string)
    requires Letterless(s)
    ensures SpaceLetterDigit(s) == s && SpaceDigitLetter(s) == s
  {
    if |s| >= 2 {
      NoLetters(s[1..]);
    }
  }

  lemma LetterSpaced(c: char, j: string)
    requires IsLetter(c) && j != "" && SpaceLetterDigit(j) == j
    ensures SpaceLetterDigit([c] + j) == if IsDigit(j[0]) then [c] + " " + j else [c] + j
  {
    var s := [c] + j;
    assert s[1..] == j && s[0] == c && s[1] == j[0];
    if !IsDigit(j[0]) {
      assert [c] + "" == [c];
    }
  }

  lemma LetterKept(c: char, j: string)
    requires IsLetter(c) && j != "" && SpaceDigitLetter(j) == j
    ensures SpaceDigitLetter([c] + j) == [c] + j
  {
    assert ([c] + j)[1..] == j;
    assert [c] + "" == [c];
  }

  lemma SpacedCommand(c: char, j: string)
    requires IsLetter(c) && j != "" && Letterless(j)
    ensures SpaceLetterDigit([c] + j) == if IsDigit(j[0]) then [c] + " " + j else [c] + j
    ensures SpaceDigitLetter([c] + j) == [c] + j
  {
    NoLetters(j);
    LetterSpaced(c, j);
    LetterKept(c, j);
  }

  predicate Letterless(s: string)
  {
    forall i | 0 <= i < |s| :: !IsLetter(s[i])
  }

  lemma SpaceLetterless(j: string)
    requires Letterless(j)
    ensures Letterless(" " + j)
  {}

  /** One element: the first replacement puts a space after the command unless a minus sign follows it; the
      second changes nothing. */
  lemma SpacedElement(e: Raw, a: nat)
    requires IsElement(e)
    ensures SpaceLetterDigit(ElementText(e, a)) == SpacedText(e, a)
    ensures SpaceDigitLetter(SpacedText(e, a)) == SpacedText(e, a)
  {
    Printed(e, a);
    JoinStarts(ParamTexts(e, a));
    assert e.command == [e.command[0]];
    SpacedParts(e.command[0], Join(ParamTexts(e, a)));
  }

  lemma SpacedParts(c: char, j: string)
    requires IsLetter(c) && j != "" && Letterless(j)
    ensures var spaced := if IsDigit(j[0]) then [c] + " " + j else [c] + j;
      SpaceLetterDigit([c] + j) == spaced && SpaceDigitLetter(spaced) == spaced
  {
    SpacedCommand(c, j);
    SpaceLetterless(j);
    SpacedCommand(c, " " + j);
    Associative([c], " ", j);
  }

  lemma ElementEnds(e: Raw, a: nat)
    requires IsElement(e)
    ensures var s := ElementText(e, a); |s| >= 2 && IsLetter(s[0]) && IsDigit(s[|s| - 1])
    ensures var s := SpacedText(e, a); |s| >= 2 && IsLetter(s[0]) && IsDigit(s[|s| - 1])
  {
    Printed(e, a);
    JoinStarts(ParamTexts(e, a));
  }

  lemma {:induction false} SpacedAll(es: seq<Raw>, close: bool, a: nat)
    requires forall e | e in es :: IsElement(e)
    ensures SpaceDigitLetter(SpaceLetterDigit(Stringify(es, close, a))) == Spaced(es, close, a)
    ensures var h := SpaceLetterDigit(Stringify(es, close, a));
      if es == [] && !close then h == "" else h != "" && IsLetter(h[0])
    ensures var s := Stringify(es, close, a); s != "" ==> IsLetter(s[0])
    decreases |es|
  {
    if es != [] {
      var x, y := ElementText(es[0], a), Stringify(es[1..], close, a);
      assert IsElement(es[0]);
      SpacedElement(es[0], a);
      ElementEnds(es[0], a);
      SpacedAll(es[1..], close, a);
      LetterDigitConcat(x, y);
      var h, h' := SpaceLetterDigit(x), SpaceLetterDigit(y);
      if h' == "" {
        assert h + h' == h;
      } else {
        DigitLetterConcat(h, h');
      }
    }
  }

  lemma {:induction false} SplitSpaced(es: seq<Raw>, close: bool, a: nat)
    requires forall e | e in es :: IsElement(e)
    requires es != [] || close
    ensures Split(Spaced(es, close, a)) == AllTokens(es, close, a)
    ensures Spaced(es, close, a) != "" && !IsSeparator(Spaced(es, close, a)[0])
    decreases |es|
  {
    if es == [] {
      SplitOne("Z");
    } else {
      var e := es[0];
      assert IsElement(e);
      ElementEnds(e, a);
      if |es| == 1 && !close {
        SplitElement(e, a, "Z");
        assert AllTokens(es[1..], close, a) == [];
      } else {
        SplitSpaced(es[1..], close, a);
        SplitElement(e, a, Spaced(es[1..], close, a));
      }
    }
  }

  lemma SplitSeparate(c: char, ts: seq<string>, rest: string)
    requires IsLetter(c) && ts != [] && forall t | t in ts :: IsNumeral(t)
    requires rest != "" && !IsSeparator(rest[0])
    ensures Split([c] + " " + Join(ts)) == [[c]] + ts
    ensures Split([c] + " " + Join(ts) + " " + rest) == [[c]] + ts + Split(rest)
  {
    SplitJoin(ts);
    SplitJoinMore(ts, rest);
    JoinStarts(ts);
    var j, more := Join(ts), Join(ts) + " " + rest;
    SplitCons([c], ' ', j);
    SplitCons([c], ' ', more);
    Associative([c] + " ", j, " ");
    Associative([c] + " ", j + " ", rest);
    Associative([[c]], ts, Split(rest));
  }

  lemma SplitGlued(c: char, ts: seq<string>, rest: string)
    requires IsLetter(c) && ts != [] && forall t | t in ts :: IsNumeral(t)
    requires rest != "" && !IsSeparator(rest[0])
    ensures Split([c] + Join(ts)) == [[c] + ts[0]] + ts[1..]
    ensures Split([c] + Join(ts) + " " + rest) == [[c] + ts[0]] + ts[1..] + Split(rest)
  {
    SplitJoin(ts);
    SplitJoinMore(ts, rest);
    var j, more := Join(ts), Join(ts) + " " + rest;
    SplitLetter(c, j);
    SplitLetter(c, more);
    Associative([c], j, " ");
    Associative([c], j + " ", rest);
    FirstOfConcat(ts, Split(rest));
    Associative([[c] + ts[0]], ts[1..], Split(rest));
  }

  lemma SplitElement(e: Raw, a: nat, rest: string)
    requires IsElement(e)
    requires rest != "" && !IsSeparator(rest[0])
    ensures Split(SpacedText(e, a)) == Tokens(e, a)
    ensures Split(SpacedText(e, a) + " " + rest) == Tokens(e, a) + Split(rest)
  {
    Printed(e, a);
    var c, ts := e.command[0], ParamTexts(e, a);
    assert e.command == [c];
    if StartsUnsigned(e, a) {
      SplitSeparate(c, ts, rest);
    } else {
      SplitGlued(c, ts, rest);
      assert SpacedText(e, a) == [c] + Join(ts);
    }
  }

  lemma {:induction false} ChunksConcat(chunks: seq<seq<string>>, ts: seq<string>, us: seq<string>)
    ensures Chunks(chunks, ts + us) ==
            if Chunks(chunks, ts).TypeError? then TypeError else Chunks(Chunks(chunks, ts).value, us)
    decreases |ts|
  {
    if ts == [] {
      assert ts + us == us;
    } else {
      assert (ts + us)[1..] == ts[1..] + us;
      if AddToken(chunks, ts[0]).Ok? {
        ChunksConcat(AddToken(chunks, ts[0]).value, ts[1..], us);
      }
    }
  }

  /** Tokens without letters join the last chunk. */
  lemma {:induction false} ChunksParams(chunks: seq<seq<string>>, last: seq<string>, ts: seq<string>)
    requires forall t | t in ts :: !HasLetter(t)
    ensures Chunks(chunks + [last], ts) == Ok(chunks + [last + ts])
    decreases |ts|
  {
    if ts == [] {
      assert last + ts == last;
    } else {
      assert !HasLetter(ts[0]);
      assert AddToken(chunks + [last], ts[0]).value == chunks + [last + [ts[0]]];
      ChunksParams(chunks, last + [ts[0]], ts[1..]);
      assert last + [ts[0]] + ts[1..] == last + ts;
    }
  }

  lemma ChunksElement(chunks: seq<seq<string>>, e: Raw, a: nat)
    requires IsElement(e)
    ensures Chunks(chunks, Tokens(e, a)) == Ok(chunks + [Tokens(e, a)])
  {
    Printed(e, a);
    var ts := Tokens(e, a);
    assert IsLetter(ts[0][0]);
    assert forall t | t in ts[1..] :: t in ParamTexts(e, a);
    ChunksParams(chunks, [ts[0]], ts[1..]);
    assert [ts[0]] + ts[1..] == ts;
  }

  /** One chunk for each element, and one for the closing Z. */
  function ElementChunks(es: seq<Raw>, close: bool, a: nat): (cs: seq<seq<string>>)
    requires forall e | e in es :: IsElement(e)
    ensures |cs| == |es| + if close then 1 else 0
    ensures forall i | 0 <= i < |es| :: cs[i] == Tokens(es[i], a)
    ensures close ==> cs[|es|] == ["Z"]
  {
    seq(|es|, i requires 0 <= i < |es| && IsElement(es[i]) => Tokens(es[i], a)) + if close then [["Z"]] else []
  }

  lemma ChunksClosing(chunks: seq<seq<string>>, close: bool)
    ensures Chunks(chunks, if close then ["Z"] else []) == Ok(chunks + if close then [["Z"]] else [])
  {
    if close {
      assert IsLetter("Z"[0]);
      assert AddToken(chunks, "Z") == Ok(chunks + [["Z"]]);
      assert ["Z"][1..] == [];
    } else {
      assert chunks + [] == chunks;
    }
  }

  lemma ElementChunksCons(es: seq<Raw>, close: bool, a: nat)
    requires es != [] && forall e | e in es :: IsElement(e)
    ensures IsElement(es[0]) && ElementChunks(es, close, a) == [Tokens(es[0], a)] + ElementChunks(es[1..], close, a)
  {
    assert IsElement(es[0]);
  }

  lemma {:induction false} ChunksAll(chunks: seq<seq<string>>, es: seq<Raw>, close: bool, a: nat)
    requires forall e | e in es :: IsElement(e)
    ensures Chunks(chunks, AllTokens(es, close, a)) == Ok(chunks + ElementChunks(es, close, a))
    decreases |es|
  {
    if es == [] {
      ChunksClosing(chunks, close);
      assert ElementChunks(es, close, a) == if close then [["Z"]] else [];
    } else {
      assert IsElement(es[0]);
      var t, cs := Tokens(es[0], a), ElementChunks(es[1..], close, a);
      ChunksConcat(chunks, t, AllTokens(es[1..], close, a));
      ChunksElement(chunks, es[0], a);
      ChunksAll(chunks + [t], es[1..], close, a);
      ElementChunksCons(es, close, a);
      Associative(chunks, [t], cs);
    }
  }

  /** An element with its parameters rounded to `a` digits. */
  function RoundedElement(e: Raw, a: nat): Raw
    requires IsElement(e)
  {
    Raw(e.command, seq(|e.params|, i requires 0 <= i < |e.params| && e.params[i].Num? =>
      Num(Decimal(Rounded(e.params[i].value, a), a))))
  }

  function RoundedElements(es: seq<Raw>, a: nat): seq<Raw>
    requires forall e | e in es :: IsElement(e)
  {
    seq(|es|, i requires 0 <= i < |es| && IsElement(es[i]) => RoundedElement(es[i], a))
  }

  lemma ReadOne(e: Raw, a: nat)
    requires IsElement(e)
    ensures ReadElement(Tokens(e, a)) == if StartsUnsigned(e, a) then Ok(RoundedElement(e, a)) else TypeError
  {
    Printed(e, a);
    if StartsUnsigned(e, a) {
      ReadParams(e.command, ParamTexts(e, a), RoundedElement(e, a).params);
    } else {
      var ts := ParamTexts(e, a);
      assert IsNumeral(ts[0]);
      assert |e.command + ts[0]| >= 2;
    }
  }

  lemma ReadParams(command: string, ts: seq<string>, params: seq<Num>)
    requires Arity(command) == Ok(|ts|) && |params| == |ts|
    requires forall i | 0 <= i < |ts| :: ToNumber(ts[i]) == params[i]
    ensures ReadElement([command] + ts) == Ok(Raw(command, params))
  {
    assert ReadElement([command] + ts).value.params == params;
  }

  ghost predicate AllUnsigned(es: seq<Raw>, a: nat)
    requires forall e | e in es :: IsElement(e)
  {
    forall i | 0 <= i < |es| :: StartsUnsigned(es[i], a)
  }

  lemma AllUnsignedCons(es: seq<Raw>, a: nat)
    requires es != [] && forall e | e in es :: IsElement(e)
    ensures IsElement(es[0]) && (AllUnsigned(es, a) <==> StartsUnsigned(es[0], a) && AllUnsigned(es[1..], a))
    ensures RoundedElements(es, a) == [RoundedElement(es[0], a)] + RoundedElements(es[1..], a)
  {
    assert IsElement(es[0]);
    assert forall i | 1 <= i < |es| :: es[i] == es[1..][i - 1];
  }

  lemma {:induction false} ReadAll(es: seq<Raw>, a: nat)
    requires forall e | e in es :: IsElement(e)
    ensures ReadElements(ElementChunks(es, false, a))
            == if AllUnsigned(es, a) then Ok(RoundedElements(es, a)) else TypeError
    decreases |es|
  {
    if es == [] {
      assert ElementChunks(es, false, a) == [] && RoundedElements(es, a) == [];
    } else {
      ElementChunksCons(es, false, a);
      ReadOne(es[0], a);
      ReadAll(es[1..], a);
      AllUnsignedCons(es, a);
      FirstOfConcat([Tokens(es[0], a)], ElementChunks(es[1..], false, a));
      assert [] + ElementChunks(es[1..], false, a) == ElementChunks(es[1..], false, a);
    }
  }

  lemma WithoutClosingElements(es: seq<Raw>, close: bool, a: nat)
    requires (es != [] || close) && forall e | e in es :: IsElement(e)
    ensures WithoutClosing(ElementChunks(es, close, a)) == ElementChunks(es, false, a)
  {
    if close {
      assert ElementChunks(es, close, a)[..|es|] == ElementChunks(es, false, a);
    } else {
      Printed(es[|es| - 1], a);
    }
  }

  lemma NothingToParse()
    ensures ParseText("").TypeError?
  {
    assert Split("") == [""] && !HasLetter("");
  }

  /** Parsing what was printed gives the elements back, rounded and without the closing Z, exactly when there is
      something to parse and no element's first parameter prints with a minus sign; otherwise it throws. */
  lemma ParseStringify(es: seq<Raw>, close: bool, a: nat)
    requires forall e | e in es :: IsElement(e)
    ensures ParseText(Stringify(es, close, a)) ==
            if (es != [] || close) && AllUnsigned(es, a) then Ok(RoundedElements(es, a)) else TypeError
  {
    if es == [] && !close {
      NothingToParse();
    } else {
      SpacedAll(es, close, a);
      SplitSpaced(es, close, a);
      ChunksAll([], es, close, a);
      assert [] + ElementChunks(es, close, a) == ElementChunks(es, close, a);
      WithoutClosingElements(es, close, a);
      ReadAll(es, a);
    }
  }

  lemma {:induction false} UpscaledDecimal(n: int, a: nat)
    ensures Upscaled(Decimal(n, a), a) == n as real
  {
    if a > 0 {
      UpscaledDecimal(n, a - 1);
      UpscaledTenth(Decimal(n, a - 1), a - 1);
    }
  }

  lemma {:induction false} UpscaledTenth(v: real, a: nat)
    ensures 10.0 * Upscaled(v / 10.0, a) == Upscaled(v, a)
  {
    if a > 0 {
      UpscaledTenth(v, a - 1);
    }
  }

  lemma {:induction false} UpscaledGrows(v: real, w: real, a: nat)
    ensures v < w <==> Upscaled(v, a) < Upscaled(w, a)
  {
    if a > 0 {
      UpscaledGrows(v, w, a - 1);
    }
  }

  lemma UpscaledHalf(n: int, a: nat)
    ensures 10.0 * Upscaled(Decimal(n, a + 1), a) == n as real
  {
    UpscaledTenth(Decimal(n, a), a);
    UpscaledDecimal(n, a);
  }

  /** Rounding takes a number to the nearest multiple of 10^-a, and one in the middle between two to the greater: the
      number is at least half a unit below the multiple and less than half a unit above it. */
  lemma RoundedNearest(v: real, a: nat)
    ensures var n := Rounded(v, a); Decimal(10 * n - 5, a + 1) <= v < Decimal(10 * n + 5, a + 1)
  {
    var n := Rounded(v, a);
    UpscaledHalf(10 * n - 5, a);
    UpscaledHalf(10 * n + 5, a);
    UpscaledGrows(v, Decimal(10 * n - 5, a + 1), a);
    UpscaledGrows(v, Decimal(10 * n + 5, a + 1), a);
  }

  /** A multiple of 10^-a. */
  ghost predicate IsDecimal(v: real, a: nat)
  {
    exists n :: v == Decimal(n, a)
  }

  /** Parameters that are multiples of 10^-a come back unchanged. */
  lemma RoundedExact(e: Raw, a: nat)
    requires IsElement(e)
    requires forall p | p in e.params :: IsDecimal(p.value, a)
    ensures RoundedElement(e, a) == e
  {
    forall i | 0 <= i < |e.params| ensures RoundedElement(e, a).params[i] == e.params[i] {
      var p := e.params[i];
      assert p in e.params;
      var n :| p.value == Decimal(n, a);
      UpscaledDecimal(n, a);
    }
  }
  /** All parameters are multiples of 10^-a. */
  ghost predicate Exact(e: Raw, a: nat)
  {
    IsElement(e) && forall p | p in e.params :: IsDecimal(p.value, a)
  }

  lemma {:induction false} DecimalSign(n: int, a: nat)
    ensures Decimal(n, a) >= 0.0 <==> n >= 0
  {
    if a > 0 {
      DecimalSign(n, a - 1);
    }
  }

  lemma ExactStart(e: Raw, a: nat)
    requires Exact(e, a)
    ensures |e.params| >= 2 && (StartsUnsigned(e, a) <==> e.params[0].value >= 0.0)
  {
    Printed(e, a);
    var p := e.params[0];
    assert p in e.params;
    var n :| p.value == Decimal(n, a);
    UpscaledDecimal(n, a);
    DecimalSign(n, a);
  }

  predicate StartsNotNegative(e: Raw)
  {
    e.params != [] && e.params[0].Num? && e.params[0].value >= 0.0
  }

  lemma {:induction false} ExactElements(es: seq<Raw>, a: nat)
    requires forall e | e in es :: Exact(e, a)
    ensures (forall e | e in es :: IsElement(e)) && RoundedElements(es, a) == es
    ensures AllUnsigned(es, a) <==> forall e | e in es :: StartsNotNegative(e)
    decreases |es|
  {
    if es == [] {
    } else {
      assert Exact(es[0], a);
      AllUnsignedCons(es, a);
      ExactElements(es[1..], a);
      RoundedExact(es[0], a);
      ExactStart(es[0], a);
      assert es == [es[0]] + es[1..];
      assert StartsUnsigned(es[0], a) <==> StartsNotNegative(es[0]);
      assert (forall e | e in es :: StartsNotNegative(e))
             <==> StartsNotNegative(es[0]) && forall e | e in es[1..] :: StartsNotNegative(e);
    }
  }

  lemma RoundedTwo(v: real, n: int)
    requires n as real <= 100.0 * v + 0.5 < n as real + 1.0
    ensures Rounded(v, 2) == n
  {
    assert Upscaled(v, 1) == 10.0 * v && Upscaled(v, 2) == 100.0 * v;
  }

  lemma PrintedWhole()
    ensures Text(100, 2) == "1" && Text(3000, 2) == "30"
  {
    assert Unsigned(100, 2) == Unsigned(10, 1) == Unsigned(1, 0) == "1";
    assert Unsigned(3000, 2) == Unsigned(300, 1) == Unsigned(30, 0) == Digits(30);
    assert Digits(3) == "3" && Digits(30) == "3" + "0" == "30";
  }

  lemma PrintedParts()
    ensures Text(250, 2) == "2.5" && Text(-12, 2) == "-0.12"
  {
    var two, one, twelve := Fixed(2, 0), Fixed(1, 1), Fixed(12, 2);
    assert "" + "5" == "5" && "" + "1" == "1" && "1" + "2" == "12";
    assert two == ("2", "") && Fixed(25, 1) == (two.0, two.1 + "5");
    assert Fixed(0, 0) == ("0", "") && one == ("0", "" + "1");
    assert 12 / 10 == 1 && twelve == (one.0, one.1 + "2");
    assert Unsigned(250, 2) == Unsigned(25, 1) == "2" + "." + "5" == "2.5";
    assert Unsigned(12, 2) == "0" + "." + "12" == "0.12";
    assert "-" + "0.12" == "-0.12";
  }

  lemma TwoTexts(e: Raw, s: string, t: string, text: string)
    requires |e.params| == 2 && NumText(e.params[0], 2) == s && NumText(e.params[1], 2) == t
    requires text == e.command + (s + "," + t)
    ensures ElementText(e, 2) == text
  {
    assert ParamTexts(e, 2) == [s, t];
    assert [s, t][1..] == [t];
    assert Join([t]) == t && Join([s, t]) == s + "," + t;
  }

  lemma OneText(e: Raw, close: bool, a: nat)
    ensures Stringify([e], close, a) == ElementText(e, a) + if close then "Z" else ""
  {
    assert [e][1..] == [];
  }

  /** A path of two elements, printed with the accuracy 2. */
  lemma PrintedPath(close: bool)
    ensures Stringify([Raw("M", [Num(1.0), Num(2.5)]), Raw("L", [Num(-0.125), Num(30.0)])], close, 2)
            == "M1,2.5L-0.12,30" + if close then "Z" else ""
  {
    var m, l := Raw("M", [Num(1.0), Num(2.5)]), Raw("L", [Num(-0.125), Num(30.0)]);
    RoundedTwo(1.0, 100);
    RoundedTwo(2.5, 250);
    RoundedTwo(-0.125, -12);
    RoundedTwo(30.0, 3000);
    PrintedWhole();
    PrintedParts();
    TwoTexts(m, "1", "2.5", "M1,2.5");
    TwoTexts(l, "-0.12", "30", "L-0.12,30");
    OneText(l, close, 2);
    assert [m, l][1..] == [l];
  }

  /** A printed path reads back as it was, without a closing Z, if and only if there is something to read and the first
      parameter of no element is negative; otherwise reading it throws. */
  lemma PathRoundTrip(es: seq<Raw>, close: bool, a: nat)
    requires forall e | e in es :: Exact(e, a)
    ensures ParseText(Stringify(es, close, a)) ==
            if (es != [] || close) && forall e | e in es :: StartsNotNegative(e) then Ok(es) else TypeError
  {
    ParseStringify(es, close, a);
    ExactElements(es, a);
  }
}
