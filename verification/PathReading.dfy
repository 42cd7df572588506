/** Reading path texts that were written by hand: commands and numbers apart from each other, with any gaps. */
module PathReading {
  import opened Numerals
  import opened PathText
  import opened Sequences

  /** An element as it is written: a command and as many numerals as it takes, of either sign. */
  datatype Written = Written(command: string, numerals: seq<string>)

  predicate WellWritten(w: Written)
  {
    Arity(w.command) == Ok(|w.numerals|) && forall t | t in w.numerals :: IsNumeral(t)
  }

  /** What it stands for. */
  function Meant(w: Written): Raw
  {
    Raw(w.command, seq(|w.numerals|, i requires 0 <= i < |w.numerals| => ToNumber(w.numerals[i])))
  }

  function AllMeant(ws: seq<Written>): seq<Raw>
  {
    seq(|ws|, i requires 0 <= i < |ws| => Meant(ws[i]))
  }

  /** The closing of a path: none, or a Z in either case. */
  predicate IsEnd(end: seq<string>)
  {
    end == [] || end == ["Z"] || end == ["z"]
  }

  function ElementTokens(w: Written): seq<string>
  {
    [w.command] + w.numerals
  }

  function PathTokens(ws: seq<Written>, end: seq<string>): seq<string>
  {
    if ws == [] then end else ElementTokens(ws[0]) + PathTokens(ws[1..], end)
  }

  /** White space and commas, at least one of them. */
  predicate IsGap(g: string)
  {
    g != "" && forall i | 0 <= i < |g| :: IsSeparator(g[i])
  }

  /** The tokens with the gaps between them. */
  function Laid(tokens: seq<string>, gaps: seq<string>): string
    requires tokens != [] && |gaps| == |tokens| - 1
  {
    if |tokens| == 1 then tokens[0] else tokens[0] + gaps[0] + Laid(tokens[1..], gaps[1..])
  }

  // ---- the replacements change nothing ----

  /** No letter and digit are next to each other. */
  predicate Loose(s: string)
  {
    forall i | 0 <= i < |s| - 1 :: !(IsLetter(s[i]) && IsDigit(s[i + 1])) && !(IsDigit(s[i]) && IsLetter(s[i + 1]))
  }

  lemma {:induction false} LooseKept(s: string)
    requires Loose(s)
    ensures SpaceLetterDigit(s) == s && SpaceDigitLetter(s) == s
  {
    if |s| >= 2 {
      assert Loose(s[1..]) by {
        assert forall i | 0 <= i < |s[1..]| :: s[1..][i] == s[i + 1];
      }
      LooseKept(s[1..]);
      assert !(IsLetter(s[0]) && IsDigit(s[0 + 1])) && !(IsDigit(s[0]) && IsLetter(s[0 + 1]));
      assert [s[0]] + "" + s[1..] == s;
    }
  }

  lemma LooseConcat(x: string, y: string)
    requires Loose(x) && Loose(y)
    requires x != "" && y != "" ==> IsSeparator(x[|x| - 1]) || IsSeparator(y[0])
    ensures Loose(x + y)
  {
    var s := x + y;
    forall i | 0 <= i < |s| - 1
      ensures !(IsLetter(s[i]) && IsDigit(s[i + 1])) && !(IsDigit(s[i]) && IsLetter(s[i + 1]))
    {
      if i >= |x| {
        assert s[i] == y[i - |x|] && s[i + 1] == y[i - |x| + 1];
      }
    }
  }

  /** A command or a numeral. */
  predicate IsToken(t: string)
  {
    t != "" && NoSeparator(t) && Loose(t)
  }

  lemma GapLoose(g: string)
    requires IsGap(g)
    ensures Loose(g)
  {}

  lemma {:induction false} LaidLoose(tokens: seq<string>, gaps: seq<string>)
    requires tokens != [] && |gaps| == |tokens| - 1
    requires (forall t | t in tokens :: IsToken(t)) && forall g | g in gaps :: IsGap(g)
    ensures Laid(tokens, gaps) != "" && !IsSeparator(Laid(tokens, gaps)[0]) && Loose(Laid(tokens, gaps))
    decreases |tokens|
  {
    assert IsToken(tokens[0]);
    if |tokens| > 1 {
      var g, rest := gaps[0], Laid(tokens[1..], gaps[1..]);
      assert IsGap(g);
      LaidLoose(tokens[1..], gaps[1..]);
      GapLoose(g);
      LooseConcat(tokens[0], g);
      LooseConcat(tokens[0] + g, rest);
    }
  }

  // ---- splitting gives the tokens ----

  lemma {:induction false} SkipGap(g: string, rest: string)
    requires (forall i | 0 <= i < |g| :: IsSeparator(g[i])) && rest != "" && !IsSeparator(rest[0])
    ensures SkipSeparators(g + rest) == rest
  {
    if g == "" {
      assert g + rest == rest;
    } else {
      SkipGap(g[1..], rest);
      assert (g + rest)[1..] == g[1..] + rest;
    }
  }

  /** What is no separator joins the first token after it. */
  lemma {:induction false} SplitAfter(t: string, s: string)
    requires NoSeparator(t)
    ensures Split(t + s) == [t + Split(s)[0]] + Split(s)[1..]
  {
    if t == "" {
      assert t + s == s && t + Split(s)[0] == Split(s)[0];
    } else {
      SplitAfter(t[1..], s);
      SplitLetter(t[0], t[1..] + s);
      FirstOfConcat(t, s);
      assert [t[0]] + (t[1..] + s) == t + s;
      assert [t[0]] + (t[1..] + Split(s)[0]) == t + Split(s)[0];
    }
  }

  lemma SplitGap(t: string, g: string, rest: string)
    requires NoSeparator(t) && IsGap(g) && rest != "" && !IsSeparator(rest[0])
    ensures Split(t + g + rest) == [t] + Split(rest)
  {
    Associative(t, g, rest);
    SplitAfter(t, g + rest);
    SkipGap(g, rest);
    assert Split(g + rest) == [""] + Split(rest);
    assert t + "" == t;
  }

  lemma {:induction false} SplitLaid(tokens: seq<string>, gaps: seq<string>)
    requires tokens != [] && |gaps| == |tokens| - 1
    requires (forall t | t in tokens :: IsToken(t)) && forall g | g in gaps :: IsGap(g)
    ensures Split(Laid(tokens, gaps)) == tokens
    decreases |tokens|
  {
    assert IsToken(tokens[0]);
    if |tokens| == 1 {
      SplitOne(tokens[0]);
    } else {
      assert IsGap(gaps[0]);
      SplitLaid(tokens[1..], gaps[1..]);
      LaidLoose(tokens[1..], gaps[1..]);
      SplitGap(tokens[0], gaps[0], Laid(tokens[1..], gaps[1..]));
    }
  }

  // ---- the chunks are the elements ----

  lemma CommandToken(w: Written)
    requires WellWritten(w)
    ensures |w.command| == 1 && IsLetter(w.command[0]) && HasLetter(w.command) && IsToken(w.command)
    ensures w.command != "Z" && w.command != "z"
    ensures forall t | t in w.numerals :: IsToken(t) && !HasLetter(t)
  {}

  lemma {:induction false} TokensAre(ws: seq<Written>, end: seq<string>)
    requires (forall w | w in ws :: WellWritten(w)) && IsEnd(end)
    ensures forall t | t in PathTokens(ws, end) :: IsToken(t)
    decreases |ws|
  {
    if ws != [] {
      CommandToken(ws[0]);
      TokensAre(ws[1..], end);
    }
  }

  function Groups(ws: seq<Written>, end: seq<string>): seq<seq<string>>
  {
    if ws == [] then (if end == [] then [] else [end]) else [ElementTokens(ws[0])] + Groups(ws[1..], end)
  }

  lemma EndChunk(chunks: seq<seq<string>>, end: seq<string>)
    requires IsEnd(end)
    ensures Chunks(chunks, end) == Ok(chunks + Groups([], end))
  {
    if end == [] {
      assert chunks + [] == chunks;
    } else {
      assert IsLetter(end[0][0]) && end[1..] == [] && [end[0]] == end;
      assert AddToken(chunks, end[0]) == Ok(chunks + [end]);
    }
  }

  lemma ElementChunk(chunks: seq<seq<string>>, w: Written)
    requires WellWritten(w)
    ensures Chunks(chunks, ElementTokens(w)) == Ok(chunks + [ElementTokens(w)])
  {
    CommandToken(w);
    ChunksParams(chunks, [w.command], w.numerals);
    assert ElementTokens(w)[1..] == w.numerals;
  }

  lemma {:induction false} ChunksAre(chunks: seq<seq<string>>, ws: seq<Written>, end: seq<string>)
    requires (forall w | w in ws :: WellWritten(w)) && IsEnd(end)
    ensures Chunks(chunks, PathTokens(ws, end)) == Ok(chunks + Groups(ws, end))
    decreases |ws|
  {
    if ws == [] {
      EndChunk(chunks, end);
    } else {
      var t := ElementTokens(ws[0]);
      assert WellWritten(ws[0]);
      ChunksConcat(chunks, t, PathTokens(ws[1..], end));
      ElementChunk(chunks, ws[0]);
      ChunksAre(chunks + [t], ws[1..], end);
      Associative(chunks, [t], Groups(ws[1..], end));
    }
  }

  lemma {:induction false} GroupsAre(ws: seq<Written>, end: seq<string>)
    ensures Groups(ws, end) == Groups(ws, []) + Groups([], end)
    ensures |Groups(ws, [])| == |ws| && forall i | 0 <= i < |ws| :: Groups(ws, [])[i] == ElementTokens(ws[i])
    decreases |ws|
  {
    if ws != [] {
      GroupsAre(ws[1..], end);
      Associative([ElementTokens(ws[0])], Groups(ws[1..], []), Groups([], end));
    }
  }

  lemma EndDropped(ws: seq<Written>, end: seq<string>)
    requires (forall w | w in ws :: WellWritten(w)) && IsEnd(end) && Groups(ws, end) != []
    ensures WithoutClosing(Groups(ws, end)) == Groups(ws, [])
  {
    GroupsAre(ws, end);
    if end == [] {
      var last := ws[|ws| - 1];
      assert WellWritten(last);
      CommandToken(last);
    } else {
      assert Groups([], end) == [end];
    }
  }

  lemma {:induction false} ReadGroups(ws: seq<Written>)
    requires forall w | w in ws :: WellWritten(w)
    ensures forall i | 0 <= i < |Groups(ws, [])| :: Groups(ws, [])[i] != []
    ensures ReadElements(Groups(ws, [])) == Ok(AllMeant(ws))
    decreases |ws|
  {
    GroupsAre(ws, []);
    if ws == [] {
      assert AllMeant(ws) == [];
    } else {
      assert WellWritten(ws[0]);
      ReadParams(ws[0].command, ws[0].numerals, Meant(ws[0]).params);
      assert ReadElement(Groups(ws, [])[0]) == Ok(Meant(ws[0]));
      ReadGroups(ws[1..]);
      assert Groups(ws, [])[1..] == Groups(ws[1..], []);
      assert AllMeant(ws) == [Meant(ws[0])] + AllMeant(ws[1..]);
    }
  }

  /** A text in which every command stands apart from its numbers is read as what is written, with first numbers of
      either sign, any gaps, and a Z at the end or none. */
  lemma ParseWritten(ws: seq<Written>, end: seq<string>, gaps: seq<string>)
    requires (forall w | w in ws :: WellWritten(w)) && IsEnd(end) && PathTokens(ws, end) != []
    requires |gaps| == |PathTokens(ws, end)| - 1 && forall g | g in gaps :: IsGap(g)
    ensures ParseText(Laid(PathTokens(ws, end), gaps)) == Ok(AllMeant(ws))
  {
    var tokens := PathTokens(ws, end);
    TokensAre(ws, end);
    LaidLoose(tokens, gaps);
    LooseKept(Laid(tokens, gaps));
    SplitLaid(tokens, gaps);
    ChunksAre([], ws, end);
    assert [] + Groups(ws, end) == Groups(ws, end);
    ChunksNonempty([], tokens);
    EndDropped(ws, end);
    ReadGroups(ws);
  }
}
