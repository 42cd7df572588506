/** Escaping strings for attribute values (`serialize` and `deserialize`, without their JSON layer). */
module Escaping {
  import opened Sequences

  predicate StartsWith(s: string, p: string)
  {
    |s| >= |p| && s[..|p|] == p
  }

  /** `replaceAll`: from the left, without overlaps. */
  function Replace(s: string, p: string, r: string): string
    requires p != ""
    decreases |s|
  {
    if s == "" then ""
    else if StartsWith(s, p) then r + Replace(s[|p|..], p, r)
    else [s[0]] + Replace(s[1..], p, r)
  }

  /** `escapingMap`, in the order of its keys. */
  const ESCAPES: seq<(char, string)> :=
    [('&', "&amp;"), ('<', "&lt;"), ('>', "&gt;"), ('"', "&quot;"), ('\'', "&#039;")]

  /** One pass for each key: characters to entities. */
  function EscapeEach(s: string, passes: seq<(char, string)>): string
    decreases |passes|
  {
    if passes == [] then s else EscapeEach(Replace(s, [passes[0].0], passes[0].1), passes[1..])
  }

  /** And entities to characters. */
  function UnescapeEach(s: string, passes: seq<(char, string)>): string
    requires forall m | m in passes :: m.1 != ""
    decreases |passes|
  {
    if passes == [] then s else UnescapeEach(Replace(s, passes[0].1, [passes[0].0]), passes[1..])
  }

  function Serialize(s: string): string
  {
    EscapeEach(s, ESCAPES)
  }

  function Deserialize(s: string): string
  {
    UnescapeEach(s, ESCAPES)
  }

  // ---- the passes of serialize are one ----

  function Entity(c: char): string
  {
    if c == '&' then "&amp;" else if c == '<' then "&lt;" else if c == '>' then "&gt;"
    else if c == '"' then "&quot;" else if c == '\'' then "&#039;" else [c]
  }

  /** All characters of `chars` escaped at once. */
  function Escape(s: string, chars: set<char>): string
  {
    if s == "" then "" else (if s[0] in chars then Entity(s[0]) else [s[0]]) + Escape(s[1..], chars)
  }

  const ALL: set<char> := {'&', '<', '>', '"', '\''}

  lemma ReplaceStep(c: char, s: string, p: string, r: string)
    requires p != "" && p[0] != c
    ensures Replace([c] + s, p, r) == [c] + Replace(s, p, r)
  {
    assert ([c] + s)[1..] == s;
    assert ([c] + s)[0] == c;
  }

  lemma ReplaceHere(p: string, s: string, r: string)
    requires p != ""
    ensures Replace(p + s, p, r) == r + Replace(s, p, r)
  {
    assert (p + s)[..|p|] == p && (p + s)[|p|..] == s;
  }

  /** A text without the first character of the pattern is left alone. */
  lemma {:induction false} ReplaceSkips(t: string, s: string, p: string, r: string)
    requires p != "" && p[0] !in t
    ensures Replace(t + s, p, r) == t + Replace(s, p, r)
  {
    if t == "" {
      assert t + s == s;
    } else {
      ReplaceSkips(t[1..], s, p, r);
      ReplaceStep(t[0], t[1..] + s, p, r);
      assert t + s == [t[0]] + (t[1..] + s);
      assert t == [t[0]] + t[1..];
    }
  }

  /** An entity is left alone by the pass for a character that it does not have. */
  lemma EntitySkips(d: char, s: string, c: char, r: string)
    requires c !in Entity(d)
    ensures Replace(Entity(d) + s, [c], r) == Entity(d) + Replace(s, [c], r)
  {
    ReplaceSkips(Entity(d), s, [c], r);
  }

  /** Escaping one more character, one that no entity has, is one pass more. */
  lemma {:induction false} EscapeMore(s: string, chars: set<char>, c: char)
    requires c !in chars && c in {'<', '>', '"', '\''}
    ensures Replace(Escape(s, chars), [c], Entity(c)) == Escape(s, chars + {c})
  {
    if s != "" {
      EscapeMore(s[1..], chars, c);
      var rest := Escape(s[1..], chars);
      if s[0] in chars {
        EntitySkips(s[0], rest, c, Entity(c));
      } else if s[0] == c {
        ReplaceHere([c], rest, Entity(c));
      } else {
        ReplaceStep(s[0], rest, [c], Entity(c));
      }
    }
  }

  lemma {:induction false} EscapeFirst(s: string)
    ensures Replace(s, "&", "&amp;") == Escape(s, {'&'})
  {
    if s != "" {
      EscapeFirst(s[1..]);
      assert s == [s[0]] + s[1..];
      if s[0] == '&' {
        ReplaceHere("&", s[1..], "&amp;");
      } else {
        ReplaceStep(s[0], s[1..], "&", "&amp;");
      }
    }
  }

  /** The five passes of serialize escape every character once, all at the same time. */
  lemma SerializeIsEscape(s: string)
    ensures Serialize(s) == Escape(s, ALL)
  {
    EscapeFirst(s);
    EscapeMore(s, {'&'}, '<');
    EscapeMore(s, {'&', '<'}, '>');
    EscapeMore(s, {'&', '<', '>'}, '"');
    EscapeMore(s, {'&', '<', '>', '"'}, '\'');
    assert {'&', '<', '>', '"'} + {'\''} == ALL;
    assert {'&'} + {'<'} == {'&', '<'} && {'&', '<'} + {'>'} == {'&', '<', '>'}
           && {'&', '<', '>'} + {'"'} == {'&', '<', '>', '"'};
    EscapePasses(s);
  }

  lemma EscapePasses(s: string)
    ensures Serialize(s) ==
      Replace(Replace(Replace(Replace(Replace(s, "&", "&amp;"), "<", "&lt;"), ">", "&gt;"), "\"", "&quot;"), "'",
              "&#039;")
  {
    var m1, m2, m3, m4 := ESCAPES[1..], ESCAPES[2..], ESCAPES[3..], ESCAPES[4..];
    assert m1[1..] == m2 && m2[1..] == m3 && m3[1..] == m4 && m4[1..] == [];
    var s1 := Replace(s, "&", "&amp;");
    var s2 := Replace(s1, "<", "&lt;");
    var s3 := Replace(s2, ">", "&gt;");
    var s4 := Replace(s3, "\"", "&quot;");
    assert EscapeEach(s, ESCAPES) == EscapeEach(s1, m1);
    assert EscapeEach(s1, m1) == EscapeEach(s2, m2);
    assert EscapeEach(s2, m2) == EscapeEach(s3, m3);
    assert EscapeEach(s3, m3) == EscapeEach(s4, m4);
  }

  // ---- what deserialize gives back ----

  lemma UnescapePasses(s: string)
    ensures Deserialize(s) == Decode(Replace(s, "&amp;", "&"))
  {
    var m1, m2, m3, m4 := ESCAPES[1..], ESCAPES[2..], ESCAPES[3..], ESCAPES[4..];
    assert m1[1..] == m2 && m2[1..] == m3 && m3[1..] == m4 && m4[1..] == [];
    var s1 := Replace(s, "&amp;", "&");
    var s2 := Replace(s1, "&lt;", "<");
    var s3 := Replace(s2, "&gt;", ">");
    var s4 := Replace(s3, "&quot;", "\"");
    assert UnescapeEach(s, ESCAPES) == UnescapeEach(s1, m1);
    assert UnescapeEach(s1, m1) == UnescapeEach(s2, m2);
    assert UnescapeEach(s2, m2) == UnescapeEach(s3, m3);
    assert UnescapeEach(s3, m3) == UnescapeEach(s4, m4);
  }

  /** The last four passes: the entities of the characters other than the ampersand. */
  function Decode(s: string): string
  {
    Replace(Replace(Replace(Replace(s, "&lt;", "<"), "&gt;", ">"), "&quot;", "\""), "&#039;", "'")
  }

  lemma StartsStep(c: char, s: string, p: string)
    requires p != ""
    ensures StartsWith([c] + s, p) <==> c == p[0] && StartsWith(s, p[1..])
  {
    var t := [c] + s;
    if |t| >= |p| {
      assert t[..|p|] == [c] + s[..|p| - 1];
      assert p == [p[0]] + p[1..];
    }
  }

  lemma NoStart(s: string, p: string, i: nat)
    requires i < |p| && (i < |s| ==> s[i] != p[i])
    ensures !StartsWith(s, p)
  {
    if |s| >= |p| {
      assert s[..|p|][i] != p[i];
    }
  }

  /** No two entities start alike, and no entity has an ampersand but the one in front. */
  lemma EntitiesDiffer(c: char, d: char, s: string)
    requires c in ALL && d in ALL && c != d
    ensures !StartsWith(Entity(d) + s, Entity(c))
    ensures Entity(d)[0] == '&' && '&' !in Entity(d)[1..]
  {
    var k := if Entity(c)[1] != Entity(d)[1] then 1 else 2;
    assert Entity(c)[k] != Entity(d)[k];
    NoStart(Entity(d) + s, Entity(c), k);
  }

  /** The pass for one entity leaves the others alone. */
  lemma EntityStays(c: char, d: char, s: string, r: string)
    requires c in ALL && d in ALL && c != d
    ensures Replace(Entity(d) + s, Entity(c), r) == Entity(d) + Replace(s, Entity(c), r)
  {
    EntitiesDiffer(c, d, s);
    var e, tail := Entity(d), Entity(d)[1..];
    assert (e + s)[0] == '&' && (e + s)[1..] == tail + s;
    ReplaceSkips(tail, s, Entity(c), r);
    assert ['&'] + (tail + Replace(s, Entity(c), r)) == e + Replace(s, Entity(c), r);
  }

  /** Text that an escaped string starts with, if it has no ampersand and nothing that is escaped, was there before. */
  lemma {:induction false} PlainPrefix(s: string, chars: set<char>, q: string)
    requires chars <= ALL && '&' !in q && StartsWith(Escape(s, chars), q)
    ensures StartsWith(s, q)
  {
    if q != "" {
      var e := Escape(s, chars);
      assert e[0] == q[0] by { assert e[..|q|][0] == q[0]; }
      assert q[0] in q;
      assert s != "";
      assert s[0] !in chars && e == [s[0]] + Escape(s[1..], chars);
      assert e[1..] == Escape(s[1..], chars);
      assert e[1..][..|q| - 1] == e[..|q|][1..] == q[1..];
      PlainPrefix(s[1..], chars, q[1..]);
      assert s[..|q|] == [s[0]] + s[1..][..|q| - 1];
      assert q == [q[0]] + q[1..];
    }
  }

  lemma {:induction false} EscapeNothing(s: string)
    ensures Escape(s, {}) == s
  {
    if s != "" {
      EscapeNothing(s[1..]);
      assert s == [s[0]] + s[1..];
    }
  }

  lemma {:induction false} EscapeConcat(a: string, b: string, chars: set<char>)
    ensures Escape(a + b, chars) == Escape(a, chars) + Escape(b, chars)
  {
    if a == "" {
      assert a + b == b;
    } else {
      EscapeConcat(a[1..], b, chars);
      FirstOfConcat(a, b);
      Associative(if a[0] in chars then Entity(a[0]) else [a[0]], Escape(a[1..], chars), Escape(b, chars));
    }
  }

  /** An entity as plain text is escaped to itself, if the ampersand is not. */
  lemma EscapeEntity(c: char, chars: set<char>)
    requires c in ALL && chars <= ALL - {'&'}
    ensures Escape(Entity(c), chars) == Entity(c)
  {
    EscapePlain(Entity(c), chars);
  }

  lemma {:induction false} EscapePlain(s: string, chars: set<char>)
    requires forall c | c in s :: c !in chars
    ensures Escape(s, chars) == s
  {
    if s != "" {
      EscapePlain(s[1..], chars);
      assert s == [s[0]] + s[1..];
    }
  }

  /** Every character of the text is escaped by itself: the five special ones to their entities, any other to itself. */
  lemma SerializeEach(a: string, c: char, b: string)
    ensures Serialize(a + [c] + b) == Serialize(a)
            + (match c
               case '&' => "&amp;"
               case '<' => "&lt;"
               case '>' => "&gt;"
               case '"' => "&quot;"
               case '\'' => "&#039;"
               case _ => [c])
            + Serialize(b)
    ensures Serialize("") == ""
  {
    SerializeIsEscape(a + [c] + b);
    SerializeIsEscape(a);
    SerializeIsEscape(b);
    SerializeIsEscape("");
    EscapeConcat(a + [c], b, ALL);
    EscapeConcat(a, [c], ALL);
    assert Escape([c], ALL) == Entity(c) by {
      assert [c][1..] == "";
    }
  }

  predicate Harmless(s: string)
  {
    forall c | c in s :: c != '<' && c != '>' && c != '"' && c != '\''
  }

  lemma EntityHarmless(c: char)
    ensures c in ALL ==> Harmless(Entity(c))
    ensures c !in ALL ==> Harmless([c])
  {}

  lemma {:induction false} EscapeHarmless(s: string)
    ensures Harmless(Escape(s, ALL))
  {
    if s != "" {
      EscapeHarmless(s[1..]);
      EntityHarmless(s[0]);
    }
  }

  /** So nothing is left that could end an attribute value or start a tag. */
  lemma SerializeHarmless(s: string)
    ensures Harmless(Serialize(s))
  {
    SerializeIsEscape(s);
    EscapeHarmless(s);
  }

  /** The pass for `&amp;` undoes the escaping of ampersands, whatever else is escaped. */
  lemma {:induction false} DecodeFirst(s: string)
    ensures Replace(Escape(s, ALL), "&amp;", "&") == Escape(s, ALL - {'&'})
  {
    if s != "" {
      DecodeFirst(s[1..]);
      var rest := Escape(s[1..], ALL);
      if s[0] == '&' {
        ReplaceHere("&amp;", rest, "&");
      } else if s[0] in ALL {
        EntityStays('&', s[0], rest, "&");
      } else {
        ReplaceStep(s[0], rest, "&amp;", "&");
      }
    }
  }

  /** The pass for another entity undoes its escaping, and decodes what stood there as that entity before. */
  lemma {:induction false} DecodePass(s: string, chars: set<char>, c: char)
    requires chars <= ALL - {'&'} && c in chars
    ensures Replace(Escape(s, chars), Entity(c), [c]) == Escape(Replace(s, Entity(c), [c]), chars - {c})
    decreases |s|
  {
    var p := Entity(c);
    if s == "" {
    } else if StartsWith(s, p) {
      var rest := s[|p|..];
      assert s == p + rest;
      DecodePass(rest, chars, c);
      EscapeConcat(p, rest, chars);
      EscapeEntity(c, chars);
      ReplaceHere(p, Escape(rest, chars), [c]);
      ReplaceHere(p, rest, [c]);
      EscapeOne(c, Replace(rest, p, [c]), chars - {c});
    } else {
      DecodePass(s[1..], chars, c);
      var rest := Escape(s[1..], chars);
      EscapeOne(s[0], Replace(s[1..], p, [c]), chars - {c});
      if s[0] == c {
        ReplaceHere(p, rest, [c]);
      } else if s[0] in chars {
        EntityStays(c, s[0], rest, [c]);
      } else {
        NotHere(s, chars, p);
        assert ([s[0]] + rest)[1..] == rest;
      }
    }
  }

  lemma EscapeOne(c: char, s: string, chars: set<char>)
    ensures Escape([c] + s, chars) == (if c in chars then Entity(c) else [c]) + Escape(s, chars)
  {
    assert ([c] + s)[1..] == s;
  }

  /** Escaping what follows does not make an entity out of a character that is not escaped. */
  lemma NotHere(s: string, chars: set<char>, p: string)
    requires chars <= ALL && s != "" && s[0] !in chars && !StartsWith(s, p)
    requires p != "" && '&' !in p[1..]
    ensures !StartsWith([s[0]] + Escape(s[1..], chars), p)
  {
    var e := Escape(s[1..], chars);
    assert s == [s[0]] + s[1..];
    StartsStep(s[0], s[1..], p);
    StartsStep(s[0], e, p);
    if StartsWith(e, p[1..]) {
      PlainPrefix(s[1..], chars, p[1..]);
    }
  }

  lemma DecodeLtGt(s: string)
    ensures Replace(Replace(Escape(s, ALL - {'&'}), "&lt;", "<"), "&gt;", ">")
            == Escape(Replace(Replace(s, "&lt;", "<"), "&gt;", ">"), {'"', '\''})
  {
    assert Entity('<') == "&lt;" && ['<'] == "<" && Entity('>') == "&gt;" && ['>'] == ">";
    var c := ALL - {'&'};
    DecodePass(s, c, '<');
    DecodePass(Replace(s, "&lt;", "<"), c - {'<'}, '>');
    assert c - {'<'} - {'>'} == {'"', '\''};
  }

  lemma DecodeQuotes(s: string)
    ensures Replace(Replace(Escape(s, {'"', '\''}), "&quot;", "\""), "&#039;", "'")
            == Replace(Replace(s, "&quot;", "\""), "&#039;", "'")
  {
    assert Entity('"') == "&quot;" && ['"'] == "\"" && Entity('\'') == "&#039;" && ['\''] == "'";
    var c := {'"', '\''};
    DecodePass(s, c, '"');
    DecodePass(Replace(s, "&quot;", "\""), c - {'"'}, '\'');
    assert c - {'"'} - {'\''} == {};
    EscapeNothing(Replace(Replace(s, "&quot;", "\""), "&#039;", "'"));
  }

  /** The four passes after the first, on a string with the other four characters escaped. */
  lemma DecodeRest(s: string)
    ensures Decode(Escape(s, ALL - {'&'})) == Decode(s)
  {
    DecodeLtGt(s);
    DecodeQuotes(Replace(Replace(s, "&lt;", "<"), "&gt;", ">"));
  }

  /** What comes back is the string with its own entities decoded. */
  lemma RoundTrip(s: string)
    ensures Deserialize(Serialize(s)) == Decode(s)
  {
    SerializeIsEscape(s);
    UnescapePasses(Serialize(s));
    DecodeFirst(s);
    DecodeRest(s);
  }

  // ---- when that is the string itself ----

  predicate OccursAt(s: string, i: int, p: string)
  {
    0 <= i <= |s| - |p| && s[i..i + |p|] == p
  }

  ghost predicate Contains(s: string, p: string)
  {
    exists i :: OccursAt(s, i, p)
  }

  lemma ContainsStep(s: string, p: string)
    requires s != ""
    ensures Contains(s, p) <==> StartsWith(s, p) || Contains(s[1..], p)
  {
    if i :| OccursAt(s, i, p) {
      if i > 0 {
        assert s[1..][i - 1..i - 1 + |p|] == s[i..i + |p|];
        assert OccursAt(s[1..], i - 1, p);
      }
    }
    if StartsWith(s, p) {
      assert OccursAt(s, 0, p);
    }
    if j :| OccursAt(s[1..], j, p) {
      assert s[1..][j..j + |p|] == s[j + 1..j + 1 + |p|];
      assert OccursAt(s, j + 1, p);
    }
  }

  /** Replacing by something shorter leaves a string alone if the pattern is not there, and shortens it if it is. */
  lemma {:induction false} ReplaceShortens(s: string, p: string, r: string)
    requires |p| > |r|
    ensures if Contains(s, p) then |Replace(s, p, r)| < |s| else Replace(s, p, r) == s
    decreases |s|
  {
    if s != "" {
      ContainsStep(s, p);
      if StartsWith(s, p) {
        ReplaceShortens(s[|p|..], p, r);
      } else {
        ReplaceShortens(s[1..], p, r);
        assert s == [s[0]] + s[1..];
      }
    }
  }

  /** Deserializing gives the string back exactly when it holds none of four entities as text. */
  lemma RoundTripExactly(s: string)
    ensures Deserialize(Serialize(s)) == s <==>
      !Contains(s, "&lt;") && !Contains(s, "&gt;") && !Contains(s, "&quot;") && !Contains(s, "&#039;")
  {
    RoundTrip(s);
    var s2 := Replace(s, "&lt;", "<");
    var s3 := Replace(s2, "&gt;", ">");
    var s4 := Replace(s3, "&quot;", "\"");
    ReplaceShortens(s, "&lt;", "<");
    ReplaceShortens(s2, "&gt;", ">");
    ReplaceShortens(s3, "&quot;", "\"");
    ReplaceShortens(s4, "&#039;", "'");
  }
}
