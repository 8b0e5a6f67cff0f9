/** HTML escaping of the application-supplied connect URL. */
module Pages {

  /** `str::replace` of one character by a string. */
  function Replace(s: string, c: char, t: string): string {
    if s == [] then [] else (if s[0] == c then t else [s[0]]) + Replace(s[1..], c, t)
  }

  /** Five whole-string replacements, the ampersand first. */
  function Escape(s: string): string {
    var s1 := Replace(s, '&', "&amp;");
    var s2 := Replace(s1, '<', "&lt;");
    var s3 := Replace(s2, '>', "&gt;");
    var s4 := Replace(s3, '"', "&quot;");
    Replace(s4, '\'', "&#39;")
  }

  const ENTITIES: seq<string> := ["&amp;", "&lt;", "&gt;", "&quot;", "&#39;"]
  const SPECIALS: seq<char> := ['&', '<', '>', '"', '\'']

  /** What one character becomes when the whole text is mapped in a single pass. */
  function Entity(c: char): string {
    if c == '&' then "&amp;"
    else if c == '<' then "&lt;"
    else if c == '>' then "&gt;"
    else if c == '"' then "&quot;"
    else if c == '\'' then "&#39;"
    else [c]
  }

  function OnePass(s: string): string {
    if s == [] then [] else Entity(s[0]) + OnePass(s[1..])
  }

  /** Left-to-right decoding of the five entities; anything else is literal. */
  function Unescape(s: string): string
    decreases |s|
  {
    if s == [] then []
    else if "&amp;" <= s then "&" + Unescape(s[5..])
    else if "&lt;" <= s then "<" + Unescape(s[4..])
    else if "&gt;" <= s then ">" + Unescape(s[4..])
    else if "&quot;" <= s then "\"" + Unescape(s[6..])
    else if "&#39;" <= s then "'" + Unescape(s[5..])
    else [s[0]] + Unescape(s[1..])
  }

  lemma {:induction false} ReplaceConcat(a: string, b: string, c: char, t: string)
    ensures Replace(a + b, c, t) == Replace(a, c, t) + Replace(b, c, t)
  {
    if a == [] {
      assert a + b == b;
    } else {
      assert (a + b)[1..] == a[1..] + b;
      ReplaceConcat(a[1..], b, c, t);
    }
  }

  lemma {:induction false} ReplaceAbsent(s: string, c: char, t: string)
    requires c !in s
    ensures Replace(s, c, t) == s
  {
    if s == [] {
    } else {
      ReplaceAbsent(s[1..], c, t);
    }
  }

  lemma EscapeConcat(a: string, b: string)
    ensures Escape(a + b) == Escape(a) + Escape(b)
  {
    var a1, b1 := Replace(a, '&', "&amp;"), Replace(b, '&', "&amp;");
    var a2, b2 := Replace(a1, '<', "&lt;"), Replace(b1, '<', "&lt;");
    var a3, b3 := Replace(a2, '>', "&gt;"), Replace(b2, '>', "&gt;");
    var a4, b4 := Replace(a3, '"', "&quot;"), Replace(b3, '"', "&quot;");
    ReplaceConcat(a, b, '&', "&amp;");
    ReplaceConcat(a1, b1, '<', "&lt;");
    ReplaceConcat(a2, b2, '>', "&gt;");
    ReplaceConcat(a3, b3, '"', "&quot;");
    ReplaceConcat(a4, b4, '\'', "&#39;");
  }

  lemma ReplaceSame(c: char, t: string)
    ensures Replace([c], c, t) == t
  {}

  lemma EscapeOne(c: char)
    ensures Escape([c]) == Entity(c)
  {
    if c == '&' {
      ReplaceSame(c, "&amp;");
      Untouched("&amp;");
    } else {
      ReplaceAbsent([c], '&', "&amp;");
      if c == '<' {
        ReplaceSame(c, "&lt;");
        Untouched("&lt;");
      } else {
        ReplaceAbsent([c], '<', "&lt;");
        if c == '>' {
          ReplaceSame(c, "&gt;");
          Untouched("&gt;");
        } else {
          ReplaceAbsent([c], '>', "&gt;");
          if c == '"' {
            ReplaceSame(c, "&quot;");
            Untouched("&quot;");
          } else {
            ReplaceAbsent([c], '"', "&quot;");
            if c == '\'' { ReplaceSame(c, "&#39;"); } else { ReplaceAbsent([c], '\'', "&#39;"); }
          }
        }
      }
    }
  }

  /** The passes after the ampersand's leave text without markup characters alone. */
  lemma Untouched(s: string)
    requires '<' !in s && '>' !in s && '"' !in s && '\'' !in s
    ensures Replace(s, '<', "&lt;") == s && Replace(s, '>', "&gt;") == s
    ensures Replace(s, '"', "&quot;") == s && Replace(s, '\'', "&#39;") == s
  {
    ReplaceAbsent(s, '<', "&lt;");
    ReplaceAbsent(s, '>', "&gt;");
    ReplaceAbsent(s, '"', "&quot;");
    ReplaceAbsent(s, '\'', "&#39;");
  }

  /** The five ordered replacements equal one mapping pass: no replacement touches the output
      of another. */
  lemma {:induction false} EscapeIsOnePass(s: string)
    ensures Escape(s) == OnePass(s)
  {
    if s == [] {
    } else {
      assert s == [s[0]] + s[1..];
      EscapeConcat([s[0]], s[1..]);
      EscapeOne(s[0]);
      EscapeIsOnePass(s[1..]);
    }
  }

  /** Some entity starts at position `i` of `s`. */
  predicate EntityAt(s: string, i: nat)
    requires i <= |s|
  {
    exists k :: 0 <= k < |ENTITIES| && ENTITIES[k] <= s[i..]
  }

  predicate Safe(s: string) {
    && '<' !in s && '>' !in s && '"' !in s && '\'' !in s
    && forall i :: 0 <= i < |s| && s[i] == '&' ==> EntityAt(s, i)
  }

  lemma EntitySafe(c: char, rest: string)
    requires Safe(rest)
    ensures Safe(Entity(c) + rest)
  {
    var e := Entity(c);
    var out := e + rest;
    forall i | 0 <= i < |out| && out[i] == '&'
      ensures EntityAt(out, i)
    {
      if i < |e| {
        assert i == 0 && out[0..] == out;
        assert e <= out && e in ENTITIES;
      } else {
        assert out[i..] == rest[i - |e|..];
        assert rest[i - |e|] == '&' && EntityAt(rest, i - |e|);
      }
    }
  }

  lemma {:induction false} OnePassSafe(s: string)
    ensures Safe(OnePass(s))
  {
    hide Safe, Entity;
    if s == [] {
      NothingSafe();
    } else {
      OnePassSafe(s[1..]);
      EntitySafe(s[0], OnePass(s[1..]));
    }
  }

  lemma NothingSafe()
    ensures Safe([])
  {}

  lemma EntityInverts(c: char, rest: string)
    ensures Unescape(Entity(c) + rest) == [c] + Unescape(rest)
  {
    var e := Entity(c);
    assert (e + rest)[|e|..] == rest;
    assert e <= e + rest;
    assert (e + rest)[0] == e[0];
    if c in SPECIALS {
      assert (e + rest)[1] == e[1] && (e + rest)[2] == e[2];
    }
  }

  lemma {:induction false} OnePassInverts(s: string)
    ensures Unescape(OnePass(s)) == s
  {
    hide Entity, Unescape;
    if s == [] {
      NothingUnescapes();
    } else {
      EntityInverts(s[0], OnePass(s[1..]));
      OnePassInverts(s[1..]);
      assert s == [s[0]] + s[1..];
    }
  }

  lemma NothingUnescapes()
    ensures Unescape([]) == []
  {}

  /** Escaped text carries no raw markup character, every ampersand in it starts an entity,
      and decoding gives the input back, for every string. */
  lemma EscapeSafeAndInvertible(s: string)
    ensures Safe(Escape(s))
    ensures Unescape(Escape(s)) == s
  {
    EscapeIsOnePass(s);
    OnePassSafe(s);
    OnePassInverts(s);
  }
}
