/** The string operations the resolver is written with: Unicode trimming, ASCII case
    folding, hexadecimal tests, and splitting on a separator. */
module Text {

  /** The code points with the Unicode White_Space property, which is what `str::trim` strips. */
  predicate IsSpace(c: char) {
    var n := c as int;
    9 <= n <= 13 || n == 32 || n == 0x85 || n == 0xA0 || n == 0x1680
    || 0x2000 <= n <= 0x200A || n == 0x2028 || n == 0x2029 || n == 0x202F || n == 0x205F || n == 0x3000
  }

  predicate Blank(s: string) {
    forall i :: 0 <= i < |s| ==> IsSpace(s[i])
  }

  /** Neither end of `s` is white space. */
  predicate Trimmed(s: string) {
    s != [] ==> !IsSpace(s[0]) && !IsSpace(s[|s| - 1])
  }

  function TrimStart(s: string): string {
    if s != [] && IsSpace(s[0]) then TrimStart(s[1..]) else s
  }

  function TrimEnd(s: string): string {
    if s != [] && IsSpace(s[|s| - 1]) then TrimEnd(s[..|s| - 1]) else s
  }

  function Trim(s: string): string {
    TrimEnd(TrimStart(s))
  }

  /** `trim_end_matches('/')`: only slashes go, and none is left at the end. */
  function TrimSlashes(s: string): (r: string)
    ensures r <= s && (r != [] ==> r[|r| - 1] != '/')
    ensures forall i :: |r| <= i < |s| ==> s[i] == '/'
  {
    if s != [] && s[|s| - 1] == '/' then TrimSlashes(s[..|s| - 1]) else s
  }

  function LowerChar(c: char): char {
    if 'A' <= c <= 'Z' then (c as int + 32) as char else c
  }

  function Lower(s: string): (r: string)
    ensures |r| == |s|
  {
    seq(|s|, i requires 0 <= i < |s| => LowerChar(s[i]))
  }

  predicate EqIgnoreCase(a: string, b: string) {
    Lower(a) == Lower(b)
  }

  /** Two characters that differ in ASCII case at most. */
  predicate CasePair(a: char, b: char) {
    || a == b
    || ('a' <= a <= 'z' && b as int == a as int - 32)
    || ('a' <= b <= 'z' && a as int == b as int - 32)
  }

  /** The same text, up to ASCII case. */
  predicate SameText(a: string, b: string) {
    |a| == |b| && forall i :: 0 <= i < |a| ==> CasePair(a[i], b[i])
  }

  /** Comparing lowered texts ignores ASCII case and nothing else. */
  lemma EqIgnoreCaseExactly(a: string, b: string)
    ensures EqIgnoreCase(a, b) <==> SameText(a, b)
  {
    if EqIgnoreCase(a, b) {
      forall i | 0 <= i < |a| ensures CasePair(a[i], b[i]) {
        assert Lower(a)[i] == Lower(b)[i];
      }
    }
  }

  /** The White_Space code points, listed. */
  lemma SpacesListed(c: char)
    ensures IsSpace(c) <==> c as int in {
        0x9, 0xA, 0xB, 0xC, 0xD, 0x20, 0x85, 0xA0, 0x1680, 0x2000, 0x2001, 0x2002, 0x2003, 0x2004, 0x2005, 0x2006,
        0x2007, 0x2008, 0x2009, 0x200A, 0x2028, 0x2029, 0x202F, 0x205F, 0x3000 }
  {}

  predicate IsHexDigit(c: char) {
    '0' <= c <= '9' || 'a' <= c <= 'f' || 'A' <= c <= 'F'
  }

  lemma HexDigitsListed(c: char)
    ensures IsHexDigit(c) <==> c in "0123456789abcdefABCDEF"
  {}

  predicate IsHex(s: string) {
    forall i :: 0 <= i < |s| ==> IsHexDigit(s[i])
  }

  predicate IsHex64(s: string) {
    |s| == 64 && IsHex(s)
  }

  function Split(s: string, sep: char): (parts: seq<string>)
    ensures |parts| >= 1
  {
    if s == [] then [[]]
    else
      var rest := Split(s[1..], sep);
      if s[0] == sep then [[]] + rest else [[s[0]] + rest[0]] + rest[1..]
  }

  function Join(items: seq<string>, sep: char): string {
    if items == [] then []
    else if |items| == 1 then items[0]
    else items[0] + [sep] + Join(items[1..], sep)
  }

  // ------------------------------------------------------------------ trimming

  lemma {:induction false} TrimStartPadded(pad: string, s: string)
    requires Blank(pad)
    requires s != [] ==> !IsSpace(s[0])
    ensures TrimStart(pad + s) == s
  {
    if pad == [] {
      assert pad + s == s;
    } else {
      assert (pad + s)[1..] == pad[1..] + s;
      TrimStartPadded(pad[1..], s);
    }
  }

  lemma {:induction false} TrimEndPadded(s: string, pad: string)
    requires Blank(pad)
    requires s != [] ==> !IsSpace(s[|s| - 1])
    ensures TrimEnd(s + pad) == s
  {
    if pad == [] {
      assert s + pad == s;
    } else {
      assert (s + pad)[..|s + pad| - 1] == s + pad[..|pad| - 1];
      TrimEndPadded(s, pad[..|pad| - 1]);
    }
  }

  lemma {:induction false} TrimEndBlank(s: string)
    requires Blank(s)
    ensures TrimEnd(s) == []
  {
    TrimEndPadded([], s);
    assert [] + s == s;
  }

  lemma {:induction false} TrimStartBlank(s: string)
    requires Blank(s)
    ensures TrimStart(s) == []
  {
    TrimStartPadded(s, []);
    assert s + [] == s;
  }

  lemma TrimPadded(left: string, core: string, right: string)
    requires Blank(left) && Blank(right) && Trimmed(core)
    ensures Trim(left + core + right) == core
  {
    if core == [] {
      TrimStartPadded(left + right, []);
      assert left + right + [] == left + core + right;
    } else {
      assert left + core + right == left + (core + right);
      TrimStartPadded(left, core + right);
      TrimEndPadded(core, right);
    }
  }

  lemma {:induction false} TrimStartDecomposes(s: string) returns (left: string)
    ensures Blank(left) && s == left + TrimStart(s)
    ensures TrimStart(s) != [] ==> !IsSpace(TrimStart(s)[0])
  {
    if s == [] || !IsSpace(s[0]) {
      left := [];
    } else {
      left := TrimStartDecomposes(s[1..]);
      left := [s[0]] + left;
    }
  }

  lemma {:induction false} TrimEndDecomposes(s: string) returns (right: string)
    ensures Blank(right) && s == TrimEnd(s) + right
    ensures TrimEnd(s) != [] ==> !IsSpace(TrimEnd(s)[|TrimEnd(s)| - 1])
  {
    if s == [] || !IsSpace(s[|s| - 1]) {
      right := [];
    } else {
      right := TrimEndDecomposes(s[..|s| - 1]);
      right := right + [s[|s| - 1]];
    }
  }

  /** Every string is white space, a trimmed core and white space. */
  lemma TrimDecomposes(s: string) returns (left: string, right: string)
    ensures Blank(left) && Blank(right)
    ensures s == left + Trim(s) + right
    ensures Trimmed(Trim(s))
  {
    hide TrimStart, TrimEnd, Blank;
    left := TrimStartDecomposes(s);
    right := TrimEndDecomposes(TrimStart(s));
    assert Trim(s) != [] ==> TrimStart(s)[0] == Trim(s)[0];
  }

  lemma NotBlankNotEmpty(x: string)
    ensures Blank(x) <==> Trim(x) == []
  {
    if Blank(x) {
      TrimStartBlank(x);
    } else {
      var left, right := TrimDecomposes(x);
      assert Trim(x) == [] ==> x == left + right;
    }
  }

  /** Stripping one end first does not change what trimming leaves. */
  lemma TrimAbsorbs(s: string)
    ensures Trim(TrimStart(s)) == Trim(s)
    ensures Trim(TrimEnd(s)) == Trim(s)
  {
    var left, right := TrimDecomposes(s);
    var core := Trim(s);
    if core == [] {
      assert s == left + right && Blank(s);
      TrimStartBlank(s);
      TrimEndBlank(s);
    } else {
      StripPadded(left, core, right);
    }
  }

  lemma StripPadded(left: string, core: string, right: string)
    requires Blank(left) && Blank(right) && Trimmed(core) && core != []
    ensures Trim(TrimStart(left + core + right)) == core
    ensures Trim(TrimEnd(left + core + right)) == core
  {
    hide TrimStart, TrimEnd, Trim;
    assert left + core + right == left + (core + right);
    TrimStartPadded(left, core + right);
    TrimEndPadded(left + core, right);
    TrimPadded([], core, right);
    TrimPadded(left, core, []);
    assert [] + core + right == core + right && left + core + [] == left + core;
  }

  /** A character that is not white space survives trimming, and trimming invents none. */
  lemma TrimKeeps(s: string, c: char)
    requires !IsSpace(c)
    ensures c in Trim(s) <==> c in s
  {
    var left, right := TrimDecomposes(s);
    assert c in s <==> c in left || c in Trim(s) || c in right;
  }

  lemma {:induction false} TrimStartAt(x: string, sep: char, rest: string)
    requires !IsSpace(sep)
    ensures TrimStart(x + [sep] + rest) == TrimStart(x) + [sep] + rest
  {
    if x == [] {
      assert x + [sep] + rest == [sep] + rest;
    } else if IsSpace(x[0]) {
      assert (x + [sep] + rest)[1..] == x[1..] + [sep] + rest;
      TrimStartAt(x[1..], sep, rest);
    }
  }

  lemma {:induction false} TrimEndAt(front: string, sep: char, x: string)
    requires !IsSpace(sep)
    ensures TrimEnd(front + [sep] + x) == front + [sep] + TrimEnd(x)
  {
    var s := front + [sep] + x;
    if x == [] {
      assert s[|s| - 1] == sep;
    } else if IsSpace(x[|x| - 1]) {
      assert s[..|s| - 1] == front + [sep] + x[..|x| - 1];
      TrimEndAt(front, sep, x[..|x| - 1]);
    }
  }

  /** Text ending in a stretch that is not all white space is trimmed inside that stretch. */
  lemma {:induction false} TrimEndInside(front: string, rest: string, c: char)
    requires c in rest && !IsSpace(c)
    ensures TrimEnd(front + rest) == front + TrimEnd(rest)
  {
    var s := front + rest;
    var n := |rest| - 1;
    assert s[|s| - 1] == rest[n];
    if !IsSpace(rest[n]) {
    } else {
      assert s[..|s| - 1] == front + rest[..n];
      assert rest == rest[..n] + [rest[n]];
      TrimEndInside(front, rest[..n], c);
    }
  }

  // ------------------------------------------------------------------ splitting

  lemma {:induction false} SplitAtom(x: string, sep: char)
    requires sep !in x
    ensures Split(x, sep) == [x]
  {
    if x == [] {
    } else {
      SplitAtom(x[1..], sep);
      assert [x[0]] + x[1..] == x;
    }
  }

  lemma {:induction false} SplitFirst(x: string, sep: char, rest: string)
    requires sep !in x
    ensures Split(x + [sep] + rest, sep) == [x] + Split(rest, sep)
  {
    var s := x + [sep] + rest;
    if x == [] {
      assert s[1..] == rest;
    } else {
      assert s[1..] == x[1..] + [sep] + rest;
      SplitFirst(x[1..], sep, rest);
      assert [x[0]] + x[1..] == x;
    }
  }

  /** Splitting undoes joining when no item holds the separator. */
  lemma {:induction false} SplitJoin(items: seq<string>, sep: char)
    requires items != []
    requires forall i :: 0 <= i < |items| ==> sep !in items[i]
    ensures Split(Join(items, sep), sep) == items
  {
    if |items| == 1 {
      SplitAtom(items[0], sep);
    } else {
      SplitFirst(items[0], sep, Join(items[1..], sep));
      SplitJoin(items[1..], sep);
    }
  }

  // ------------------------------------------------------------------ cutting at a separator

  /** Two texts cut at their first separator agree piece by piece. */
  lemma FirstCut(a: string, x: string, b: string, y: string, sep: char)
    requires sep !in a && sep !in b
    requires a + [sep] + x == b + [sep] + y
    ensures a == b && x == y
  {
    var s := a + [sep] + x;
    assert s == b + [sep] + y;
    assert s[|a|] == sep && s[|b|] == sep;
    assert forall i :: 0 <= i < |a| ==> s[i] == a[i] && s[i] != sep;
    assert forall i :: 0 <= i < |b| ==> s[i] == b[i] && s[i] != sep;
    assert |a| == |b|;
    assert s[..|a|] == a && s[..|b|] == b;
    assert s[|a| + 1..] == x && s[|b| + 1..] == y;
  }

  /** The same, cut at the last separator. */
  lemma LastCut(x: string, a: string, y: string, b: string, sep: char)
    requires sep !in a && sep !in b
    requires x + [sep] + a == y + [sep] + b
    ensures x == y && a == b
  {
    var s := x + [sep] + a;
    assert s == y + [sep] + b;
    assert s[|x|] == sep && s[|y|] == sep;
    assert forall i :: |x| < i < |s| ==> s[i] == a[i - |x| - 1] && s[i] != sep;
    assert forall i :: |y| < i < |s| ==> s[i] == b[i - |y| - 1] && s[i] != sep;
    assert |x| == |y|;
    assert s[..|x|] == x && s[..|y|] == y;
    assert s[|x| + 1..] == a && s[|y| + 1..] == b;
  }

  lemma CutAround(s: string, i: nat)
    requires i < |s|
    ensures s == s[..i] + [s[i]] + s[i + 1..]
  {}

  lemma HexHasNo(s: string, c: char)
    requires IsHex(s) && !IsHexDigit(c)
    ensures c !in s
  {}
}
