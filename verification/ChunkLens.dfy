/** The `X-Dig-Chunk-Lens` header: comma-separated decimal chunk lengths. */
module ChunkLens {
  import opened Wrappers
  import opened Text
  import opened Types

  predicate IsDigit(c: char) {
    '0' <= c <= '9'
  }

  predicate AllDigits(s: string) {
    forall i :: 0 <= i < |s| ==> IsDigit(s[i])
  }

  function DigitValue(c: char): nat
    requires IsDigit(c)
  {
    c as int - '0' as int
  }

  function DecimalValue(s: string): nat
    requires AllDigits(s)
  {
    if s == [] then 0 else 10 * DecimalValue(s[..|s| - 1]) + DigitValue(s[|s| - 1])
  }

  /** `str::parse::<u32>`: an optional leading plus, at least one digit, a value below 2^32. */
  function ParseU32(s: string): Option<u32> {
    var digits := if s != [] && s[0] == '+' then s[1..] else s;
    if digits == [] || !AllDigits(digits) then None
    else
      var n := DecimalValue(digits);
      if n < 0x1_0000_0000 then Some(n) else None
  }

  function ParseItems(items: seq<string>): Option<seq<u32>> {
    if items == [] then Some([])
    else
      match ParseU32(Trim(items[0]))
      case None => None
      case Some(n) =>
        match ParseItems(items[1..])
        case None => None
        case Some(rest) => Some([n] + rest)
  }

  function ParseChunkLens(header: Option<string>): Result<seq<u32>, Error> {
    var raw := match header case None => [] case Some(h) => Trim(h);
    if raw == [] then Success([])
    else
      match ParseItems(Split(raw, ','))
      case None => Failure(VerifyFailed)
      case Some(lens) => Success(lens)
  }

  /** Decimal printing, as the node renders each length. */
  function Decimal(n: nat): (s: string)
    ensures s != []
  {
    var digit := ('0' as int + n % 10) as char;
    if n < 10 then [digit] else Decimal(n / 10) + [digit]
  }

  // ------------------------------------------------------------------ the exact accepted language

  lemma {:induction false} DecimalInverts(n: nat)
    ensures AllDigits(Decimal(n))
    ensures DecimalValue(Decimal(n)) == n
  {
    if n >= 10 {
      DecimalInverts(n / 10);
      var s := Decimal(n);
      assert s[..|s| - 1] == Decimal(n / 10);
    } else {
      var s := Decimal(n);
      assert s[..|s| - 1] == [];
    }
  }

  function Zeros(k: nat): (s: string)
    ensures |s| == k && forall i :: 0 <= i < k ==> s[i] == '0'
  {
    seq(k, i => '0')
  }

  /** Leading zeros add nothing. */
  lemma {:induction false} ZerosAddNothing(k: nat, n: nat)
    ensures AllDigits(Zeros(k) + Decimal(n)) && DecimalValue(Zeros(k) + Decimal(n)) == n
    decreases n
  {
    DecimalInverts(n);
    var s := Zeros(k) + Decimal(n);
    if n < 10 {
      ZerosAreZero(k);
      assert s[..|s| - 1] == Zeros(k);
    } else {
      ZerosAddNothing(k, n / 10);
      assert s[..|s| - 1] == Zeros(k) + Decimal(n / 10);
    }
  }

  lemma {:induction false} ZerosAreZero(k: nat)
    ensures DecimalValue(Zeros(k)) == 0
  {
    if k == 0 {
    } else {
      ZerosAreZero(k - 1);
      assert Zeros(k)[..k - 1] == Zeros(k - 1);
    }
  }

  /** Every numeral is its value printed in decimal, after some zeros. */
  lemma {:induction false} NumeralShape(digits: string) returns (k: nat)
    requires digits != [] && AllDigits(digits)
    ensures digits == Zeros(k) + Decimal(DecimalValue(digits))
  {
    var front, d := digits[..|digits| - 1], digits[|digits| - 1];
    assert digits == front + [d];
    if front == [] {
      k := 0;
      assert digits == Zeros(0) + Decimal(DigitValue(d));
    } else {
      k := NumeralShape(front);
      NumeralGrows(k, DecimalValue(front), d);
      if DecimalValue(front) == 0 {
        k := k + 1;
      }
    }
  }

  /** One more digit: a numeral of value zero is zeros only, and any other goes on printing. */
  lemma NumeralGrows(k: nat, v: nat, d: char)
    requires IsDigit(d)
    ensures Zeros(k) + Decimal(v) + [d] ==
              if v == 0 then Zeros(k + 1) + Decimal(DigitValue(d)) else Zeros(k) + Decimal(10 * v + DigitValue(d))
  {
    if v == 0 {
      assert Zeros(k) + Decimal(0) == Zeros(k + 1);
      assert Decimal(DigitValue(d)) == [d];
    } else {
      assert Decimal(10 * v + DigitValue(d)) == Decimal(v) + [d];
      assert Zeros(k) + Decimal(v) + [d] == Zeros(k) + (Decimal(v) + [d]);
    }
  }

  /** The numbers accepted: those below 2^32, printed in decimal, with any number of leading zeros and
      one optional plus sign, and no other text. */
  lemma U32Exactly(s: string, n: nat)
    ensures n < 0x1_0000_0000 && ParseU32(s) == Some(n) <==>
              n < 4_294_967_296 && exists k: nat :: s == Zeros(k) + Decimal(n) || s == ['+'] + (Zeros(k) + Decimal(n))
  {
    if n < 0x1_0000_0000 && ParseU32(s) == Some(n) {
      var k := NumeralShape(if s[0] == '+' then s[1..] else s);
      assert s == (if s[0] == '+' then ['+'] + s[1..] else s);
      assert s == Zeros(k) + Decimal(n) || s == ['+'] + (Zeros(k) + Decimal(n));
    }
    forall k: nat | s == Zeros(k) + Decimal(n) || s == ['+'] + (Zeros(k) + Decimal(n))
      ensures n < 0x1_0000_0000 ==> ParseU32(s) == Some(n)
    {
      var digits := Zeros(k) + Decimal(n);
      ZerosAddNothing(k, n);
      assert digits[0] != '+';
      assert s == ['+'] + digits ==> s[1..] == digits;
    }
  }

  lemma {:induction false} ItemsParse(items: seq<string>)
    ensures ParseItems(items).Some? <==> forall i :: 0 <= i < |items| ==> ParseU32(Trim(items[i])).Some?
    ensures ParseItems(items).Some? ==>
              && |ParseItems(items).value| == |items|
              && forall i :: 0 <= i < |items| ==> ParseU32(Trim(items[i])) == Some(ParseItems(items).value[i])
  {
    if items == [] {
    } else {
      ItemsParse(items[1..]);
      assert forall i :: 0 < i < |items| ==> items[i] == items[1..][i - 1];
      if ParseItems(items[1..]).Some? {
        assert forall i :: 0 < i < |items| ==> ParseU32(Trim(items[i])).Some?;
      } else {
        var i :| 0 <= i < |items| - 1 && ParseU32(Trim(items[1..][i])).None?;
        assert items[i + 1] == items[1..][i];
      }
    }
  }

  /** Trimming the whole header first leaves each item's own trimmed text alone. */
  lemma {:induction false} SplitTrimmed(items: seq<string>)
    requires |items| > 1 && forall i :: 0 <= i < |items| ==> ',' !in items[i]
    ensures Trim(Join(items, ',')) != []
    ensures ParseItems(Split(Trim(Join(items, ',')), ',')) == ParseItems(items)
  {
    var n := |items| - 1;
    var trimmed := items[0 := TrimStart(items[0])];
    var trimmed' := trimmed[n := TrimEnd(items[n])];
    assert trimmed[1..] == items[1..];
    TrimStartAt(items[0], ',', Join(items[1..], ','));
    assert TrimStart(Join(items, ',')) == Join(trimmed, ',');
    JoinTrimEnd(trimmed);
    assert Trim(Join(items, ',')) == Join(trimmed', ',');
    forall i | 0 <= i < |items|
      ensures ',' !in trimmed'[i] && Trim(trimmed'[i]) == Trim(items[i])
    {
      TrimAbsorbs(items[i]);
      StrippedHasNo(items[i], ',');
    }
    SplitJoin(trimmed', ',');
    SameTrimsSameParse(items, trimmed');
    assert |Join(trimmed', ',')| >= 1;
  }

  lemma {:induction false} JoinTrimEnd(items: seq<string>)
    requires |items| > 1
    ensures TrimEnd(Join(items, ',')) == Join(items[|items| - 1 := TrimEnd(items[|items| - 1])], ',')
  {
    var n := |items| - 1;
    var last := TrimEnd(items[n]);
    var head, tail := items[0] + [','], items[1..];
    assert items[n := last][1..] == tail[n - 1 := last];
    if n == 1 {
      TrimEndAt(items[0], ',', items[1]);
    } else {
      JoinTrimEnd(tail);
      LastSurvives(tail);
      TrimEndInside(head, Join(tail, ','), ',');
    }
  }

  lemma LastSurvives(items: seq<string>)
    requires |items| > 1
    ensures ',' in Join(items, ',')
  {}

  lemma {:induction false} StrippedHasNo(s: string, c: char)
    requires c !in s
    ensures c !in TrimStart(s) && c !in TrimEnd(s)
    decreases |s|
  {
    if s == [] {
    } else {
      StrippedHasNo(s[1..], c);
      StrippedHasNo(s[..|s| - 1], c);
    }
  }

  lemma {:induction false} SameTrimsSameParse(a: seq<string>, b: seq<string>)
    requires |a| == |b| && forall i :: 0 <= i < |a| ==> Trim(a[i]) == Trim(b[i])
    ensures ParseItems(a) == ParseItems(b)
  {
    if a == [] {
    } else {
      SameTrimsSameParse(a[1..], b[1..]);
    }
  }

  lemma JoinOne(items: seq<string>)
    requires |items| == 1
    ensures Join(items, ',') == items[0] && items == [items[0]]
  {}

  /** A header of one item: empty when the item is blank, and otherwise that item. */
  lemma OneItem(x: string)
    requires ',' !in x
    ensures Blank(x) <==> Trim(x) == []
    ensures ParseItems(Split(Trim(x), ',')) == ParseItems([x])
  {
    hide Trim, Split, Blank, ParseU32;
    NotBlankNotEmpty(x);
    TrimKeepsNot(x, ',');
    SplitAtom(Trim(x), ',');
    TrimTwice(x);
    SameTrimsSameParse([Trim(x)], [x]);
  }

  lemma TrimTwice(x: string)
    ensures Trim(Trim(x)) == Trim(x)
  {
    hide Trim;
    var left, right := TrimDecomposes(x);
    TrimPadded([], Trim(x), []);
    assert [] + Trim(x) + [] == Trim(x);
  }

  /** The accepted language, both ways: a header built of comma-free items is read back item by
      item, and refused exactly when some item is not a u32 once trimmed. A single blank item is
      the one exception: it is the empty header, which means a single chunk. */
  lemma ParseExact(items: seq<string>)
    requires items != [] && forall i :: 0 <= i < |items| ==> ',' !in items[i]
    ensures var r := ParseChunkLens(Some(Join(items, ',')));
            if |items| == 1 && Blank(items[0]) then r == Success([])
            else if exists i :: 0 <= i < |items| && ParseU32(Trim(items[i])).None? then r == Failure(VerifyFailed)
            else r.Success? && |r.value| == |items|
                 && forall i :: 0 <= i < |items| ==> ParseU32(Trim(items[i])) == Some(r.value[i])
  {
    hide Trim, Split, Join, Blank, ParseU32, ParseItems;
    ItemsParse(items);
    if |items| > 1 {
      SplitTrimmed(items);
    } else {
      OneItem(items[0]);
      JoinOne(items);
    }
  }

  lemma TrimKeepsNot(s: string, c: char)
    requires c !in s && !IsSpace(c)
    ensures c !in Trim(s)
  {
    TrimKeeps(s, c);
  }

  /** Parsing inverts printing for every list, whatever white space surrounds each number. */
  lemma RoundTrip(lens: seq<u32>, left: seq<string>, right: seq<string>)
    requires |left| == |right| == |lens|
    requires forall i :: 0 <= i < |lens| ==> Blank(left[i]) && Blank(right[i])
    ensures var items := seq(|lens|, i requires 0 <= i < |lens| => left[i] + Decimal(lens[i]) + right[i]);
            ParseChunkLens(Some(Join(items, ','))) == Success(lens)
  {
    var items := seq(|lens|, i requires 0 <= i < |lens| => left[i] + Decimal(lens[i]) + right[i]);
    if lens != [] {
      forall i | 0 <= i < |lens|
        ensures ',' !in items[i] && !Blank(items[i]) && ParseU32(Trim(items[i])) == Some(lens[i])
      {
        PaddedNumber(left[i], lens[i], right[i]);
      }
      ParseExact(items);
      assert ParseChunkLens(Some(Join(items, ','))).value == lens;
    }
  }

  lemma PaddedNumber(left: string, n: u32, right: string)
    requires Blank(left) && Blank(right)
    ensures var item := left + Decimal(n) + right;
            ',' !in item && !Blank(item) && ParseU32(Trim(item)) == Some(n)
  {
    DecimalInverts(n);
    var d := Decimal(n);
    var item := left + d + right;
    assert item[|left|] == d[0];
    TrimPadded(left, d, right);
  }
}
