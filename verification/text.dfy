/**
 * String helpers the server relies on from Rust's standard library:
 * `str::trim`, `str::split`, `str::split_once`, `strip_prefix`/`strip_suffix`,
 * `u64::to_string`, `u64::from_str` and `str::len` (a UTF-8 byte count).
 */
module Text {
  import opened Wrappers

  /** An unsigned 64-bit integer, the width of every id in the system. */
  type U64 = n: nat | n < 0x1_0000_0000_0000_0000

  const U64_LIMIT: nat := 0x1_0000_0000_0000_0000

  // ---------------------------------------------------------------------------
  // Trimming
  // ---------------------------------------------------------------------------

  /** The Unicode White_Space property, which is what `str::trim` strips. */
  predicate IsWhitespace(c: char) {
    || ('\t' <= c <= '\r')
    || c == ' '
    || c == '\U{85}'
    || c == '\U{A0}'
    || c == '\U{1680}'
    || ('\U{2000}' <= c <= '\U{200A}')
    || c == '\U{2028}'
    || c == '\U{2029}'
    || c == '\U{202F}'
    || c == '\U{205F}'
    || c == '\U{3000}'
  }

  predicate AllWhitespace(s: string) {
    forall i :: 0 <= i < |s| ==> IsWhitespace(s[i])
  }

  predicate NoWhitespace(s: string) {
    forall i :: 0 <= i < |s| ==> !IsWhitespace(s[i])
  }

  /** The end of the whitespace run that starts at `i`. */
  function SpaceEnd(s: string, i: nat): (e: nat)
    requires i <= |s|
    ensures i <= e <= |s|
    ensures forall k :: i <= k < e ==> IsWhitespace(s[k])
    ensures e < |s| ==> !IsWhitespace(s[e])
    decreases |s| - i
  {
    if i < |s| && IsWhitespace(s[i]) then SpaceEnd(s, i + 1) else i
  }

  /** The start of the whitespace run that ends at `j`. */
  function SpaceStart(s: string, j: nat): (b: nat)
    requires j <= |s|
    ensures b <= j
    ensures forall k :: b <= k < j ==> IsWhitespace(s[k])
    ensures b > 0 ==> !IsWhitespace(s[b - 1])
  {
    if j > 0 && IsWhitespace(s[j - 1]) then SpaceStart(s, j - 1) else j
  }

  /** `s[i..j]` is what remains of `s` after an all-whitespace prefix and suffix are cut off. */
  predicate Margins(s: string, i: int, j: int) {
    0 <= i <= j <= |s| && AllWhitespace(s[..i]) && AllWhitespace(s[j..])
  }

  /** Rust's `str::trim`: drops the longest all-whitespace prefix and suffix. */
  function Trim(s: string): (r: string)
    ensures |r| <= |s|
    ensures exists i, j :: Margins(s, i, j) && r == s[i..j]
    ensures |r| == 0 <==> AllWhitespace(s)
    ensures |r| > 0 ==> !IsWhitespace(r[0]) && !IsWhitespace(r[|r| - 1])
    ensures NoWhitespace(s) ==> r == s
  {
    var start := SpaceEnd(s, 0);
    if start == |s| then
      assert Margins(s, 0, 0);
      ""
    else
      var end := SpaceStart(s, |s|);
      assert !IsWhitespace(s[start]);
      assert Margins(s, start, end);
      s[start..end]
  }

  /**
   * The contract of `Trim` has one solution: any infix left after cutting
   * whitespace margins that neither starts nor ends with whitespace is the trim.
   */
  lemma TrimUnique(s: string, i: nat, j: nat)
    requires Margins(s, i, j)
    requires i < j ==> !IsWhitespace(s[i]) && !IsWhitespace(s[j - 1])
    ensures Trim(s) == s[i..j]
  {
    MarginsWhitespace(s, i, j);
    var start := SpaceEnd(s, 0);
    if i == j {
      assert start == |s|;
    } else {
      assert start == i;
      assert SpaceStart(s, |s|) == j;
    }
  }

  /** Every character of a margin is whitespace. */
  lemma MarginsWhitespace(s: string, i: int, j: int)
    requires Margins(s, i, j)
    ensures forall k :: 0 <= k < i ==> IsWhitespace(s[k])
    ensures forall k :: j <= k < |s| ==> IsWhitespace(s[k])
  {
    forall k | 0 <= k < i ensures IsWhitespace(s[k]) {
      assert s[..i][k] == s[k];
    }
    forall k | j <= k < |s| ensures IsWhitespace(s[k]) {
      assert s[j..][k - j] == s[k];
    }
  }

  // ---------------------------------------------------------------------------
  // Splitting and joining
  // ---------------------------------------------------------------------------

  /** Concatenates the parts with one `sep` between neighbours. */
  function Join(parts: seq<string>, sep: char): string {
    if |parts| == 0 then ""
    else if |parts| == 1 then parts[0]
    else parts[0] + [sep] + Join(parts[1..], sep)
  }

  /**
   * Rust's `str::split` on a single character: the pieces between the
   * separators, including empty ones; there is always at least one piece.
   */
  function Split(s: string, sep: char): (parts: seq<string>)
    ensures |parts| >= 1
    ensures forall i :: 0 <= i < |parts| ==> sep !in parts[i]
    ensures Join(parts, sep) == s
  {
    if |s| == 0 then [""]
    else
      var rest := Split(s[1..], sep);
      if s[0] == sep then
        assert ([""] + rest)[1..] == rest;
        [""] + rest
      else
        var parts := [[s[0]] + rest[0]] + rest[1..];
        assert parts[1..] == rest[1..];
        assert |rest| > 1 ==> Join(rest, sep) == rest[0] + [sep] + Join(rest[1..], sep);
        assert s == [s[0]] + s[1..];
        parts
  }

  /** A piece free of the separator splits to itself. */
  lemma {:induction false} SplitNoSeparator(a: string, sep: char)
    requires sep !in a
    ensures Split(a, sep) == [a]
    decreases |a|
  {
    if |a| > 0 {
      SplitNoSeparator(a[1..], sep);
      assert [a[0]] + a[1..] == a;
    }
  }

  lemma {:induction false} SplitCons(a: string, b: string, sep: char)
    requires sep !in a
    ensures Split(a + [sep] + b, sep) == [a] + Split(b, sep)
    decreases |a|
  {
    var s := a + [sep] + b;
    if |a| == 0 {
      assert s[1..] == b;
    } else {
      assert s[1..] == a[1..] + [sep] + b;
      SplitCons(a[1..], b, sep);
      assert [a[0]] + a[1..] == a;
    }
  }

  /** Splitting undoes joining when no part contains the separator. */
  lemma {:induction false} SplitJoin(parts: seq<string>, sep: char)
    requires |parts| >= 1
    requires forall i :: 0 <= i < |parts| ==> sep !in parts[i]
    ensures Split(Join(parts, sep), sep) == parts
  {
    if |parts| == 1 {
      SplitNoSeparator(parts[0], sep);
    } else {
      SplitJoin(parts[1..], sep);
      SplitCons(parts[0], Join(parts[1..], sep), sep);
      assert [parts[0]] + parts[1..] == parts;
    }
  }

  /** The position of the first `c` in `s`, if any. */
  function FirstIndex(s: string, c: char): (r: Option<nat>)
    ensures r.None? <==> c !in s
    ensures r.Some? ==> r.value < |s| && s[r.value] == c && c !in s[..r.value]
  {
    if |s| == 0 then None
    else if s[0] == c then Some(0)
    else
      match FirstIndex(s[1..], c)
      case None =>
        assert s == [s[0]] + s[1..];
        None
      case Some(i) =>
        assert s[..i + 1] == [s[0]] + s[1..][..i];
        Some(i + 1)
  }

  /** Rust's `str::split_once`: the text before and after the FIRST `c`. */
  function SplitOnce(s: string, c: char): (r: Option<(string, string)>)
    ensures r.None? <==> c !in s
    ensures r.Some? ==> s == r.value.0 + [c] + r.value.1 && c !in r.value.0
  {
    match FirstIndex(s, c)
    case None => None
    case Some(i) =>
      assert s == s[..i] + [c] + s[i + 1..];
      Some((s[..i], s[i + 1..]))
  }

  /** Splitting at the first `c` recovers any decomposition whose left part has no `c`. */
  lemma SplitOnceAt(a: string, c: char, b: string)
    requires c !in a
    ensures SplitOnce(a + [c] + b, c) == Some((a, b))
  {
    var s := a + [c] + b;
    assert s[|a|] == c;
    var r := SplitOnce(s, c);
    var x := r.value.0;
    assert |x| == |a|;
    assert x == s[..|a|] == a;
    assert r.value.1 == s[|a| + 1..] == b;
  }

  /** `s.strip_prefix(c).unwrap_or(s)`: drops one leading `c`, if present. */
  function DropLeading(s: string, c: char): string {
    if |s| > 0 && s[0] == c then s[1..] else s
  }

  /** `s.strip_suffix(c).unwrap_or(s)`: drops one trailing `c`, if present. */
  function DropTrailing(s: string, c: char): string {
    if |s| > 0 && s[|s| - 1] == c then s[..|s| - 1] else s
  }

  // ---------------------------------------------------------------------------
  // Decimal numbers
  // ---------------------------------------------------------------------------

  predicate IsDigit(c: char) {
    '0' <= c <= '9'
  }

  predicate AllDigits(s: string) {
    forall i :: 0 <= i < |s| ==> IsDigit(s[i])
  }

  function DigitValue(c: char): nat
    requires IsDigit(c)
  {
    c as int - '0' as int
  }

  function DigitChar(d: nat): (c: char)
    requires d < 10
    ensures IsDigit(c) && DigitValue(c) == d
  {
    ('0' as int + d) as char
  }

  /** The value of a run of decimal digits, most significant first. */
  function DigitsValue(s: string): nat
    requires AllDigits(s)
  {
    if |s| == 0 then 0 else 10 * DigitsValue(s[..|s| - 1]) + DigitValue(s[|s| - 1])
  }

  /** The `Display` form of an unsigned integer: decimal, no sign, no leading zeros. */
  function Decimal(n: nat): (r: string)
    ensures |r| >= 1 && AllDigits(r)
    ensures |r| > 1 ==> r[0] != '0'
  {
    if n < 10 then [DigitChar(n)] else Decimal(n / 10) + [DigitChar(n % 10)]
  }

  lemma {:induction false} DecimalValue(n: nat)
    ensures DigitsValue(Decimal(n)) == n
  {
    if n >= 10 {
      DecimalValue(n / 10);
      var r := Decimal(n);
      assert r[..|r| - 1] == Decimal(n / 10);
    }
  }

  /** Distinct numbers print differently. */
  lemma DecimalInjective(a: nat, b: nat)
    requires Decimal(a) == Decimal(b)
    ensures a == b
  {
    DecimalValue(a);
    DecimalValue(b);
  }

  function ParseDigits(d: string): Option<U64> {
    if |d| > 0 && AllDigits(d) && DigitsValue(d) < U64_LIMIT then Some(DigitsValue(d)) else None
  }

  /**
   * Rust's `u64::from_str`: an optional leading `+`, then at least one
   * decimal digit (leading zeros allowed), and a value below 2^64.
   */
  function ParseU64(s: string): (r: Option<U64>)
    ensures r.Some? ==> |s| > 0 && (s[0] == '+' || IsDigit(s[0]))
    ensures r.Some? ==>
      var digits := if s[0] == '+' then s[1..] else s;
      |digits| > 0 && AllDigits(digits) && r.value == DigitsValue(digits)
    ensures |s| > 0 && AllDigits(s) ==> (r.Some? <==> DigitsValue(s) < U64_LIMIT)
    ensures |s| > 1 && s[0] == '+' && AllDigits(s[1..]) ==> (r.Some? <==> DigitsValue(s[1..]) < U64_LIMIT)
  {
    if |s| == 0 then None
    else if s[0] == '+' then (if |s| == 1 then None else ParseDigits(s[1..]))
    else ParseDigits(s)
  }

  /** A leading `+` is accepted and changes nothing. */
  lemma ParsePlus(digits: string)
    requires AllDigits(digits)
    ensures ParseU64("+" + digits) == ParseU64(digits)
  {
  }

  /** A leading zero does not change the value of a digit run. */
  lemma {:induction false} DigitsLeadingZero(digits: string)
    requires AllDigits(digits)
    ensures AllDigits("0" + digits) && DigitsValue("0" + digits) == DigitsValue(digits)
    decreases |digits|
  {
    if |digits| > 0 {
      var init := digits[..|digits| - 1];
      DigitsLeadingZero(init);
      assert ("0" + digits)[..|"0" + digits| - 1] == "0" + init;
    }
  }

  /** Leading zeros are accepted and change nothing. */
  lemma ParseLeadingZero(digits: string)
    requires |digits| > 0 && AllDigits(digits)
    ensures ParseU64("0" + digits) == ParseU64(digits)
  {
    DigitsLeadingZero(digits);
  }

  lemma ParseExamples()
    ensures ParseU64("007") == Some(7)
    ensures ParseU64("+7") == Some(7)
    ensures ParseU64("+") == None && ParseU64("") == None && ParseU64("-7") == None
  {
    assert "0" + "07" == "007" && "0" + "7" == "07" && "+" + "7" == "+7";
    ParseLeadingZero("07");
    ParseLeadingZero("7");
    ParsePlus("7");
    assert DigitsValue("7") == 7;
  }

  /** Printing then parsing recovers every u64, and nothing larger parses. */
  lemma ParseDecimal(n: nat)
    ensures ParseU64(Decimal(n)) == (if n < U64_LIMIT then Some(n) else None)
  {
    DecimalValue(n);
  }

  // ---------------------------------------------------------------------------
  // UTF-8 length
  // ---------------------------------------------------------------------------

  /** Bytes taken by one scalar value in UTF-8. */
  function Utf8Width(c: char): nat {
    if c as int < 0x80 then 1
    else if c as int < 0x800 then 2
    else if c as int < 0x1_0000 then 3
    else 4
  }

  /** Rust's `str::len`: the UTF-8 byte length, between one and four bytes per character. */
  function Utf8Len(s: string): (n: nat)
    ensures |s| <= n <= 4 * |s|
    ensures (forall i :: 0 <= i < |s| ==> s[i] as int < 0x80) ==> n == |s|
  {
    if |s| == 0 then 0 else Utf8Width(s[0]) + Utf8Len(s[1..])
  }
}
