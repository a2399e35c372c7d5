/** The JavaScript built-ins the modelled code leans on, as functions on `string`:
    `String.prototype.split` with a one-character separator, `parseInt` without a radix,
    and the conversion of an integer to the string that storage keeps. */
module JsText {
  import opened Common

  /** Number of occurrences of `c` in `s`. */
  function Occurrences(s: string, c: char): nat {
    if s == [] then 0 else (if s[0] == c then 1 else 0) + Occurrences(s[1..], c)
  }

  lemma {:induction false} OccurrencesAppend(a: string, b: string, c: char)
    ensures Occurrences(a + b, c) == Occurrences(a, c) + Occurrences(b, c)
  {
    if a == [] {
      assert a + b == b;
    } else {
      assert (a + b)[0] == a[0];
      assert (a + b)[1..] == a[1..] + b;
      OccurrencesAppend(a[1..], b, c);
    }
  }

  lemma {:induction false} OccurrencesZero(s: string, c: char)
    ensures Occurrences(s, c) == 0 <==> c !in s
  {
    if s != [] {
      OccurrencesZero(s[1..], c);
      assert s == [s[0]] + s[1..];
    }
  }

  /** Joins pieces with `sep` between neighbours (the inverse of `Split`). */
  function Join(parts: seq<string>, sep: char): string
    requires |parts| >= 1
  {
    if |parts| == 1 then parts[0] else parts[0] + [sep] + Join(parts[1..], sep)
  }

  /** `s.split(sep)`: the pieces of `s` between occurrences of `sep`, empty pieces included.
      There is one piece more than there are separators, no piece holds the separator,
      and joining the pieces gives `s` back. */
  function Split(s: string, sep: char): (parts: seq<string>)
    ensures |parts| == Occurrences(s, sep) + 1
    ensures forall i :: 0 <= i < |parts| ==> sep !in parts[i]
    ensures Join(parts, sep) == s
  {
    if s == [] then [""]
    else
      var rest := Split(s[1..], sep);
      if s[0] == sep then
        assert ([""] + rest)[1..] == rest;
        [""] + rest
      else
        var first := [s[0]] + rest[0];
        assert ([first] + rest[1..])[1..] == rest[1..];
        assert |rest| > 1 ==> Join(rest, sep) == rest[0] + [sep] + Join(rest[1..], sep);
        assert s == [s[0]] + s[1..];
        [first] + rest[1..]
  }

  /** A piece without the separator splits into itself alone. */
  lemma {:induction false} SplitWithoutSeparator(s: string, sep: char)
    requires sep !in s
    ensures Split(s, sep) == [s]
  {
    OccurrencesZero(s, sep);
  }

  /** Splitting `a + [sep] + b`, where `a` has no separator, yields `a` and then the pieces of `b`. */
  lemma {:induction false} SplitAfterFirst(a: string, b: string, sep: char)
    requires sep !in a
    ensures Split(a + [sep] + b, sep) == [a] + Split(b, sep)
  {
    if a == [] {
      assert a + [sep] + b == [sep] + b;
      assert ([sep] + b)[1..] == b;
    } else {
      var s := a + [sep] + b;
      assert s[1..] == a[1..] + [sep] + b;
      SplitAfterFirst(a[1..], b, sep);
      assert a == [a[0]] + a[1..];
    }
  }

  // ---------------------------------------------------------------------------------------
  // Numbers as text

  /** The characters `parseInt` skips at the start of its argument (white space and line
      terminators of ECMAScript). */
  predicate IsJsWhitespace(c: char) {
    var k := c as int;
    (0x09 <= k <= 0x0D) || k == 0x20 || k == 0xA0 || k == 0x1680 || (0x2000 <= k <= 0x200A) ||
    k == 0x2028 || k == 0x2029 || k == 0x202F || k == 0x205F || k == 0x3000 || k == 0xFEFF
  }

  function TrimStart(s: string): (t: string)
    ensures |t| <= |s| && t == s[|s| - |t|..]
    ensures t == [] || !IsJsWhitespace(t[0])
  {
    if s != [] && IsJsWhitespace(s[0]) then TrimStart(s[1..]) else s
  }

  /** Value of `c` as a digit of base 16 (letters of either case), or -1. */
  function HexValue(c: char): int {
    if '0' <= c <= '9' then c as int - '0' as int
    else if 'a' <= c <= 'f' then c as int - 'a' as int + 10
    else if 'A' <= c <= 'F' then c as int - 'A' as int + 10
    else -1
  }

  predicate IsDigitOf(c: char, radix: int) {
    0 <= HexValue(c) < radix
  }


  /** Length of the longest prefix of `s` made of digits of `radix`. */
  function DigitPrefixLength(s: string, radix: int): (k: nat)
    ensures k <= |s|
    ensures forall i :: 0 <= i < k ==> IsDigitOf(s[i], radix)
    ensures k < |s| ==> !IsDigitOf(s[k], radix)
  {
    if s != [] && IsDigitOf(s[0], radix) then 1 + DigitPrefixLength(s[1..], radix) else 0
  }

  /** Value of a string of digits of `radix`, most significant digit first. */
  function DigitsValue(s: string, radix: int): int
    requires forall i :: 0 <= i < |s| ==> IsDigitOf(s[i], radix)
  {
    if s == [] then 0 else DigitsValue(s[..|s| - 1], radix) * radix + HexValue(s[|s| - 1])
  }

  /** What `parseInt` reads after skipping white space: the text without its sign. */
  function Unsigned(s: string): string {
    var t := TrimStart(s);
    if t != [] && (t[0] == '-' || t[0] == '+') then t[1..] else t
  }

  predicate IsNegative(s: string) {
    var t := TrimStart(s);
    t != [] && t[0] == '-'
  }

  predicate HasHexPrefix(u: string) {
    |u| >= 2 && u[0] == '0' && (u[1] == 'x' || u[1] == 'X')
  }

  /** `parseInt(s)` with no radix: skip leading white space, read an optional sign, read
      hexadecimal digits after a `0x`/`0X` prefix and decimal digits otherwise, stop at the
      first character that is not a digit. `None` stands for NaN, the only non-integer result. */
  function ParseInt(s: string): Option<int> {
    var u := Unsigned(s);
    var radix := if HasHexPrefix(u) then 16 else 10;
    var digits := if HasHexPrefix(u) then u[2..] else u;
    var k := DigitPrefixLength(digits, radix);
    if k == 0 then None
    else
      var magnitude := DigitsValue(digits[..k], radix);
      Some(if IsNegative(s) then -magnitude else magnitude)
  }

  function DecimalChar(d: int): (c: char)
    requires 0 <= d < 10
    ensures IsDigitOf(c, 10) && HexValue(c) == d
  {
    ('0' as int + d) as char
  }

  /** The decimal numeral of `n` without leading zeros, as `String(n)` writes it. */
  function NatToString(n: nat): (s: string)
    ensures |s| >= 1
    ensures forall i :: 0 <= i < |s| ==> IsDigitOf(s[i], 10)
    ensures DigitsValue(s, 10) == n
  {
    if n < 10 then [DecimalChar(n)]
    else
      var s := NatToString(n / 10) + [DecimalChar(n % 10)];
      assert s[..|s| - 1] == NatToString(n / 10);
      s
  }

  /** The string JavaScript stores for an integer number: its decimal numeral, with a minus
      sign when negative. */
  function IntToString(n: int): string {
    if n < 0 then "-" + NatToString(-n) else NatToString(n)
  }

  lemma {:induction false} AllDigitsPrefix(s: string)
    requires forall i :: 0 <= i < |s| ==> IsDigitOf(s[i], 10)
    ensures DigitPrefixLength(s, 10) == |s|
  {
    if s != [] {
      AllDigitsPrefix(s[1..]);
    }
  }

  /** `parseInt` reads a whole unsigned decimal numeral that follows the sign. */
  lemma ParseIntOfNumeral(s: string, d: string)
    requires Unsigned(s) == d && !HasHexPrefix(d) && |d| > 0
    requires forall i :: 0 <= i < |d| ==> IsDigitOf(d[i], 10)
    requires DigitPrefixLength(d, 10) == |d|
    ensures ParseInt(s) == Some(if IsNegative(s) then -DigitsValue(d, 10) else DigitsValue(d, 10))
  {
    assert d[..|d|] == d;
  }

  lemma TrimStartOfNonBlank(s: string)
    requires s != [] && !IsJsWhitespace(s[0])
    ensures TrimStart(s) == s
  {
  }

  /** A string of decimal digits, alone or after a minus sign, is what `parseInt` reads. */
  lemma DigitsAreUnsignedPart(d: string, negative: bool)
    requires |d| >= 1 && forall i :: 0 <= i < |d| ==> IsDigitOf(d[i], 10)
    ensures var s := if negative then "-" + d else d;
      Unsigned(s) == d && (IsNegative(s) <==> negative) && !HasHexPrefix(d)
  {
    assert '0' <= d[0] <= '9';
    assert |d| >= 2 ==> '0' <= d[1] <= '9';
    if negative {
      var s := "-" + d;
      assert s[0] == '-' && s[1..] == d;
      TrimStartOfNonBlank(s);
    } else {
      TrimStartOfNonBlank(d);
    }
  }

  /** Reading back what was written: `parseInt(String(n)) === n` for every integer `n`. */
  lemma ParseIntOfIntToString(n: int)
    ensures ParseInt(IntToString(n)) == Some(n)
  {
    var d := NatToString(if n < 0 then -n else n);
    AllDigitsPrefix(d);
    DigitsAreUnsignedPart(d, n < 0);
    ParseIntOfNumeral(IntToString(n), d);
  }

  /** `s.length`: JavaScript counts UTF-16 code units, so a character outside the Basic
      Multilingual Plane (a surrogate pair) counts twice. */
  function CodeUnitLength(s: string): (n: nat)
    ensures |s| <= n <= 2 * |s|
    ensures (forall i :: 0 <= i < |s| ==> s[i] as int <= 0xFFFF) ==> n == |s|
  {
    if s == [] then 0
    else CodeUnitLength(s[..|s| - 1]) + (if s[|s| - 1] as int > 0xFFFF then 2 else 1)
  }

  /** The length of a concatenation is the sum of the lengths. */
  lemma {:induction false} CodeUnitLengthAppend(a: string, b: string)
    ensures CodeUnitLength(a + b) == CodeUnitLength(a) + CodeUnitLength(b)
    decreases |b|
  {
    if b == [] {
      assert a + b == a;
    } else {
      assert (a + b)[..|a + b| - 1] == a + b[..|b| - 1];
      CodeUnitLengthAppend(a, b[..|b| - 1]);
    }
  }

  /** An emoji is one character but two code units. */
  lemma EmojiIsTwoCodeUnits()
    ensures |"\U{1F600}"| == 1 && CodeUnitLength("\U{1F600}") == 2
  {
    assert "\U{1F600}"[..0] == [];
  }
}
