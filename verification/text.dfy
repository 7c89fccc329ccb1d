/** Character classes and string operations of JavaScript that the engine,
    the control panel and the pattern generator use: decimal and hex
    digits, the `\s` / `trim` whitespace class, `indexOf`, `replace` with a
    string pattern (first occurrence only) and `trim`. */
module Text {
  import opened Wrappers

  // ---------------------------------------------------------------- digits

  predicate IsDigit(c: char) {
    '0' <= c <= '9'
  }

  predicate AllDigits(s: string) {
    forall i :: 0 <= i < |s| ==> IsDigit(s[i])
  }

  function DigitValue(c: char): (d: nat)
    requires IsDigit(c)
    ensures d < 10
  {
    c as int - '0' as int
  }

  function DigitChar(d: nat): (c: char)
    requires d < 10
    ensures IsDigit(c) && DigitValue(c) == d
  {
    ('0' as int + d) as char
  }

  /** The value of a run of decimal digits, as `parseInt(s, 10)` reads it. */
  function DecimalValue(s: string): nat
    requires AllDigits(s)
    decreases |s|
  {
    if s == [] then 0 else 10 * DecimalValue(s[..|s| - 1]) + DigitValue(s[|s| - 1])
  }

  /** The text JavaScript's `String(n)` gives a non-negative integer below
      10^21: its shortest decimal digits. */
  function Decimal(n: nat): (s: string)
    ensures 0 < |s| && AllDigits(s)
    decreases n
  {
    if n < 10 then [DigitChar(n)] else Decimal(n / 10) + [DigitChar(n % 10)]
  }

  /** Reading back the decimal text of `n` gives `n`. */
  lemma {:induction false} DecimalRoundTrip(n: nat)
    ensures DecimalValue(Decimal(n)) == n
  {
    if n >= 10 {
      var s := Decimal(n);
      assert s[..|s| - 1] == Decimal(n / 10);
      DecimalRoundTrip(n / 10);
    }
  }

  /** Length of the longest prefix of `s` made of decimal digits: what a
      greedy `\d*` consumes. */
  function DigitRun(s: string): (n: nat)
    ensures n <= |s| && AllDigits(s[..n])
    ensures n < |s| ==> !IsDigit(s[n])
  {
    if s == [] || !IsDigit(s[0]) then 0
    else
      var k := DigitRun(s[1..]);
      assert s[..k + 1] == [s[0]] + s[1..][..k];
      1 + k
  }

  /** A digit run followed by a non-digit is consumed exactly. */
  lemma {:induction false} DigitRunOfDigits(d: string, rest: string)
    requires AllDigits(d)
    requires rest == [] || !IsDigit(rest[0])
    ensures DigitRun(d + rest) == |d|
  {
    if d != [] {
      assert (d + rest)[1..] == d[1..] + rest;
      DigitRunOfDigits(d[1..], rest);
    }
  }

  /** A digit run that stops inside `d` stops at the same place whatever
      follows `d`. */
  lemma {:induction false} DigitRunStopsInside(d: string, rest: string)
    requires DigitRun(d) < |d|
    ensures DigitRun(d + rest) == DigitRun(d)
  {
    if IsDigit(d[0]) {
      assert (d + rest)[1..] == d[1..] + rest;
      DigitRunStopsInside(d[1..], rest);
    }
  }

  /** `parseInt(t)` for the text `String(x)` of a finite number `x`: an
      optional `-`, then the leading run of decimal digits read in base 10;
      whatever follows (a fraction, an exponent) is ignored. Such a text
      never starts with a space or `+`, and always has a digit after the
      sign, so the `NaN` of an empty run does not arise. */
  function ParseIntText(t: string): (r: int)
    ensures 0 < |t| && t[0] == '-' ==> r <= 0
    ensures !(0 < |t| && t[0] == '-') ==> 0 <= r
  {
    if 0 < |t| && t[0] == '-' then
      var u := t[1..];
      -(DecimalValue(u[..DigitRun(u)]) as int)
    else DecimalValue(t[..DigitRun(t)])
  }

  /** `parseInt` stops at the first character that is not a digit: a
      non-empty digit run `d` followed by anything else reads as the value
      of `d`. */
  lemma ParseIntReadsLeadingDigits(d: string, rest: string)
    requires d != [] && AllDigits(d) && (rest == [] || !IsDigit(rest[0]))
    ensures ParseIntText(d + rest) == DecimalValue(d)
  {
    var t := d + rest;
    LeadingRun(d, rest);
    assert t[0] == d[0] && IsDigit(d[0]);
    assert t[..DigitRun(t)] == d;
  }

  /** The same after a `-`: the value comes out negated. */
  lemma ParseIntReadsNegated(d: string, rest: string)
    requires AllDigits(d) && (rest == [] || !IsDigit(rest[0]))
    ensures ParseIntText("-" + (d + rest)) == -(DecimalValue(d) as int)
  {
    var t := d + rest;
    LeadingRun(d, rest);
    assert ("-" + t)[1..] == t;
  }

  lemma LeadingRun(d: string, rest: string)
    requires AllDigits(d) && (rest == [] || !IsDigit(rest[0]))
    ensures (d + rest)[..DigitRun(d + rest)] == d
  {
    DigitRunOfDigits(d, rest);
  }

  /** `parseInt(String(n))` is `n` for a natural number written in plain
      decimal. */
  lemma ParseIntOfDecimal(n: nat)
    ensures ParseIntText(Decimal(n)) == n
  {
    DecimalRoundTrip(n);
    ParseIntReadsLeadingDigits(Decimal(n), []);
    assert Decimal(n) + [] == Decimal(n);
  }

  // ------------------------------------------------------------ hex digits

  predicate IsHexDigit(c: char) {
    IsDigit(c) || 'a' <= c <= 'f' || 'A' <= c <= 'F'
  }

  /** Value of one hex digit, either case, as `parseInt(_, 16)` reads it. */
  function HexValue(c: char): (v: nat)
    requires IsHexDigit(c)
    ensures v < 16
  {
    if IsDigit(c) then DigitValue(c)
    else if 'a' <= c <= 'f' then c as int - 'a' as int + 10
    else c as int - 'A' as int + 10
  }

  /** The lower-case hex digit for `v`. */
  function HexChar(v: nat): (c: char)
    requires v < 16
    ensures IsHexDigit(c) && HexValue(c) == v
  {
    if v < 10 then DigitChar(v) else ('a' as int + v - 10) as char
  }

  // ------------------------------------------------------------ whitespace

  /** JavaScript's whitespace and line terminators: the class `\s` matches
      and `String.prototype.trim` removes. */
  predicate IsSpace(c: char) {
    || c == ' ' || c == '\t' || c == '\n' || c == '\r'
    || c == '\U{000B}' || c == '\U{000C}' || c == '\U{00A0}' || c == '\U{1680}'
    || ('\U{2000}' <= c <= '\U{200A}')
    || c == '\U{2028}' || c == '\U{2029}' || c == '\U{202F}' || c == '\U{205F}'
    || c == '\U{3000}' || c == '\U{FEFF}'
  }

  /** Length of the longest whitespace prefix: what a greedy `\s*` consumes. */
  function SpaceRun(s: string): (n: nat)
    ensures n <= |s|
    ensures forall i :: 0 <= i < n ==> IsSpace(s[i])
    ensures n < |s| ==> !IsSpace(s[n])
  {
    if s == [] || !IsSpace(s[0]) then 0 else 1 + SpaceRun(s[1..])
  }

  /** `s` with its leading whitespace removed. */
  function TrimStart(s: string): (r: string)
    ensures |r| <= |s| && r == s[|s| - |r|..]
    ensures forall i :: 0 <= i < |s| - |r| ==> IsSpace(s[i])
    ensures r == [] || !IsSpace(r[0])
  {
    s[SpaceRun(s)..]
  }

  /** `s` with its trailing whitespace removed. */
  function TrimEnd(s: string): (r: string)
    ensures |r| <= |s| && r == s[..|r|]
    ensures forall i :: |r| <= i < |s| ==> IsSpace(s[i])
    ensures r == [] || !IsSpace(r[|r| - 1])
    decreases |s|
  {
    if s != [] && IsSpace(s[|s| - 1]) then TrimEnd(s[..|s| - 1]) else s
  }

  /** `String.prototype.trim`. */
  function Trim(s: string): string {
    TrimEnd(TrimStart(s))
  }

  // ------------------------------------------------- searching and replacing

  /** `s.startsWith(p)`, one character at a time. */
  predicate StartsWith(s: string, p: string)
    decreases p
  {
    p == [] || (s != [] && s[0] == p[0] && StartsWith(s[1..], p[1..]))
  }

  predicate OccursAt(s: string, pat: string, j: nat) {
    j <= |s| && pat <= s[j..]
  }

  /** `s.indexOf(pat, from)`: the first position at or after `from` where
      `pat` occurs, if any. */
  function IndexFrom(s: string, pat: string, from: nat): (r: Option<nat>)
    ensures r.Some? ==> from <= r.value && OccursAt(s, pat, r.value)
    ensures r.Some? ==> forall j :: from <= j < r.value ==> !OccursAt(s, pat, j)
    ensures r.None? ==> forall j :: from <= j <= |s| ==> !OccursAt(s, pat, j)
    decreases |s| - from
  {
    if from > |s| then None
    else if OccursAt(s, pat, from) then Some(from)
    else IndexFrom(s, pat, from + 1)
  }

  /** `s.replace(pat, rep)` with a string pattern: only the first occurrence
      is replaced; without one, `s` is returned unchanged. */
  function ReplaceFirst(s: string, pat: string, rep: string): (r: string)
    ensures (forall j :: 0 <= j <= |s| ==> !OccursAt(s, pat, j)) ==> r == s
    ensures forall i: nat :: OccursAt(s, pat, i) && (forall j :: 0 <= j < i ==> !OccursAt(s, pat, j)) ==>
      i + |pat| <= |s| && r == s[..i] + rep + s[i + |pat|..]
  {
    match IndexFrom(s, pat, 0)
    case None => s
    case Some(i) => s[..i] + rep + s[i + |pat|..]
  }

  /** Removing a suffix unit: when `unit` does not start with a digit and the
      text is a run of digits followed by `unit`, the first occurrence of the
      unit is the suffix itself, so removing it leaves the digits. */
  lemma {:induction false} ReplaceUnitSuffix(d: string, unit: string)
    requires AllDigits(d) && unit != [] && !IsDigit(unit[0])
    ensures ReplaceFirst(d + unit, unit, "") == d
  {
    var s := d + unit;
    assert OccursAt(s, unit, |d|) by { assert s[|d|..] == unit; }
    forall j | 0 <= j < |d|
      ensures !OccursAt(s, unit, j)
    {
      assert s[j..][0] == s[j] == d[j];
    }
    var r := IndexFrom(s, unit, 0);
    assert r == Some(|d|);
    assert s[..|d|] == d;
    assert s[|d| + |unit|..] == [];
  }
}
