/** A blob's colour, the CSS text it is written as, and what the compositor's
    `/hsl\((\d+),\s*(\d+)%,\s*(\d+)%\)/` match reads back out of that text
    (canvas-animation.js:302-303, 341). */
module Colors {
  import opened Wrappers
  import opened Text
  import opened Scan

  /** A palette entry as the user typed it, or the triple that `generateColor`
      and `updateGradients` format as `hsl(${h}, ${s}%, ${l}%)`. */
  datatype Color = Literal(text: string) | Hsl(h: real, s: real, l: real)

  /** 10^21: from here on JavaScript writes integers in exponent form. */
  const PlainLimit: real := 1000000000000000000000.0

  /** A number whose `String(x)` is nothing but decimal digits. */
  predicate IsPlainNat(x: real) {
    0.0 <= x < PlainLimit && x == x.Floor as real
  }

  /** The shape of `String(x)` for every other number: fractions and exponent
      forms have a `.` or an `e` after their leading digits, negative numbers
      start with `-`, and no number's text has a `(`. */
  predicate IsOtherNumberText(t: string) {
    NoOpenParen(t) && DigitRun(t) < |t| && t[DigitRun(t)] in {'.', 'e', '-'}
  }

  /** What is relied on of JavaScript's number-to-string conversion, which
      is a parameter of the model (its full shortest-round-trip algorithm on
      binary64 values is not modelled). */
  ghost predicate IsNumberText(numText: real -> string) {
    forall x :: (IsPlainNat(x) ==> numText(x) == Decimal(x.Floor))
      && (!IsPlainNat(x) ==> IsOtherNumberText(numText(x)))
  }

  /** The colour's CSS text, as the blob's `color` string holds it. */
  function Css(c: Color, numText: real -> string): string {
    match c
    case Literal(t) => t
    case Hsl(h, s, l) => HslText(numText(h), numText(s), numText(l))
  }

  /** `color.match(/hsl\((\d+),\s*(\d+)%,\s*(\d+)%\)/)`: the hue, saturation
      and lightness digits, or `None` for `null`. */
  function HslMatch(c: Color, numText: real -> string): (r: Option<seq<string>>)
    ensures r.Some? ==> |r.value| == 3 && forall k :: 0 <= k < 3 ==> IsCapture(r.value[k])
  {
    HslPatternShape();
    Search(Css(c, numText), HslPattern)
  }

  lemma DigitsHaveNoParen(d: string)
    requires AllDigits(d)
    ensures NoOpenParen(d)
  {
    forall i | 0 <= i < |d|
      ensures d[i] != '('
    {
      assert IsDigit(d[i]);
    }
  }

  /** An HSL colour whose three components are plain naturals is matched,
      and the match captures their decimal digits. */
  lemma PlainHslMatches(h: real, s: real, l: real, numText: real -> string)
    requires IsNumberText(numText)
    requires IsPlainNat(h) && IsPlainNat(s) && IsPlainNat(l)
    ensures HslMatch(Hsl(h, s, l), numText)
      == Some([Decimal(h.Floor), Decimal(s.Floor), Decimal(l.Floor)])
  {
    assert numText(h) == Decimal(h.Floor);
    assert numText(s) == Decimal(s.Floor);
    assert numText(l) == Decimal(l.Floor);
    HslRoundTrip(Decimal(h.Floor), Decimal(s.Floor), Decimal(l.Floor));
  }

  /** An HSL colour whose hue is a fraction, negative or huge is not
      matched at all. */
  lemma FractionalHueUnmatched(h: real, s: real, l: real, numText: real -> string)
    requires IsNumberText(numText)
    requires !IsPlainNat(h)
    ensures HslMatch(Hsl(h, s, l), numText) == None
  {
    var th, ts, tl := numText(h), numText(s), numText(l);
    assert IsOtherNumberText(th);
    NumberTextHasNoParen(s, numText);
    NumberTextHasNoParen(l, numText);
    HslRejectsHue(th, ts, tl);
  }

  lemma NumberTextHasNoParen(x: real, numText: real -> string)
    requires IsNumberText(numText)
    ensures NoOpenParen(numText(x))
  {
    if IsPlainNat(x) {
      DigitsHaveNoParen(Decimal(x.Floor));
    } else {
      assert IsOtherNumberText(numText(x));
    }
  }

  /** A literal without `(` (every `#rrggbb` palette entry) is not matched. */
  lemma LiteralWithoutParenUnmatched(t: string, numText: real -> string)
    requires NoOpenParen(t)
    ensures HslMatch(Literal(t), numText) == None
  {
    SearchNeedsParen(t, HslPattern);
  }
}
