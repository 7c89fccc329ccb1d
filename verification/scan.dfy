/** The two regular expressions the source applies to colour strings,
    `/hsl\((\d+),\s*(\d+)%,\s*(\d+)%\)/` (canvas-animation.js) and
    `/rgba\((\d+),\s*(\d+),\s*(\d+)/` (svg-patterns.js), written as token
    lists and run by one small matcher.

    Each token is a literal, a captured `(\d+)` group or a `\s*` run.  The
    matcher consumes digit and whitespace runs greedily.  That is what the
    backtracking regex does as well, because in both patterns a digit group
    is followed by a literal that does not start with a digit (or ends the
    pattern), and a whitespace run is followed by a digit group: giving back
    a character can never let the rest match. */
module Scan {
  import opened Wrappers
  import opened Text

  datatype Token = Lit(text: string) | Digits | Spaces

  const HslPattern: seq<Token> :=
    [Lit("hsl("), Digits, Lit(","), Spaces, Digits, Lit("%,"), Spaces, Digits, Lit("%)")]

  const RgbaPattern: seq<Token> :=
    [Lit("rgba("), Digits, Lit(","), Spaces, Digits, Lit(","), Spaces, Digits]

  /** Number of capture groups in a pattern. */
  function Groups(toks: seq<Token>): nat
    decreases |toks|
  {
    if toks == [] then 0 else (if toks[0] == Digits then 1 else 0) + Groups(toks[1..])
  }

  predicate IsCapture(c: string) {
    c != [] && AllDigits(c)
  }

  /** The match of `toks` anchored at the start of `s`: the text of each
      digit group, in order. */
  function Match(s: string, toks: seq<Token>): (r: Option<seq<string>>)
    ensures r.Some? ==> |r.value| == Groups(toks)
    ensures r.Some? ==> forall k :: 0 <= k < |r.value| ==> IsCapture(r.value[k])
    decreases |toks|
  {
    if toks == [] then Some([])
    else match toks[0]
      case Lit(t) => if t <= s then Match(s[|t|..], toks[1..]) else None
      case Digits =>
        var n := DigitRun(s);
        if n == 0 then None
        else (
          match Match(s[n..], toks[1..])
          case None => None
          case Some(cs) => Some([s[..n]] + cs))
      case Spaces => Match(s[SpaceRun(s)..], toks[1..])
  }

  /** `s.match(re)` without the global flag: the match starting at the
      smallest position of `s`, if any. */
  function Search(s: string, toks: seq<Token>): (r: Option<seq<string>>)
    ensures r.Some? ==> |r.value| == Groups(toks)
    ensures r.Some? ==> forall k :: 0 <= k < |r.value| ==> IsCapture(r.value[k])
    ensures Match(s, toks).Some? ==> r == Match(s, toks)
    decreases |s|
  {
    match Match(s, toks)
    case Some(cs) => Some(cs)
    case None => if s == [] then None else Search(s[1..], toks)
  }

  /** The text a pattern matches when each group is filled with the given
      digits and each `\s*` with a single space. */
  function Render(toks: seq<Token>, caps: seq<string>): string
    requires |caps| == Groups(toks)
    decreases |toks|
  {
    if toks == [] then []
    else match toks[0]
      case Lit(t) => t + Render(toks[1..], caps)
      case Digits => caps[0] + Render(toks[1..], caps[1..])
      case Spaces => " " + Render(toks[1..], caps)
  }

  /** The shape under which greedy matching is exact (see the module
      comment): literals are non-empty, a digit group ends the pattern or is
      followed by a literal not starting with a digit, and a whitespace run
      is followed by a digit group. */
  predicate WellFormed(toks: seq<Token>)
    decreases |toks|
  {
    toks == [] ||
    ((match toks[0]
      case Lit(t) => t != []
      case Digits => |toks| == 1 || (toks[1].Lit? && toks[1].text != [] && !IsDigit(toks[1].text[0]))
      case Spaces => |toks| > 1 && toks[1] == Digits)
     && WellFormed(toks[1..]))
  }

  /** What may follow a match: anything, unless the pattern ends in a digit
      group, which would swallow a following digit. */
  predicate MayFollow(toks: seq<Token>, rest: string) {
    toks != [] && toks[|toks| - 1] == Digits ==> rest == [] || !IsDigit(rest[0])
  }

  lemma {:induction false} RenderStartsWithLiteral(toks: seq<Token>, caps: seq<string>)
    requires toks != [] && toks[0].Lit? && |caps| == Groups(toks)
    ensures toks[0].text <= Render(toks, caps)
  {
  }

  /** Matching the rendered text gives back the captures it was rendered
      from, whatever follows the match. */
  lemma {:induction false} MatchRender(toks: seq<Token>, caps: seq<string>, rest: string)
    requires WellFormed(toks) && |caps| == Groups(toks)
    requires forall k :: 0 <= k < |caps| ==> IsCapture(caps[k])
    requires MayFollow(toks, rest)
    ensures Match(Render(toks, caps) + rest, toks) == Some(caps)
    decreases |toks|
  {
    if toks != [] {
      var tail := toks[1..];
      assert MayFollow(tail, rest) by {
        if tail != [] { assert tail[|tail| - 1] == toks[|toks| - 1]; }
      }
      match toks[0]
      case Lit(t) =>
        MatchRender(tail, caps, rest);
        MatchLiteralStep(toks, caps, rest);
      case Digits =>
        MatchRender(tail, caps[1..], rest);
        MatchDigitsStep(toks, caps, rest);
      case Spaces =>
        MatchRender(tail, caps, rest);
        MatchSpacesStep(toks, caps, rest);
    }
  }

  lemma MatchLiteralStep(toks: seq<Token>, caps: seq<string>, rest: string)
    requires toks != [] && toks[0].Lit? && |caps| == Groups(toks)
    requires Match(Render(toks[1..], caps) + rest, toks[1..]) == Some(caps)
    ensures Match(Render(toks, caps) + rest, toks) == Some(caps)
  {
    var t := toks[0].text;
    RenderLiteral(toks, caps, rest);
    MatchLiteralAt(t + (Render(toks[1..], caps) + rest), t, Render(toks[1..], caps) + rest, toks, caps);
  }

  lemma RenderLiteral(toks: seq<Token>, caps: seq<string>, rest: string)
    requires toks != [] && toks[0].Lit? && |caps| == Groups(toks)
    ensures Render(toks, caps) + rest == toks[0].text + (Render(toks[1..], caps) + rest)
  {
  }

  /** One literal step of the matcher on a text that starts with the
      literal. */
  lemma MatchLiteralAt(s: string, t: string, after: string, toks: seq<Token>, cs: seq<string>)
    requires toks != [] && toks[0] == Lit(t)
    requires s == t + after
    requires Match(after, toks[1..]) == Some(cs)
    ensures Match(s, toks) == Some(cs)
  {
    assert s[|t|..] == after;
  }


  lemma MatchDigitsStep(toks: seq<Token>, caps: seq<string>, rest: string)
    requires WellFormed(toks) && toks != [] && toks[0] == Digits && |caps| == Groups(toks)
    requires IsCapture(caps[0]) && MayFollow(toks, rest)
    requires Match(Render(toks[1..], caps[1..]) + rest, toks[1..]) == Some(caps[1..])
    ensures Match(Render(toks, caps) + rest, toks) == Some(caps)
  {
    var after := Render(toks[1..], caps[1..]) + rest;
    RenderDigits(toks, caps, rest);
    NoDigitAfterGroup(toks, caps, rest);
    DigitRunOfDigits(caps[0], after);
    MatchDigitsAt(caps[0] + after, caps[0], after, toks, caps[1..]);
    assert [caps[0]] + caps[1..] == caps;
  }

  lemma NoDigitAfterGroup(toks: seq<Token>, caps: seq<string>, rest: string)
    requires WellFormed(toks) && toks != [] && toks[0] == Digits && |caps| == Groups(toks)
    requires MayFollow(toks, rest)
    ensures var after := Render(toks[1..], caps[1..]) + rest;
      after == [] || !IsDigit(after[0])
  {
    var tail := toks[1..];
    if tail != [] {
      RenderStartsWithLiteral(tail, caps[1..]);
      var after := Render(tail, caps[1..]) + rest;
      assert after[0] == tail[0].text[0];
    } else {
      assert toks[|toks| - 1] == Digits;
    }
  }

  lemma RenderDigits(toks: seq<Token>, caps: seq<string>, rest: string)
    requires toks != [] && toks[0] == Digits && |caps| == Groups(toks)
    ensures Render(toks, caps) + rest == caps[0] + (Render(toks[1..], caps[1..]) + rest)
  {
  }

  /** One digit-group step of the matcher on a text that starts with the
      digits `d` followed by a non-digit. */
  lemma MatchDigitsAt(s: string, d: string, after: string, toks: seq<Token>, cs: seq<string>)
    requires toks != [] && toks[0] == Digits && d != []
    requires s == d + after && DigitRun(s) == |d|
    requires Match(after, toks[1..]) == Some(cs)
    ensures Match(s, toks) == Some([d] + cs)
  {
    assert s[..|d|] == d;
    assert s[|d|..] == after;
  }

  lemma MatchSpacesStep(toks: seq<Token>, caps: seq<string>, rest: string)
    requires WellFormed(toks) && toks != [] && toks[0] == Spaces && |caps| == Groups(toks)
    requires forall k :: 0 <= k < |caps| ==> IsCapture(caps[k])
    requires Match(Render(toks[1..], caps) + rest, toks[1..]) == Some(caps)
    ensures Match(Render(toks, caps) + rest, toks) == Some(caps)
  {
    var after := Render(toks[1..], caps) + rest;
    RenderSpaces(toks, caps, rest);
    assert after[0] == caps[0][0] by {
      RenderDigits(toks[1..], caps, rest);
    }
    MatchSpaceAt(" " + after, after, toks, caps);
  }

  lemma RenderSpaces(toks: seq<Token>, caps: seq<string>, rest: string)
    requires toks != [] && toks[0] == Spaces && |caps| == Groups(toks)
    ensures Render(toks, caps) + rest == " " + (Render(toks[1..], caps) + rest)
  {
  }

  /** One whitespace step of the matcher on a text with exactly one space
      before a non-space. */
  lemma MatchSpaceAt(s: string, after: string, toks: seq<Token>, cs: seq<string>)
    requires toks != [] && toks[0] == Spaces
    requires s == " " + after && after != [] && !IsSpace(after[0])
    requires Match(after, toks[1..]) == Some(cs)
    ensures Match(s, toks) == Some(cs)
  {
    assert SpaceRun(s) == 1;
    assert s[1..] == after;
  }


  predicate NoOpenParen(s: string) {
    forall i :: 0 <= i < |s| ==> s[i] != '('
  }

  /** A pattern whose first literal contains `(` finds nothing in a string
      without one (every hex colour, for instance). */
  lemma {:induction false} SearchNeedsParen(s: string, toks: seq<Token>)
    requires toks != [] && toks[0].Lit? && '(' in toks[0].text
    requires NoOpenParen(s)
    ensures Search(s, toks) == None
    decreases |s|
  {
    var t := toks[0].text;
    var k :| 0 <= k < |t| && t[k] == '(';
    assert k >= |s| || s[k] != t[k];
    assert Match(s, toks) == None;
    if s != [] {
      SearchNeedsParen(s[1..], toks);
    }
  }

  lemma NoOpenParenAppend(a: string, b: string)
    requires NoOpenParen(a) && NoOpenParen(b)
    ensures NoOpenParen(a + b)
  {
    forall i | 0 <= i < |a + b|
      ensures (a + b)[i] != '('
    {
      if i >= |a| {
        assert (a + b)[i] == b[i - |a|];
      }
    }
  }

  // ------------------------------------------------------- the two patterns

  lemma HslPatternShape()
    ensures WellFormed(HslPattern) && Groups(HslPattern) == 3
  {
    var p := HslPattern;
    assert WellFormed(p[8..]) && Groups(p[8..]) == 0;
    assert WellFormed(p[7..]) && Groups(p[7..]) == 1;
    assert WellFormed(p[6..]) && Groups(p[6..]) == 1;
    assert WellFormed(p[5..]) && Groups(p[5..]) == 1;
    assert WellFormed(p[4..]) && Groups(p[4..]) == 2;
    assert WellFormed(p[3..]) && Groups(p[3..]) == 2;
    assert WellFormed(p[2..]) && Groups(p[2..]) == 2;
    assert WellFormed(p[1..]) && Groups(p[1..]) == 3;
  }

  lemma RgbaPatternShape()
    ensures WellFormed(RgbaPattern) && Groups(RgbaPattern) == 3
  {
    var p := RgbaPattern;
    assert WellFormed(p[7..]) && Groups(p[7..]) == 1;
    assert WellFormed(p[6..]) && Groups(p[6..]) == 1;
    assert WellFormed(p[5..]) && Groups(p[5..]) == 1;
    assert WellFormed(p[4..]) && Groups(p[4..]) == 2;
    assert WellFormed(p[3..]) && Groups(p[3..]) == 2;
    assert WellFormed(p[2..]) && Groups(p[2..]) == 2;
    assert WellFormed(p[1..]) && Groups(p[1..]) == 3;
  }

  /** The text of `hsl(${h}, ${s}%, ${l}%)` for digit strings h, s, l. */
  function HslText(h: string, s: string, l: string): string {
    "hsl(" + h + ", " + s + "%, " + l + "%)"
  }

  /** The text of `rgba(${r}, ${g}, ${b}, ${alpha})`. */
  function RgbaText(r: string, g: string, b: string, alpha: string): string {
    "rgba(" + r + ", " + g + ", " + b + ", " + alpha + ")"
  }

  /** An `hsl(...)` string written with digit-only components is matched by
      the hsl pattern, which captures exactly those components. */
  lemma HslRoundTrip(h: string, s: string, l: string)
    requires IsCapture(h) && IsCapture(s) && IsCapture(l)
    ensures Search(HslText(h, s, l), HslPattern) == Some([h, s, l])
  {
    HslPatternShape();
    HslRender(h, s, l);
    assert Render(HslPattern, [h, s, l]) + [] == HslText(h, s, l);
    MatchRender(HslPattern, [h, s, l], []);
  }

  /** Filling the hsl pattern's groups gives the colour's text. */
  lemma HslRender(h: string, s: string, l: string)
    ensures Render(HslPattern, [h, s, l]) == HslText(h, s, l)
  {
    var p := HslPattern;
    var tail := "%," + (" " + (l + "%)"));
    assert Render(p[8..], []) == "%)";
    assert Render(p[7..], [l]) == l + "%)" by { assert [l][1..] == []; }
    assert Render(p[6..], [l]) == " " + (l + "%)");
    assert Render(p[5..], [l]) == tail;
    assert Render(p[4..], [s, l]) == s + tail by { assert [s, l][1..] == [l]; }
    assert Render(p[3..], [s, l]) == " " + (s + tail);
    assert Render(p[2..], [s, l]) == "," + (" " + (s + tail));
    assert Render(p[1..], [h, s, l]) == h + ("," + (" " + (s + tail))) by {
      assert [h, s, l][1..] == [s, l];
    }
    assert Render(p, [h, s, l]) == "hsl(" + (h + ("," + (" " + (s + tail))));
    HslTextNested(h, s, l);
  }

  lemma HslTextNested(h: string, s: string, l: string)
    ensures HslText(h, s, l) == "hsl(" + (h + ("," + (" " + (s + ("%," + (" " + (l + "%)")))))))
  {
  }



  /** The pattern of `createCircuit` reads the three channels back out of
      an `rgba(...)` string with digit-only channels, whatever the alpha. */
  lemma RgbaRoundTrip(r: string, g: string, b: string, alpha: string)
    requires IsCapture(r) && IsCapture(g) && IsCapture(b)
    ensures Search(RgbaText(r, g, b, alpha), RgbaPattern) == Some([r, g, b])
  {
    RgbaPatternShape();
    RgbaRender(r, g, b);
    var rest := ", " + alpha + ")";
    assert Render(RgbaPattern, [r, g, b]) + rest == RgbaText(r, g, b, alpha);
    MatchRender(RgbaPattern, [r, g, b], rest);
  }

  /** Filling the rgba pattern's groups gives the colour's text up to the
      third channel. */
  lemma RgbaRender(r: string, g: string, b: string)
    ensures Render(RgbaPattern, [r, g, b]) == "rgba(" + r + ", " + g + ", " + b
  {
    var p := RgbaPattern;
    assert Render(p[7..], [b]) == b + [] by { assert [b][1..] == []; }
    assert Render(p[6..], [b]) == " " + (b + []);
    assert Render(p[5..], [b]) == "," + (" " + (b + []));
    assert Render(p[4..], [g, b]) == g + ("," + (" " + (b + []))) by { assert [g, b][1..] == [b]; }
    assert Render(p[3..], [g, b]) == " " + (g + ("," + (" " + (b + []))));
    assert Render(p[2..], [g, b]) == "," + (" " + (g + ("," + (" " + (b + [])))));
    assert Render(p[1..], [r, g, b]) == r + ("," + (" " + (g + ("," + (" " + (b + [])))))) by {
      assert [r, g, b][1..] == [g, b];
    }
    assert Render(p, [r, g, b]) == "rgba(" + (r + ("," + (" " + (g + ("," + (" " + (b + [])))))));
    RgbaTextNested(r, g, b);
  }

  lemma RgbaTextNested(r: string, g: string, b: string)
    ensures "rgba(" + r + ", " + g + ", " + b
      == "rgba(" + (r + ("," + (" " + (g + ("," + (" " + (b + [])))))))
  {
  }



  /** The anchored match of the hsl pattern stops at the first character
      after the hue's digit run unless that character is a comma. */
  lemma HslMatchStopsAtHue(h: string, tail: string)
    requires DigitRun(h) < |h| && h[DigitRun(h)] != ','
    ensures Match(h + tail, HslPattern[1..]) == None
  {
    var p := HslPattern[1..];
    var n := DigitRun(h);
    DigitRunStopsInside(h, tail);
    if n > 0 {
      assert (h + tail)[n..][0] == h[n];
      assert Match((h + tail)[n..], p[1..]) == None;
    }
  }

  lemma HslTailNoParen(h: string, s: string, l: string)
    requires NoOpenParen(h) && NoOpenParen(s) && NoOpenParen(l)
    ensures NoOpenParen(h + (", " + s + "%, " + l + "%)"))
  {
    NoOpenParenAppend(", ", s);
    NoOpenParenAppend(", " + s, "%, ");
    NoOpenParenAppend(", " + s + "%, ", l);
    NoOpenParenAppend(", " + s + "%, " + l, "%)");
    NoOpenParenAppend(h, ", " + s + "%, " + l + "%)");
  }

  lemma HslTailNotMatched(h: string, s: string, l: string)
    requires NoOpenParen(h) && NoOpenParen(s) && NoOpenParen(l)
    ensures Search(h + (", " + s + "%, " + l + "%)"), HslPattern) == None
  {
    HslTailNoParen(h, s, l);
    SearchNeedsParen(h + (", " + s + "%, " + l + "%)"), HslPattern);
  }

  /** Where the anchored match fails, the search moves one character on. */
  lemma SearchSkips(s: string, toks: seq<Token>)
    requires s != [] && Match(s, toks) == None
    ensures Search(s, toks) == Search(s[1..], toks)
  {
  }

  lemma HslNeedsH(y: string)
    requires y != [] && y[0] != 'h'
    ensures Match(y, HslPattern) == None
  {
  }

  /** The search fails on `hsl(` followed by a tail that neither continues
      the pattern nor contains a match of its own. */
  lemma HslPrefixRejected(tail: string)
    requires Match(tail, HslPattern[1..]) == None && Search(tail, HslPattern) == None
    ensures Search("hsl(" + tail, HslPattern) == None
  {
    var x := "hsl(" + tail;
    assert x[4..] == tail;
    assert Match(x, HslPattern) == None;
    HslNeedsH(x[1..]);
    HslNeedsH(x[2..]);
    HslNeedsH(x[3..]);
    assert x[1..][1..] == x[2..] && x[2..][1..] == x[3..] && x[3..][1..] == tail;
    SearchSkips(x, HslPattern);
    SearchSkips(x[1..], HslPattern);
    SearchSkips(x[2..], HslPattern);
    SearchSkips(x[3..], HslPattern);
  }

  lemma HslTextSplit(h: string, s: string, l: string)
    ensures HslText(h, s, l) == "hsl(" + (h + (", " + s + "%, " + l + "%)"))
  {
  }

  lemma HslTailRejected(h: string, s: string, l: string)
    requires NoOpenParen(h) && NoOpenParen(s) && NoOpenParen(l)
    requires DigitRun(h) < |h| && h[DigitRun(h)] != ','
    ensures Search("hsl(" + (h + (", " + s + "%, " + l + "%)")), HslPattern) == None
  {
    HslMatchStopsAtHue(h, ", " + s + "%, " + l + "%)");
    HslTailNotMatched(h, s, l);
    HslPrefixRejected(h + (", " + s + "%, " + l + "%)"));
  }

  /** An `hsl(...)` string whose hue text does not begin with a digit run
      followed by a comma (a fraction, a negative number or an exponent form)
      is not matched anywhere by the hsl pattern. */
  lemma HslRejectsHue(h: string, s: string, l: string)
    requires NoOpenParen(h) && NoOpenParen(s) && NoOpenParen(l)
    requires DigitRun(h) < |h| && h[DigitRun(h)] != ','
    ensures Search(HslText(h, s, l), HslPattern) == None
  {
    HslTailRejected(h, s, l);
    HslTextSplit(h, s, l);
  }
}
