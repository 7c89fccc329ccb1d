/** The SVG overlay (svg-patterns.js): the colour the pattern is drawn in
    and the shapes of one pattern tile. Each generator is a list of shapes
    in the order it appends them; `Math.random()`, `Math.sin` and
    `Math.cos` are parameters. */
module Patterns {
  import opened Wrappers
  import opened JsMath
  import opened Text
  import opened Scan
  import opened Blobs

  // ------------------------------------------------------------- hexToRgb

  datatype Rgb = Rgb(r: nat, g: nat, b: nat)

  /** The colour `hexToRgb` falls back to. */
  const White: Rgb := Rgb(255, 255, 255)

  predicate IsChannel(v: nat) {
    v < 256
  }

  predicate IsColor(c: Rgb) {
    IsChannel(c.r) && IsChannel(c.g) && IsChannel(c.b)
  }

  predicate AllHex(s: string) {
    forall i :: 0 <= i < |s| ==> IsHexDigit(s[i])
  }

  /** The six digits `/^#?([a-f\d]{2})([a-f\d]{2})([a-f\d]{2})$/i` accepts:
      the whole text, or all of it after a leading `#`. */
  function HexDigits(hex: string): (r: Option<string>)
    ensures r.Some? ==> |r.value| == 6 && AllHex(r.value)
    ensures r.Some? ==> hex == r.value || hex == "#" + r.value
  {
    if |hex| == 7 && hex[0] == '#' && AllHex(hex[1..]) then
      assert hex == "#" + hex[1..];
      Some(hex[1..])
    else if |hex| == 6 && AllHex(hex) then Some(hex)
    else None
  }

  /** `parseInt(pair, 16)` of two hex digits. */
  function ByteValue(hi: char, lo: char): (v: nat)
    requires IsHexDigit(hi) && IsHexDigit(lo)
    ensures IsChannel(v)
  {
    16 * HexValue(hi) + HexValue(lo)
  }

  /** `hexToRgb`: the three channels of a six-digit hex colour, either
      case, with or without `#`; white for any other text. */
  function HexToRgb(hex: string): (c: Rgb)
    ensures IsColor(c)
    ensures HexDigits(hex).None? ==> c == White
    ensures HexDigits(hex).Some? ==> var d := HexDigits(hex).value;
      c == Rgb(ByteValue(d[0], d[1]), ByteValue(d[2], d[3]), ByteValue(d[4], d[5]))
  {
    match HexDigits(hex)
    case None => White
    case Some(d) => Rgb(ByteValue(d[0], d[1]), ByteValue(d[2], d[3]), ByteValue(d[4], d[5]))
  }

  /** The two lower-case hex digits of a channel. */
  function HexByte(v: nat): (s: string)
    requires IsChannel(v)
    ensures |s| == 2 && IsHexDigit(s[0]) && IsHexDigit(s[1])
  {
    [HexChar(v / 16), HexChar(v % 16)]
  }

  /** `#rrggbb`, as a colour input writes a colour. */
  function ToHex(c: Rgb): (s: string)
    requires IsColor(c)
    ensures |s| == 7 && s[0] == '#' && AllHex(s[1..])
  {
    "#" + HexByte(c.r) + HexByte(c.g) + HexByte(c.b)
  }

  lemma ByteRoundTrip(v: nat)
    requires IsChannel(v)
    ensures ByteValue(HexByte(v)[0], HexByte(v)[1]) == v
  {
    var s := HexByte(v);
    assert HexValue(s[0]) == v / 16 && HexValue(s[1]) == v % 16;
  }

  /** Exactly the texts the pattern accepts are read: every six-digit text,
      with or without `#`, is accepted, and it is read back as its digits. */
  lemma {:induction false} HexDigitsExact(d: string)
    requires |d| == 6 && AllHex(d)
    ensures HexDigits(d) == Some(d)
    ensures HexDigits("#" + d) == Some(d)
  {
    var s := "#" + d;
    assert s[1..] == d;
  }

  /** Writing a colour as `#rrggbb` and reading it back with `hexToRgb`
      gives the colour, with or without the `#`. */
  lemma {:induction false} HexRoundTrip(c: Rgb)
    requires IsColor(c)
    ensures HexToRgb(ToHex(c)) == c
    ensures HexToRgb(ToHex(c)[1..]) == c
  {
    var d := ToHex(c)[1..];
    assert ToHex(c) == "#" + d;
    HexDigitsExact(d);
    assert d == HexByte(c.r) + HexByte(c.g) + HexByte(c.b);
    assert d[0..2] == HexByte(c.r) && d[2..4] == HexByte(c.g) && d[4..6] == HexByte(c.b);
    ByteRoundTrip(c.r);
    ByteRoundTrip(c.g);
    ByteRoundTrip(c.b);
  }

  /** Anything but six or seven characters is white: the three-digit
      shorthand, an eight-digit colour with alpha, the empty text. */
  lemma {:induction false} OtherLengthsAreWhite(hex: string)
    requires |hex| != 6 && |hex| != 7
    ensures HexToRgb(hex) == White
  {
  }

  /** Three-digit shorthand is not understood: `#000` gives the white
      fallback, not black. A full six-digit colour is read in either case,
      with or without its `#`. */
  lemma ShorthandIsWhite()
    ensures HexToRgb("#000") == White
    ensures HexToRgb("#4a90e2") == Rgb(74, 144, 226)
    ensures HexToRgb("4A90E2") == Rgb(74, 144, 226)
  {
    var d := "4a90e2";
    HexDigitsExact(d);
    assert "#4a90e2" == "#" + d;
    var u := "4A90E2";
    HexDigitsExact(u);
  }

  // ------------------------------------------------------- pattern colours

  /** The pattern's stroke and fill: `rgba(${r}, ${g}, ${b}, 0.5)`. */
  function RgbaColor(c: Rgb): string {
    RgbaText(Decimal(c.r), Decimal(c.g), Decimal(c.b), "0.5")
  }

  /** `createCircuit`'s node colour: the channels read back out of the
      pattern colour with `/rgba\((\d+),\s*(\d+),\s*(\d+)/` and written
      with alpha 0.2; white when the colour does not match. */
  function NodeColor(color: string): (r: string)
  {
    RgbaPatternShape();
    match Search(color, RgbaPattern)
    case None => RgbaText("255", "255", "255", "0.2")
    case Some(caps) =>
      RgbaText(Decimal(DecimalValue(caps[0])), Decimal(DecimalValue(caps[1])),
        Decimal(DecimalValue(caps[2])), "0.2")
  }

  /** The circuit's nodes keep the pattern's colour and change only its
      alpha: the channels re-extracted from the rgba text are those
      `hexToRgb` gave. */
  lemma NodeColorKeepsChannels(hex: string)
    ensures var c := HexToRgb(hex);
      NodeColor(RgbaColor(c)) == RgbaText(Decimal(c.r), Decimal(c.g), Decimal(c.b), "0.2")
  {
    var c := HexToRgb(hex);
    RgbaRoundTrip(Decimal(c.r), Decimal(c.g), Decimal(c.b), "0.5");
    DecimalRoundTrip(c.r);
    DecimalRoundTrip(c.g);
    DecimalRoundTrip(c.b);
  }

  predicate NoDot(s: string) {
    forall i :: 0 <= i < |s| ==> s[i] != '.'
  }

  /** The text of an rgba colour up to its alpha. */
  function RgbaHead(r: string, g: string, b: string): string {
    "rgba(" + r + ", " + g + ", " + b + ", "
  }

  lemma {:induction false} HeadHasNoDot(c: Rgb)
    ensures NoDot(RgbaHead(Decimal(c.r), Decimal(c.g), Decimal(c.b)))
  {
    var r, g, b := Decimal(c.r), Decimal(c.g), Decimal(c.b);
    DigitsHaveNoDot(r);
    DigitsHaveNoDot(g);
    DigitsHaveNoDot(b);
    NoDotAppend("rgba(", r);
    NoDotAppend("rgba(" + r, ", ");
    NoDotAppend("rgba(" + r + ", ", g);
    NoDotAppend("rgba(" + r + ", " + g, ", ");
    NoDotAppend("rgba(" + r + ", " + g + ", ", b);
    NoDotAppend("rgba(" + r + ", " + g + ", " + b, ", ");
  }

  lemma DigitsHaveNoDot(d: string)
    requires AllDigits(d)
    ensures NoDot(d)
  {
    forall i | 0 <= i < |d|
      ensures d[i] != '.'
    {
      assert IsDigit(d[i]);
    }
  }

  lemma NoDotAppend(a: string, b: string)
    requires NoDot(a) && NoDot(b)
    ensures NoDot(a + b)
  {
    forall i | 0 <= i < |a + b|
      ensures (a + b)[i] != '.'
    {
      if i < |a| {
        assert (a + b)[i] == a[i];
      } else {
        assert (a + b)[i] == b[i - |a|];
      }
    }
  }

  /** `createScanlines`'s colour, as written: `color.replace('0.1', '0.05')`. */
  function ScanColorAsWritten(color: string): string {
    ReplaceFirst(color, "0.1", "0.05")
  }

  /** As written, the scanlines are never made more transparent: the
      pattern colour's only `.` is in its alpha `0.5`, so `0.1` never occurs
      and the replacement leaves the colour as it is. */
  lemma {:induction false} ScanColorUnchanged(c: Rgb)
    ensures ScanColorAsWritten(RgbaColor(c)) == RgbaColor(c)
  {
    var head := RgbaHead(Decimal(c.r), Decimal(c.g), Decimal(c.b));
    var s := RgbaColor(c);
    HeadHasNoDot(c);
    assert s == head + "0.5)";
    forall j | 0 <= j <= |s|
      ensures !OccursAt(s, "0.1", j)
    {
      OccursAtChars(s, "0.1", j);
      if j + 3 <= |s| {
        if j + 1 < |head| {
          assert s[j + 1] == head[j + 1];
        } else if j + 1 == |head| {
          assert s[j + 1] == "0.5)"[0] == '0';
        } else if j + 1 == |head| + 1 {
          assert s[j + 2] == "0.5)"[2] == '5';
        } else {
          assert s[j + 1] == "0.5)"[2] == '5';
        }
      }
    }
  }

  /** An occurrence of a pattern is its characters at those positions. */
  lemma OccursAtChars(s: string, pat: string, j: nat)
    ensures OccursAt(s, pat, j) ==>
      j + |pat| <= |s| && forall i :: 0 <= i < |pat| ==> s[j + i] == pat[i]
  {
    if OccursAt(s, pat, j) {
      forall i | 0 <= i < |pat|
        ensures s[j + i] == pat[i]
      {
        assert s[j..][i] == s[j + i];
      }
    }
  }

  /** Corrected scanline colour: the pattern colour at half its alpha. */
  function ScanColor(c: Rgb): (r: string)
    ensures Search(r, RgbaPattern) == Some([Decimal(c.r), Decimal(c.g), Decimal(c.b)])
    ensures r != RgbaColor(c)
  {
    RgbaRoundTrip(Decimal(c.r), Decimal(c.g), Decimal(c.b), "0.25");
    AlphaDiffers(Decimal(c.r), Decimal(c.g), Decimal(c.b));
    RgbaText(Decimal(c.r), Decimal(c.g), Decimal(c.b), "0.25")
  }

  lemma AlphaDiffers(r: string, g: string, b: string)
    ensures RgbaText(r, g, b, "0.25") != RgbaText(r, g, b, "0.5")
  {
    assert |RgbaText(r, g, b, "0.25")| == |RgbaText(r, g, b, "0.5")| + 1;
  }

  // ---------------------------------------------------------------- shapes

  datatype Point = Point(x: real, y: real)

  /** One element a generator appends to the tile. */
  datatype Shape =
    | Line(from: Point, to: Point, stroke: string, width: real)
    | Dot(center: Point, radius: real, fill: string)
    | Ring(center: Point, radius: real, stroke: string, width: real)
    | Path(points: seq<Point>, stroke: string, width: real)
    | Wave(start: Point, control: Point, mid: Point, end: Point, stroke: string, width: real)
    | Polygon(points: seq<Point>, stroke: string, width: real)

  /** The test of a `for` loop over a real counter: `v <= bound`, or
      `v < bound` when `inclusive` is false. */
  predicate Test(v: real, bound: real, inclusive: bool) {
    if inclusive then v <= bound else v < bound
  }

  /** How many more times a loop with a positive step can pass its test. */
  function Span(from: real, step: real, bound: real): nat {
    if 0.0 < step && from <= bound then ((bound - from) / step).Floor + 1 else 0
  }

  lemma SpanShrinks(from: real, step: real, bound: real)
    requires 0.0 < step && from <= bound
    ensures Span(from + step, step, bound) < Span(from, step, bound)
  {
    var q := (bound - from) / step;
    assert q * step == bound - from;
    assert (q - 1.0) * step == bound - (from + step);
    DivideBack(bound - (from + step), step, q - 1.0);
    assert (q - 1.0).Floor == q.Floor - 1;
  }

  lemma DivideBack(x: real, d: real, y: real)
    requires d != 0.0 && y * d == x
    ensures x / d == y
  {
  }

  /** `r[k]` is the counter's value after `k` steps. */
  predicate Counts(r: seq<real>, from: real, step: real) {
    forall k :: 0 <= k < |r| ==> r[k] == from + k as real * step
  }

  lemma NextCounter(from: real, step: real, k: nat)
    ensures (from + step) + k as real * step == from + (k + 1) as real * step
  {
  }

  lemma {:induction false} CountsCons(from: real, step: real, rest: seq<real>)
    requires Counts(rest, from + step, step)
    ensures Counts([from] + rest, from, step)
  {
    var r := [from] + rest;
    forall k | 0 <= k < |r|
      ensures r[k] == from + k as real * step
    {
      if 0 < k {
        assert r[k] == rest[k - 1];
        NextCounter(from, step, k - 1);
      }
    }
  }

  /** `r` is what the counter of `for (let v = from; Test; v += step)`
      runs through: the multiples of the step from `from`, each passing the
      test, up to the first value that fails it. */
  predicate Walked(r: seq<real>, from: real, step: real, bound: real, inclusive: bool) {
    && Counts(r, from, step)
    && (forall k :: 0 <= k < |r| ==> Test(r[k], bound, inclusive))
    && !Test(from + |r| as real * step, bound, inclusive)
  }

  /** The values the counter of `for (let v = from; Test; v += step)`
      takes. The loop ends only when the step is positive or the test
      fails at once: with a step of 0 the source never leaves it. */
  function Walk(from: real, step: real, bound: real, inclusive: bool): (r: seq<real>)
    requires 0.0 < step || !Test(from, bound, inclusive)
    ensures Walked(r, from, step, bound, inclusive)
    decreases Span(from, step, bound)
  {
    if !Test(from, bound, inclusive) then
      assert from + 0 as real * step == from;
      []
    else
      SpanShrinks(from, step, bound);
      var rest := Walk(from + step, step, bound, inclusive);
      WalkCons(from, step, bound, inclusive, rest);
      [from] + rest
  }

  /** One more pass of the loop keeps the walk. */
  lemma {:induction false} WalkCons(from: real, step: real, bound: real, inclusive: bool, rest: seq<real>)
    requires Test(from, bound, inclusive) && Walked(rest, from + step, step, bound, inclusive)
    ensures Walked([from] + rest, from, step, bound, inclusive)
  {
    CountsCons(from, step, rest);
    NextCounter(from, step, |rest|);
    var r := [from] + rest;
    forall k | 0 <= k < |r|
      ensures Test(r[k], bound, inclusive)
    {
      if 0 < k {
        assert r[k] == rest[k - 1];
      }
    }
  }

  lemma MulDivides(x: real, d: real)
    requires d != 0.0
    ensures d * (x / d) == x
  {
  }

  /** A loop from 0 to `size` inclusive in steps of `size / n` runs `n + 1`
      times, at the multiples of the step. */
  lemma {:induction false} EvenSteps(size: real, n: nat)
    requires 0.0 < size && 0 < n
    ensures var r := Walk(0.0, size / n as real, size, true);
      |r| == n + 1 && Counts(r, 0.0, size / n as real)
  {
    MulDivides(size, n as real);
    EvenStepsOf(size, n, size / n as real);
  }

  lemma {:induction false} EvenStepsOf(size: real, n: nat, step: real)
    requires 0.0 < step && (n as real) * step == size
    ensures |Walk(0.0, step, size, true)| == n + 1
  {
    var r := Walk(0.0, step, size, true);
    var m := |r|;
    assert m != 0 by {
      assert !Test(0.0 + m as real * step, size, true);
    }
    assert Test(r[m - 1], size, true);
    assert r[m - 1] == 0.0 + (m - 1) as real * step;
    EvenCount(m, n, step, size);
  }

  lemma EvenCount(m: nat, n: nat, step: real, size: real)
    requires 0.0 < step && 0 < m && (n as real) * step == size
    requires !Test(0.0 + m as real * step, size, true)
    requires ((m - 1) as real) * step <= size
    ensures m == n + 1
  {
    MulLtMono(step, n as real, m as real);
    MulLtMono(step, n as real, (m - 1) as real);
  }

  /** A loop from `size / n` while below `size`, in steps of `size / n`. */
  function Inner(size: real, n: nat): (r: seq<real>)
    requires 1 < n
  {
    var sp := size / n as real;
    if size <= 0.0 then
      assert sp * n as real == size;
      assert size <= sp;
      []
    else Walk(sp, sp, size, false)
  }

  /** The inner loop runs `n - 1` times when `size` is positive and not at
      all otherwise, at the multiples of the step inside the tile. */
  lemma {:induction false} InnerSteps(size: real, n: nat)
    requires 1 < n && 0.0 < size
    ensures var r := Inner(size, n);
      |r| == n - 1 && forall k :: 0 <= k < |r| ==> 0.0 < r[k] < size
  {
    var sp := size / n as real;
    MulDivides(size, n as real);
    var r := Walk(sp, sp, size, false);
    PositiveCounts(r, sp);
    var m := |r|;
    NextCounter(0.0, sp, m);
    if m > 0 {
      assert Test(r[m - 1], size, false);
      assert r[m - 1] == sp + ((m - 1) as real) * sp;
      NextCounter(0.0, sp, m - 1);
    }
    InnerCount(m, n, sp, size);
  }

  lemma {:induction false} PositiveCounts(r: seq<real>, step: real)
    requires 0.0 < step && Counts(r, step, step)
    ensures forall k :: 0 <= k < |r| ==> 0.0 < r[k]
  {
    forall k | 0 <= k < |r|
      ensures 0.0 < r[k]
    {
      assert r[k] == step + k as real * step;
    }
  }

  lemma InnerCount(m: nat, n: nat, sp: real, size: real)
    requires 0.0 < sp && 1 < n && (n as real) * sp == size
    requires size <= ((m + 1) as real) * sp
    requires m > 0 ==> (m as real) * sp < size
    ensures m == n - 1
  {
    MulLtMono(sp, (m + 1) as real, n as real);
    MulLtMono(sp, m as real, n as real);
  }

  // ------------------------------------------------------------ generators

  /** `createGrid`: the tile's top and left edges, both from the origin. */
  function CreateGrid(size: real, color: string, width: real): (r: seq<Shape>)
    ensures |r| == 2 && forall k :: 0 <= k < 2 ==> r[k].Line? && r[k].from == Point(0.0, 0.0)
  {
    [Line(Point(0.0, 0.0), Point(size, 0.0), color, width),
     Line(Point(0.0, 0.0), Point(0.0, size), color, width)]
  }

  /** `createDots`: one dot of radius 2 at the tile's centre. */
  function CreateDots(size: real, color: string): (r: seq<Shape>)
    ensures |r| == 1 && r[0] == Dot(Point(size / 2.0, size / 2.0), 2.0, color)
  {
    [Dot(Point(size / 2.0, size / 2.0), 2.0, color)]
  }

  /** Full-width horizontal lines at the given heights. */
  function Rows(ys: seq<real>, size: real, color: string, width: real): (r: seq<Shape>)
    ensures |r| == |ys|
    ensures forall k :: 0 <= k < |r| ==>
      r[k] == Line(Point(0.0, ys[k]), Point(size, ys[k]), color, width)
  {
    seq(|ys|, k requires 0 <= k < |ys| => Line(Point(0.0, ys[k]), Point(size, ys[k]), color, width))
  }

  /** Full-height vertical lines at the given offsets. */
  function Columns(xs: seq<real>, size: real, color: string, width: real): (r: seq<Shape>)
    ensures |r| == |xs|
    ensures forall k :: 0 <= k < |r| ==>
      r[k] == Line(Point(xs[k], 0.0), Point(xs[k], size), color, width)
  {
    seq(|xs|, k requires 0 <= k < |xs| => Line(Point(xs[k], 0.0), Point(xs[k], size), color, width))
  }

  /** The loops of the line generators step by a fraction of the size; a
      size of 0 never ends them. */
  predicate Steps(size: real) {
    size != 0.0
  }

  lemma StepOk(size: real, n: nat)
    requires Steps(size) && 0 < n
    ensures 0.0 < size / n as real || !Test(0.0, size, true)
  {
  }

  /** `createHorizontalLines`: a line every tenth of the tile. */
  function CreateHorizontalLines(size: real, color: string, width: real): (r: seq<Shape>)
    requires Steps(size)
  {
    StepOk(size, 10);
    Rows(Walk(0.0, size / 10.0, size, true), size, color, width)
  }

  /** `createVerticalLines`. */
  function CreateVerticalLines(size: real, color: string, width: real): (r: seq<Shape>)
    requires Steps(size)
  {
    StepOk(size, 10);
    Columns(Walk(0.0, size / 10.0, size, true), size, color, width)
  }

  /** `createDiagonal`: one line corner to corner. */
  function CreateDiagonal(size: real, color: string, width: real): (r: seq<Shape>)
    ensures |r| == 1 && r[0].Line? && r[0].from == Point(0.0, 0.0) && r[0].to == Point(size, size)
  {
    [Line(Point(0.0, 0.0), Point(size, size), color, width)]
  }

  /** `createCrosshatch`: both diagonals. */
  function CreateCrosshatch(size: real, color: string, width: real): (r: seq<Shape>)
    ensures |r| == 2 && r[..1] == CreateDiagonal(size, color, width)
    ensures r[1].Line? && r[1].from == Point(size, 0.0) && r[1].to == Point(0.0, size)
  {
    CreateDiagonal(size, color, width) + [Line(Point(size, 0.0), Point(0.0, size), color, width)]
  }

  /** A corner of `createHexagon`: at angle `a` on the circle of radius
      `h / 2` around `(h, h)`. */
  function Corner(h: real, a: real, sin: real -> real, cos: real -> real): (p: Point)
    requires IsWave(sin) && IsWave(cos)
    ensures 0.0 <= h ==> h / 2.0 <= p.x <= 3.0 * h / 2.0 && h / 2.0 <= p.y <= 3.0 * h / 2.0
  {
    var x, y := h + h * 0.5 * cos(a), h + h * 0.5 * sin(a);
    CornerBound(h, cos(a), x);
    CornerBound(h, sin(a), y);
    Point(x, y)
  }

  lemma CornerBound(h: real, w: real, p: real)
    requires -1.0 <= w <= 1.0 && p == h + h * 0.5 * w
    ensures 0.0 <= h ==> h / 2.0 <= p <= 3.0 * h / 2.0
  {
    if 0.0 <= h {
      WaveScale(w, h * 0.5);
      assert h * 0.5 * w == w * (h * 0.5);
    }
  }

  /** `createHexagon`: six corners at the angles `i * PI / 3` on a circle
      of a quarter of the tile around its centre; the polygon lies in the
      tile's middle half. */
  function CreateHexagon(size: real, color: string, width: real,
                   sin: real -> real, cos: real -> real): (r: seq<Shape>)
    requires IsWave(sin) && IsWave(cos)
    ensures |r| == 1 && r[0].Polygon? && |r[0].points| == 6
    ensures 0.0 <= size ==> forall k :: 0 <= k < 6 ==>
      size / 4.0 <= r[0].points[k].x <= 3.0 * size / 4.0 &&
      size / 4.0 <= r[0].points[k].y <= 3.0 * size / 4.0
  {
    var h := size / 2.0;
    [Polygon(seq(6, i requires 0 <= i < 6 => Corner(h, Pi / 3.0 * i as real, sin, cos)), color, width)]
  }

  /** `createCircles`: one ring of a third of the tile around its centre. */
  function CreateCircles(size: real, color: string, width: real): (r: seq<Shape>)
    ensures |r| == 1 && r[0].Ring? && r[0].radius * 3.0 == size
  {
    [Ring(Point(size / 2.0, size / 2.0), size / 3.0, color, width)]
  }

  /** `createWaves`: `M 0 s/2 Q s/4 s/4 s/2 s/2 T s s/2`, one wave crossing
      the tile at mid-height. */
  function CreateWaves(size: real, color: string, width: real): (r: seq<Shape>)
    ensures |r| == 1 && r[0].Wave? && r[0].start.y == r[0].mid.y == r[0].end.y == size / 2.0
    ensures r[0].end.x - r[0].start.x == size
  {
    var wave := size / 4.0;
    [Wave(Point(0.0, size / 2.0), Point(size / 4.0, size / 2.0 - wave),
      Point(size / 2.0, size / 2.0), Point(size, size / 2.0), color, width)]
  }

  /** `createMesh`: lines every fifth of the tile, the horizontal ones
      first. */
  function CreateMesh(size: real, color: string, width: real): (r: seq<Shape>)
    requires Steps(size)
  {
    StepOk(size, 5);
    var ticks := Walk(0.0, size / 5.0, size, true);
    Rows(ticks, size, color, width) + Columns(ticks, size, color, width)
  }

  /** The random values one noise dot consumes. */
  datatype Speck = Speck(x: Unit, y: Unit, radius: Unit)

  /** One noise dot. */
  function Speckle(size: real, color: string, d: Speck): (r: Shape)
    ensures r.Dot? && 0.5 <= r.radius < 2.5
    ensures 0.0 <= size ==> 0.0 <= r.center.x <= size && 0.0 <= r.center.y <= size
  {
    Dot(Point(Spread(d.x, size), Spread(d.y, size)), d.radius * 2.0 + 0.5, color)
  }

  /** `createNoise`: fifty dots at random places of the tile. */
  function CreateNoise(size: real, color: string, rng: nat -> Speck): (r: seq<Shape>)
    ensures |r| == 50
    ensures forall k :: 0 <= k < 50 ==> r[k].Dot? && 0.5 <= r[k].radius < 2.5
    ensures 0.0 <= size ==> forall k :: 0 <= k < 50 ==>
      0.0 <= r[k].center.x <= size && 0.0 <= r[k].center.y <= size
  {
    var r := seq(50, k requires 0 <= k < 50 => Speckle(size, color, rng(k)));
    assert forall k :: 0 <= k < 50 ==> r[k] == Speckle(size, color, rng(k));
    r
  }

  /** The corners of `createCircuit`'s traces and nodes. */
  function Quarter(size: real): real { size / 4.0 }
  function Half(size: real): real { size / 2.0 }
  function ThreeQuarters(size: real): real { size * 3.0 / 4.0 }

  /** `createCircuit`: four traces in the pattern colour, then five nodes of
      radius 2 in the node colour at the centre and the quarter points. */
  function CreateCircuit(size: real, color: string, width: real): (r: seq<Shape>)
    ensures |r| == 9
    ensures forall k :: 0 <= k < 4 ==> r[k].Path? && r[k].stroke == color
    ensures forall k :: 4 <= k < 9 ==> r[k].Dot? && r[k].radius == 2.0 && r[k].fill == NodeColor(color)
  {
    var q, h, t := Quarter(size), Half(size), ThreeQuarters(size);
    var traces := [
      Path([Point(0.0, h), Point(h, h), Point(h, 0.0)], color, width),
      Path([Point(h, h), Point(size, h), Point(size, size)], color, width),
      Path([Point(q, q), Point(t, q)], color, width),
      Path([Point(q, t), Point(t, t)], color, width)];
    var node := NodeColor(color);
    var nodes := [
      Dot(Point(h, h), 2.0, node), Dot(Point(q, q), 2.0, node), Dot(Point(t, q), 2.0, node),
      Dot(Point(q, t), 2.0, node), Dot(Point(t, t), 2.0, node)];
    traces + nodes
  }

  /** `createScanlines`: a line every 2 units down the tile, in the
      scanline colour. */
  function CreateScanlines(size: real, color: string, width: real): (r: seq<Shape>)
    ensures 0.0 <= size ==> 2.0 * (|r| - 1) as real <= size < 2.0 * |r| as real
    ensures size < 0.0 ==> r == []
    ensures forall j :: 0 <= j < |r| ==> r[j].Line? && r[j].stroke == color
  {
    var ys := Walk(0.0, 2.0, size, true);
    if 0.0 <= size then
      assert ys != [];
      assert ys[|ys| - 1] == 0.0 + (|ys| - 1) as real * 2.0;
      Rows(ys, size, color, width)
    else Rows(ys, size, color, width)
  }

  /** The dots of `createDotsGrid`: one column of `ys` for each of `xs`. */
  function DotColumns(xs: seq<real>, ys: seq<real>, color: string): (r: seq<Shape>)
    ensures |r| == |xs| * |ys|
    ensures forall s :: s in r ==>
      s.Dot? && s.radius == 1.5 && s.fill == color && s.center.x in xs && s.center.y in ys
    decreases |xs|
  {
    if xs == [] then []
    else
      var column := seq(|ys|, k requires 0 <= k < |ys| => Dot(Point(xs[0], ys[k]), 1.5, color));
      var rest := DotColumns(xs[1..], ys, color);
      assert |xs| * |ys| == |ys| + (|xs| - 1) * |ys|;
      column + rest
  }

  /** `createDotsGrid`: dots of radius 1.5 on the grid of fifths, inside
      the tile. */
  function CreateDotsGrid(size: real, color: string): (r: seq<Shape>)
  {
    var ticks := Inner(size, 5);
    DotColumns(ticks, ticks, color)
  }

  /** `createRadial`: five rings around the centre, the `i`-th of radius
      `i * size / 6`. */
  function CreateRadial(size: real, color: string, width: real): (r: seq<Shape>)
    ensures |r| == 5
    ensures forall k :: 0 <= k < 5 ==>
      r[k].Ring? && r[k].center == Point(size / 2.0, size / 2.0) && r[k].radius == size / 6.0 * (k + 1) as real
  {
    seq(5, k requires 0 <= k < 5 =>
      Ring(Point(size / 2.0, size / 2.0), size / 6.0 * (k + 1) as real, color, width))
  }

  // -------------------------------------------------------- generatePattern

  /** The pattern types `generatePattern` knows. */
  datatype Kind = Grid | Dots | HorizontalLines | VerticalLines | Diagonal | Crosshatch
                | Hexagon | Circles | Waves | Mesh | Noise | Circuit | Scanlines | DotsGrid | Radial

  /** The name a pattern type goes by. */
  function Label(k: Kind): string {
    match k
    case Grid => "grid"
    case Dots => "dots"
    case HorizontalLines => "lines-horizontal"
    case VerticalLines => "lines-vertical"
    case Diagonal => "diagonal"
    case Crosshatch => "crosshatch"
    case Hexagon => "hexagon"
    case Circles => "circles"
    case Waves => "waves"
    case Mesh => "mesh"
    case Noise => "noise"
    case Circuit => "circuit"
    case Scanlines => "scanlines"
    case DotsGrid => "dots-grid"
    case Radial => "radial"
  }

  /** The cases of `generatePattern`'s switch, in order. */
  function Named(name: string): (r: Option<Kind>)
    ensures r.Some? ==> Label(r.value) == name
  {
    if name == "grid" then Some(Grid)
    else if name == "dots" then Some(Dots)
    else if name == "lines-horizontal" then Some(HorizontalLines)
    else if name == "lines-vertical" then Some(VerticalLines)
    else if name == "diagonal" then Some(Diagonal)
    else if name == "crosshatch" then Some(Crosshatch)
    else if name == "hexagon" then Some(Hexagon)
    else if name == "circles" then Some(Circles)
    else if name == "waves" then Some(Waves)
    else if name == "mesh" then Some(Mesh)
    else if name == "noise" then Some(Noise)
    else if name == "circuit" then Some(Circuit)
    else if name == "scanlines" then Some(Scanlines)
    else if name == "dots-grid" then Some(DotsGrid)
    else if name == "radial" then Some(Radial)
    else None
  }

  /** Every type is reached by its own name. */
  lemma NamedLabel(k: Kind)
    ensures Named(Label(k)) == Some(k)
  {
    match k
    case Grid =>
    case Dots =>
    case HorizontalLines =>
    case VerticalLines =>
    case Diagonal =>
    case Crosshatch =>
    case Hexagon =>
    case Circles =>
    case Waves =>
    case Mesh =>
    case Noise =>
    case Circuit =>
    case Scanlines =>
    case DotsGrid =>
    case Radial =>
  }

  /** A name is unknown exactly when no type goes by it. */
  lemma UnknownNames(name: string)
    ensures Named(name).None? <==> forall k :: Label(k) != name
  {
    forall k | Label(k) == name
      ensures Named(name).Some?
    {
      NamedLabel(k);
    }
  }

  /** The types whose loops step by a fraction of the size. */
  predicate FractionStepped(k: Kind) {
    k == HorizontalLines || k == VerticalLines || k == Mesh
  }

  /** The shapes of one tile of type `k`, drawn in the pattern colour of
      `hex`. The scanline colour is `color.replace('0.1', '0.05')`, which
      never matches, so the scanlines are stroked in the pattern colour
      itself, alpha 0.5. */
  function Tile(k: Kind, size: real, hex: string, width: real,
                sin: real -> real, cos: real -> real, rng: nat -> Speck): (r: seq<Shape>)
    requires IsWave(sin) && IsWave(cos)
    requires FractionStepped(k) ==> Steps(size)
    ensures k == Scanlines ==> forall j :: 0 <= j < |r| ==> r[j].Line? && r[j].stroke == RgbaColor(HexToRgb(hex))
  {
    var rgb := HexToRgb(hex);
    var color := RgbaColor(rgb);
    ScanColorUnchanged(rgb);
    match k
    case Grid => CreateGrid(size, color, width)
    case Dots => CreateDots(size, color)
    case HorizontalLines => CreateHorizontalLines(size, color, width)
    case VerticalLines => CreateVerticalLines(size, color, width)
    case Diagonal => CreateDiagonal(size, color, width)
    case Crosshatch => CreateCrosshatch(size, color, width)
    case Hexagon => CreateHexagon(size, color, width, sin, cos)
    case Circles => CreateCircles(size, color, width)
    case Waves => CreateWaves(size, color, width)
    case Mesh => CreateMesh(size, color, width)
    case Noise => CreateNoise(size, color, rng)
    case Circuit => CreateCircuit(size, color, width)
    case Scanlines => CreateScanlines(size, ScanColorAsWritten(color), width)
    case DotsGrid => CreateDotsGrid(size, color)
    case Radial => CreateRadial(size, color, width)
  }

  /** The tile with the scanlines at half the pattern colour's alpha, as
      the scanline generator means to draw them; every other type is drawn
      as written, and a scanline tile of non-negative size differs from the
      as-written one. */
  function TileFixed(k: Kind, size: real, hex: string, width: real,
                     sin: real -> real, cos: real -> real, rng: nat -> Speck): (r: seq<Shape>)
    requires IsWave(sin) && IsWave(cos)
    requires FractionStepped(k) ==> Steps(size)
    ensures k != Scanlines ==> r == Tile(k, size, hex, width, sin, cos, rng)
    ensures k == Scanlines ==> forall j :: 0 <= j < |r| ==> r[j].Line? && r[j].stroke == ScanColor(HexToRgb(hex))
    ensures k == Scanlines && 0.0 <= size ==> r != Tile(k, size, hex, width, sin, cos, rng)
  {
    if k == Scanlines then
      var r := CreateScanlines(size, ScanColor(HexToRgb(hex)), width);
      if 0.0 <= size then
        assert r[0].stroke != Tile(k, size, hex, width, sin, cos, rng)[0].stroke;
        r
      else r
    else Tile(k, size, hex, width, sin, cos, rng)
  }

  /** The overlay: the tile size, the tile's shapes, and the fill of the
      single full-size rectangle that shows the tile. */
  datatype Svg = Svg(tile: real, shapes: seq<Shape>, fill: string)

  /** `generatePattern`: an unknown name gives an empty tile. */
  function GeneratePattern(name: string, size: real, hex: string, width: real,
                           sin: real -> real, cos: real -> real, rng: nat -> Speck): (r: Svg)
    requires IsWave(sin) && IsWave(cos)
    requires Named(name).Some? && FractionStepped(Named(name).value) ==> Steps(size)
    ensures r.tile == size && r.fill == "url(#svg-pattern)"
    ensures Named(name).None? ==> r.shapes == []
  {
    var shapes := match Named(name)
      case None => []
      case Some(k) => Tile(k, size, hex, width, sin, cos, rng);
    Svg(size, shapes, "url(#svg-pattern)")
  }

  // ------------------------------------------------------------ properties

  /** Horizontal lines: eleven of them for a positive size, one every tenth
      of the tile from top to bottom. */
  lemma HorizontalLinesEveryTenth(size: real, color: string, width: real)
    requires 0.0 < size
    ensures var r := CreateHorizontalLines(size, color, width);
      |r| == 11 && forall k :: 0 <= k < 11 ==>
        r[k] == Line(Point(0.0, k as real * (size / 10.0)), Point(size, k as real * (size / 10.0)), color, width)
  {
    EvenSteps(size, 10);
  }

  /** Vertical lines: eleven, one every tenth of the tile across. */
  lemma VerticalLinesEveryTenth(size: real, color: string, width: real)
    requires 0.0 < size
    ensures var r := CreateVerticalLines(size, color, width);
      |r| == 11 && forall k :: 0 <= k < 11 ==>
        r[k] == Line(Point(k as real * (size / 10.0), 0.0), Point(k as real * (size / 10.0), size), color, width)
  {
    EvenSteps(size, 10);
  }

  /** A negative size draws no lines at all: the loops' tests fail at
      once. */
  lemma NegativeSizeDrawsNoLines(size: real, color: string, width: real)
    requires size < 0.0
    ensures CreateHorizontalLines(size, color, width) == []
    ensures CreateVerticalLines(size, color, width) == []
    ensures CreateMesh(size, color, width) == []
  {
  }

  /** The mesh draws twelve lines: first six horizontal ones, one every
      fifth of the tile from top to bottom, */
  lemma MeshRows(size: real, color: string, width: real)
    requires 0.0 < size
    ensures var r, step := CreateMesh(size, color, width), size / 5.0;
      && |r| == 12
      && forall k :: 0 <= k < 6 ==>
        r[k] == Line(Point(0.0, k as real * step), Point(size, k as real * step), color, width)
  {
    EvenSteps(size, 5);
    MeshLayout(Walk(0.0, size / 5.0, size, true), size / 5.0, size, color, width);
  }

  /** then six vertical ones, one every fifth of the tile across. */
  lemma MeshColumns(size: real, color: string, width: real)
    requires 0.0 < size
    ensures var r, step := CreateMesh(size, color, width), size / 5.0;
      && |r| == 12
      && forall k :: 6 <= k < 12 ==>
        r[k] == Line(Point((k - 6) as real * step, 0.0), Point((k - 6) as real * step, size), color, width)
  {
    EvenSteps(size, 5);
    MeshLayout(Walk(0.0, size / 5.0, size, true), size / 5.0, size, color, width);
  }

  lemma MeshLayout(ticks: seq<real>, step: real, size: real, color: string, width: real)
    requires |ticks| == 6 && Counts(ticks, 0.0, step)
    ensures var r := Rows(ticks, size, color, width) + Columns(ticks, size, color, width);
      && |r| == 12
      && (forall k :: 0 <= k < 6 ==>
        r[k] == Line(Point(0.0, k as real * step), Point(size, k as real * step), color, width))
      && (forall k :: 6 <= k < 12 ==>
        r[k] == Line(Point((k - 6) as real * step, 0.0), Point((k - 6) as real * step, size), color, width))
  {
    var rows, columns := Rows(ticks, size, color, width), Columns(ticks, size, color, width);
    var r := rows + columns;
    forall k | 6 <= k < 12
      ensures r[k] == columns[k - 6]
    {
    }
  }

  /** The dots grid: sixteen dots of radius 1.5, all strictly inside the
      tile; nothing for a size that is not positive. */
  lemma DotsGridIsFourByFour(size: real, color: string)
    ensures size <= 0.0 ==> CreateDotsGrid(size, color) == []
    ensures 0.0 < size ==> var r := CreateDotsGrid(size, color);
      && |r| == 16
      && forall d :: d in r ==>
        d.Dot? && d.radius == 1.5 && 0.0 < d.center.x < size && 0.0 < d.center.y < size
  {
    if 0.0 < size {
      InnerSteps(size, 5);
    }
  }

  /** The radial rings share the tile's centre and grow strictly, by a
      sixth of the tile each, for a positive size. */
  lemma RadialRingsGrow(size: real, color: string, width: real)
    requires 0.0 < size
    ensures var r := CreateRadial(size, color, width);
      forall k :: 0 <= k < 4 ==>
        r[k].radius < r[k + 1].radius && r[k + 1].radius - r[k].radius == size / 6.0
  {
    var r := CreateRadial(size, color, width);
    forall k | 0 <= k < 4
      ensures r[k + 1].radius - r[k].radius == size / 6.0
    {
      assert size / 6.0 * (k + 2) as real == size / 6.0 * (k + 1) as real + size / 6.0;
    }
  }

  /** A pattern drawn for a `#rrggbb` colour strokes its shapes with that
      colour's channels at alpha 0.5. */
  lemma GridStrokeFromHex(c: Rgb, size: real, width: real,
                          sin: real -> real, cos: real -> real, rng: nat -> Speck)
    requires IsColor(c) && IsWave(sin) && IsWave(cos)
    ensures Tile(Grid, size, ToHex(c), width, sin, cos, rng)[0].stroke
      == RgbaText(Decimal(c.r), Decimal(c.g), Decimal(c.b), "0.5")
  {
    HexRoundTrip(c);
    assert Tile(Grid, size, ToHex(c), width, sin, cos, rng) == CreateGrid(size, RgbaColor(c), width);
  }

  /** The circuit's nodes fill with the same channels at alpha 0.2. */
  lemma CircuitNodesFromHex(c: Rgb, size: real, width: real,
                            sin: real -> real, cos: real -> real, rng: nat -> Speck)
    requires IsColor(c) && IsWave(sin) && IsWave(cos)
    ensures forall k :: 4 <= k < 9 ==>
      Tile(Circuit, size, ToHex(c), width, sin, cos, rng)[k].fill
        == RgbaText(Decimal(c.r), Decimal(c.g), Decimal(c.b), "0.2")
  {
    HexRoundTrip(c);
    NodeColorKeepsChannels(ToHex(c));
    assert Tile(Circuit, size, ToHex(c), width, sin, cos, rng) == CreateCircuit(size, RgbaColor(c), width);
  }
}
