/** What one call of `draw` (canvas-animation.js:280-402) and `applyFilters`
    (404-417) put on the canvas, as data: the background, the blend mode,
    the blur filter, one radial and/or line gradient layer per blob with
    its colour stops, the fade-out veil and the CSS filter list. */
module Compositor {
  import opened Wrappers
  import opened JsMath
  import opened Text
  import opened Scan
  import opened Settings
  import opened Colors
  import opened Blobs

  // ------------------------------------------------------------- fade-out

  /** `accumulatingBlendModes`: the blend modes under which frames pile up
      brightness. */
  const AccumulatingBlendModes: seq<string> :=
    ["lighten", "screen", "color-dodge", "overlay", "soft-light"]

  predicate ShouldFadeout(c: Config) {
    c.fadeoutMode != "none" && c.blendMode in AccumulatingBlendModes
  }

  /** `fadeoutInterval`: ten seconds in auto mode, the user's time otherwise. */
  function FadeInterval(c: Config): real {
    if c.fadeoutMode == "auto" then 10.0 else c.fadeoutTime
  }

  /** `Math.min(0.03, 1 / interval / 60 * 0.8)`, where `1 / 0` is
      `Infinity`. Intervals up to 4/9 of a second hit the 3% cap; longer
      ones fade by `1 / (75 * interval)`, less than 3%. */
  function FadeAmount(interval: real): (r: real)
    ensures 0.0 <= interval <= 4.0 / 9.0 ==> r == 0.03
    ensures 4.0 / 9.0 < interval ==> 0.0 < r < 0.03 && r * (75.0 * interval) == 1.0
    ensures interval < 0.0 ==> r < 0.0
  {
    if interval == 0.0 then 0.03
    else
      var perFrame := 1.0 / interval / 60.0 * 0.8;
      FadeCap(interval, perFrame);
      Min(0.03, perFrame)
  }

  lemma FadeCap(interval: real, perFrame: real)
    requires interval != 0.0 && perFrame == 1.0 / interval / 60.0 * 0.8
    ensures perFrame * (75.0 * interval) == 1.0
    ensures 0.0 < interval <= 4.0 / 9.0 ==> 0.03 <= perFrame
    ensures 4.0 / 9.0 < interval ==> 0.0 < perFrame < 0.03
    ensures interval < 0.0 ==> perFrame < 0.0
  {
    assert perFrame == 1.0 / (75.0 * interval);
    if 0.0 < interval <= 4.0 / 9.0 {
      MulLeMono(75.0, interval, 4.0 / 9.0);
      InverseAntitone(75.0 * interval, 100.0 / 3.0);
    } else if 4.0 / 9.0 < interval {
      MulLtMono(75.0, 4.0 / 9.0, interval);
      InverseAntitone(100.0 / 3.0, 75.0 * interval);
    }
  }

  /** `1 / x` decreases on the positive numbers. */
  lemma InverseAntitone(x: real, y: real)
    requires 0.0 < x <= y
    ensures 1.0 / y <= 1.0 / x
    ensures x < y ==> 1.0 / y < 1.0 / x
  {
    assert 1.0 / x - 1.0 / y == (y - x) / (x * y);
  }

  /** The alpha of the white the frame is multiplied with, or `None` when
      there is no fade-out. For a positive interval the frame keeps 97% or
      more of its brightness, and always loses some. */
  function FadeAlpha(c: Config): (r: Option<real>)
    ensures r.Some? <==> ShouldFadeout(c)
    ensures r.Some? && 0.0 <= FadeInterval(c) ==> 0.97 <= r.value < 1.0
  {
    if ShouldFadeout(c) then Some(1.0 - FadeAmount(FadeInterval(c))) else None
  }

  // ---------------------------------------------------------- colour stops

  /** A colour a gradient stop is given. */
  datatype Paint = Hsla(h: string, s: string, l: string, alpha: real) | Solid(css: string) | Transparent

  datatype Stop = Stop(offset: real, paint: Paint)

  /** The three stops of a colour written as `hsla`: full opacity at the
      centre, `opacity * (1 - fade)` at the fade point, none at the rim. */
  function HslaStops(h: string, s: string, l: string, opacity: real, fade: real): (r: seq<Stop>)
    ensures |r| == 3 && r[0].offset == 0.0 && r[1].offset == fade && r[2].offset == 1.0
    ensures forall k :: 0 <= k < 3 ==>
      (r[k].paint.Hsla? && r[k].paint.h == h && r[k].paint.s == s && r[k].paint.l == l)
    ensures r[0].paint.alpha == opacity && r[2].paint.alpha == 0.0
    ensures 0.0 <= fade <= 1.0 && 0.0 <= opacity ==>
      0.0 <= r[1].paint.alpha <= opacity
  {
    FadedAlpha(opacity, fade);
    [Stop(0.0, Hsla(h, s, l, opacity)),
     Stop(fade, Hsla(h, s, l, opacity * (1.0 - fade))),
     Stop(1.0, Hsla(h, s, l, 0.0))]
  }

  lemma FadedAlpha(opacity: real, fade: real)
    ensures 0.0 <= fade <= 1.0 && 0.0 <= opacity ==> 0.0 <= opacity * (1.0 - fade) <= opacity
  {
    if 0.0 <= fade <= 1.0 && 0.0 <= opacity {
      ScaleUnit(1.0 - fade, opacity);
    }
  }

  /** The stops `draw` adds as written: the three `hsla` stops when the
      colour text matches the digit-only hsl pattern, otherwise the colour
      itself fading to `transparent`. */
  function Stops(c: Color, opacity: real, fade: real, numText: real -> string): (r: seq<Stop>)
    ensures HslMatch(c, numText).Some? ==> |r| == 3 && r[0].paint.Hsla? && r[0].paint.alpha == opacity
    ensures HslMatch(c, numText).Some? ==> var caps := HslMatch(c, numText).value;
      r == HslaStops(caps[0], caps[1], caps[2], opacity, fade)
    ensures HslMatch(c, numText).None? ==>
      r == [Stop(0.0, Solid(Css(c, numText))), Stop(1.0, Transparent)]
  {
    match HslMatch(c, numText)
    case Some(caps) => HslaStops(caps[0], caps[1], caps[2], opacity, fade)
    case None => [Stop(0.0, Solid(Css(c, numText))), Stop(1.0, Transparent)]
  }

  /** The stops the source evidently means: every HSL colour gets the
      `hsla` stops, written with its own component texts; literal colours
      are handled as before. */
  function StopsFixed(c: Color, opacity: real, fade: real, numText: real -> string): (r: seq<Stop>)
    ensures c.Hsl? ==> r == HslaStops(numText(c.h), numText(c.s), numText(c.l), opacity, fade)
    ensures c.Literal? ==> r == Stops(c, opacity, fade, numText)
  {
    match c
    case Hsl(h, s, l) => HslaStops(numText(h), numText(s), numText(l), opacity, fade)
    case Literal(_) => Stops(c, opacity, fade, numText)
  }

  /** Where the source's pattern does match, the fixed stops are the
      source's stops: the fix changes only the colours the pattern misses. */
  lemma StopsFixedAgrees(h: real, s: real, l: real, opacity: real, fade: real, numText: real -> string)
    requires IsNumberText(numText)
    requires IsPlainNat(h) && IsPlainNat(s) && IsPlainNat(l)
    ensures StopsFixed(Hsl(h, s, l), opacity, fade, numText) == Stops(Hsl(h, s, l), opacity, fade, numText)
  {
    PlainHslMatches(h, s, l, numText);
    assert numText(h) == Decimal(h.Floor);
    assert numText(s) == Decimal(s.Floor);
    assert numText(l) == Decimal(l.Floor);
  }

  /** With the fix, every HSL colour starts at the blob's opacity and fades
      out along the offsets: the alphas never increase. */
  lemma StopsFixedFade(c: Color, opacity: real, fade: real, numText: real -> string)
    requires c.Hsl? && 0.0 <= fade <= 1.0 && 0.0 <= opacity
    ensures var r := StopsFixed(c, opacity, fade, numText);
      && |r| == 3 && r[0].paint.alpha == opacity
      && r[0].offset <= r[1].offset <= r[2].offset
      && r[0].paint.alpha >= r[1].paint.alpha >= r[2].paint.alpha
  {
  }

  /** As written, an HSL colour whose hue is not a plain natural number
      gets the two-stop gradient, whatever the blob's opacity and the fade
      point: neither reaches the canvas. */
  lemma FractionalHueIgnoresOpacity(h: real, s: real, l: real, op1: real, op2: real,
                                    fade1: real, fade2: real, numText: real -> string)
    requires IsNumberText(numText) && !IsPlainNat(h)
    ensures Stops(Hsl(h, s, l), op1, fade1, numText) == Stops(Hsl(h, s, l), op2, fade2, numText)
    ensures |Stops(Hsl(h, s, l), op1, fade1, numText)| == 2
  {
    FractionalHueUnmatched(h, s, l, numText);
  }

  /** A concrete case: the colour `hsl(200.5, 80%, 35%)`, which a blob in
      hue-range mode gets as soon as its hue swing is half a degree off a
      whole number, is drawn opaque to transparent and ignores opacity. */
  lemma HalfDegreeHueExample(numText: real -> string)
    requires IsNumberText(numText)
    ensures Stops(Hsl(200.5, 80.0, 35.0), 0.3, 0.5, numText)
      == [Stop(0.0, Solid(Css(Hsl(200.5, 80.0, 35.0), numText))), Stop(1.0, Transparent)]
  {
    assert !IsPlainNat(200.5) by { assert (200.5).Floor == 200; }
    FractionalHueUnmatched(200.5, 80.0, 35.0, numText);
  }

  // --------------------------------------------------------------- layers

  /** `drawingMultiplier`. */
  function DrawingMultiplier(c: Config): real {
    if c.gradientSizeMode == "drawing" then c.gradientSizeMultiplier else 1.0
  }

  /** The size multiplier is applied exactly once, at creation in `base`
      mode or at drawing in `drawing` mode, and not at all in any other
      mode. */
  lemma SizeMultiplierAppliedOnce(c: Config)
    ensures c.gradientSizeMode == "base" || c.gradientSizeMode == "drawing" ==>
      BaseMultiplier(c) * DrawingMultiplier(c) == c.gradientSizeMultiplier
    ensures c.gradientSizeMode != "base" && c.gradientSizeMode != "drawing" ==>
      BaseMultiplier(c) == 1.0 && DrawingMultiplier(c) == 1.0
  {
  }

  /** The elongated line gradient's geometry: the larger half-extent is the
      gradient's reach and is drawn unscaled; the other axis is scaled down
      by its share. `None` when the reach is not positive (the source then
      divides zero by zero or asks for a negative radius). */
  function LineShape(halfLength: real, halfWidth: real): (r: Option<(real, real, real)>)
    ensures r.Some? <==> 0.0 < Max(halfLength, halfWidth)
    ensures r.Some? ==> var (sx, sy, reach) := r.value;
      && reach == Max(halfLength, halfWidth)
      && Max(sx, sy) == 1.0
      && sx * reach == halfLength && sy * reach == halfWidth
  {
    var reach := Max(halfLength, halfWidth);
    if reach <= 0.0 then None
    else
      var sx, sy := halfLength / reach, halfWidth / reach;
      assert halfLength <= reach && halfWidth <= reach;
      assert sx <= 1.0 && sy <= 1.0 by {
        InverseScale(halfLength, reach);
        InverseScale(halfWidth, reach);
      }
      Some((sx, sy, reach))
  }

  lemma InverseScale(a: real, m: real)
    requires 0.0 < m && a <= m
    ensures a / m <= 1.0
  {
    MulLeMono(m, a / m, 1.0);
  }

  /** Which colour stops a layer is drawn with: the source's, chosen by
      its digit-only pattern, or the corrected ones. */
  datatype Version = AsWritten | Corrected

  function StopsOf(v: Version, c: Color, opacity: real, fade: real, numText: real -> string): seq<Stop> {
    match v
    case AsWritten => Stops(c, opacity, fade, numText)
    case Corrected => StopsFixed(c, opacity, fade, numText)
  }

  /** The stops blob `b` is drawn with under version `v`. */
  function BlobStops(v: Version, c: Config, b: Blob, numText: real -> string): seq<Stop> {
    StopsOf(v, b.color, b.opacity, c.gradientFade, numText)
  }

  /** One gradient drawn for a blob. */
  datatype Layer =
    | Radial(x: real, y: real, radius: real, stops: seq<Stop>)
    | Line(x: real, y: real, angle: real, scaleX: real, scaleY: real, reach: real, stops: seq<Stop>)

  /** The radial gradient of a blob: centred on it, with the blob's radius
      scaled by `scale` and the drawing multiplier. */
  function RadialLayer(c: Config, b: Blob, stops: seq<Stop>): (r: Layer)
    ensures r.Radial? && r.x == b.x && r.y == b.y && r.stops == stops
    ensures 0.0 <= b.radius && 0.0 <= c.scale && 0.0 <= DrawingMultiplier(c) ==> 0.0 <= r.radius
    ensures c.gradientSizeMode != "drawing" ==> r.radius == b.radius * c.scale
  {
    var m := DrawingMultiplier(c);
    NonNegativeProduct(b.radius, c.scale, m);
    Radial(b.x, b.y, b.radius * c.scale * m, stops)
  }

  lemma NonNegativeProduct(a: real, b: real, m: real)
    ensures 0.0 <= a && 0.0 <= b && 0.0 <= m ==> 0.0 <= a * b * m
  {
    if 0.0 <= a && 0.0 <= b && 0.0 <= m {
      ScaleBetween(b, 0.0, b, a, a * b);
      ScaleBetween(m, 0.0, m, a * b, a * b * m);
    }
  }

  /** The line gradient of a blob, when its reach is positive: rotated by
      the angle in radians, centred on the blob, its reach the larger of
      half the length and half the width, both scaled by the drawing
      multiplier. */
  function LineLayer(c: Config, b: Blob, stops: seq<Stop>): (r: Option<Layer>)
    ensures r.Some? <==> 0.0 < Max(c.lineGradientLength * DrawingMultiplier(c) / 2.0,
                                   c.lineGradientWidth * DrawingMultiplier(c) / 2.0)
    ensures r.Some? ==>
      (r.value.Line? && r.value.x == b.x && r.value.y == b.y
       && r.value.angle == c.lineGradientAngle * Pi / 180.0
       && r.value.reach == Max(c.lineGradientLength * DrawingMultiplier(c) / 2.0,
                               c.lineGradientWidth * DrawingMultiplier(c) / 2.0)
       && r.value.stops == stops)
  {
    var m := DrawingMultiplier(c);
    match LineShape(c.lineGradientLength * m / 2.0, c.lineGradientWidth * m / 2.0)
    case None => None
    case Some((sx, sy, reach)) =>
      Some(Line(b.x, b.y, c.lineGradientAngle * Pi / 180.0, sx, sy, reach, stops))
  }

  /** Whether each blob gets a line gradient: line gradients are enabled
      and their reach is positive. */
  predicate LineDrawn(c: Config) {
    c.lineGradientsEnabled && 0.0 < Max(c.lineGradientLength * DrawingMultiplier(c) / 2.0,
                                        c.lineGradientWidth * DrawingMultiplier(c) / 2.0)
  }

  /** The layers of one blob, all with the given stops: its radial
      gradient, then its line gradient, each when enabled. */
  function BlobLayers(c: Config, b: Blob, stops: seq<Stop>): (r: seq<Layer>)
    ensures |r| <= 2
    ensures c.radialGradientsEnabled <==> (r != [] && r[0].Radial?)
    ensures !c.lineGradientsEnabled ==> forall k :: 0 <= k < |r| ==> r[k].Radial?
    ensures forall k :: 0 <= k < |r| ==> r[k].stops == stops
    ensures c.radialGradientsEnabled && LineDrawn(c) ==> r == [RadialLayer(c, b, stops), LineLayer(c, b, stops).value]
    ensures c.radialGradientsEnabled && !LineDrawn(c) ==> r == [RadialLayer(c, b, stops)]
    ensures !c.radialGradientsEnabled && LineDrawn(c) ==> r == [LineLayer(c, b, stops).value]
    ensures !c.radialGradientsEnabled && !LineDrawn(c) ==> r == []
  {
    (if c.radialGradientsEnabled then [RadialLayer(c, b, stops)] else [])
    + (if c.lineGradientsEnabled then
         match LineLayer(c, b, stops) case None => [] case Some(l) => [l]
       else [])
  }

  /** The layers of all blobs, in blob order, each blob's radial gradient
      before its line gradient. With both kinds drawn, layers `2i` and
      `2i + 1` are blob `i`'s; with one kind, layer `i` is blob `i`'s; with
      neither, nothing is drawn. */
  function AllLayers(v: Version, c: Config, bs: seq<Blob>, numText: real -> string): (r: seq<Layer>)
    ensures !c.radialGradientsEnabled && !LineDrawn(c) ==> r == []
    ensures c.radialGradientsEnabled && !LineDrawn(c) ==>
      |r| == |bs| && forall i :: 0 <= i < |bs| ==> r[i] == RadialLayer(c, bs[i], BlobStops(v, c, bs[i], numText))
    ensures !c.radialGradientsEnabled && LineDrawn(c) ==>
      |r| == |bs| && forall i :: 0 <= i < |bs| ==> Some(r[i]) == LineLayer(c, bs[i], BlobStops(v, c, bs[i], numText))
    ensures c.radialGradientsEnabled && LineDrawn(c) ==>
      |r| == 2 * |bs| && forall i :: 0 <= i < |bs| ==>
        && r[2 * i] == RadialLayer(c, bs[i], BlobStops(v, c, bs[i], numText))
        && Some(r[2 * i + 1]) == LineLayer(c, bs[i], BlobStops(v, c, bs[i], numText))
    ensures |r| <= 2 * |bs|
  {
    if bs == [] then []
    else
      var tail := AllLayers(v, c, bs[1..], numText);
      var radial := b => RadialLayer(c, b, BlobStops(v, c, b, numText));
      var line := b => LineLayer(c, b, BlobStops(v, c, b, numText));
      var head := BlobLayers(c, bs[0], BlobStops(v, c, bs[0], numText));
      if c.radialGradientsEnabled && LineDrawn(c) then
        InterleavedCons(bs, radial, line, tail);
        head + tail
      else if c.radialGradientsEnabled then
        OnePerItemCons(bs, b => Some(radial(b)), tail);
        head + tail
      else if LineDrawn(c) then
        OnePerItemCons(bs, line, tail);
        head + tail
      else
        head + tail
  }

  /** Two items per element, the first `f` of it and the second `g` of it:
      putting an element's pair in front of the rest's keeps the pattern. */
  lemma InterleavedCons<B, T>(bs: seq<B>, f: B -> T, g: B -> Option<T>, tail: seq<T>)
    requires bs != [] && g(bs[0]).Some?
    requires |tail| == 2 * (|bs| - 1)
    requires forall i :: 0 <= i < |bs| - 1 ==> tail[2 * i] == f(bs[1..][i]) && Some(tail[2 * i + 1]) == g(bs[1..][i])
    ensures var r := [f(bs[0]), g(bs[0]).value] + tail;
      |r| == 2 * |bs| && forall i :: 0 <= i < |bs| ==> r[2 * i] == f(bs[i]) && Some(r[2 * i + 1]) == g(bs[i])
  {
    var r := [f(bs[0]), g(bs[0]).value] + tail;
    forall i | 0 < i < |bs|
      ensures r[2 * i] == f(bs[i]) && Some(r[2 * i + 1]) == g(bs[i])
    {
      assert bs[i] == bs[1..][i - 1];
      assert r[2 * i] == tail[2 * (i - 1)] && r[2 * i + 1] == tail[2 * (i - 1) + 1];
    }
  }

  /** One item per element, `f` of it: putting an element's item in front
      of the rest's keeps the pattern. */
  lemma OnePerItemCons<B, T>(bs: seq<B>, f: B -> Option<T>, tail: seq<T>)
    requires bs != [] && f(bs[0]).Some?
    requires |tail| == |bs| - 1
    requires forall i :: 0 <= i < |bs| - 1 ==> Some(tail[i]) == f(bs[1..][i])
    ensures var r := [f(bs[0]).value] + tail;
      |r| == |bs| && forall i :: 0 <= i < |bs| ==> Some(r[i]) == f(bs[i])
  {
    var r := [f(bs[0]).value] + tail;
    forall i | 0 < i < |bs|
      ensures Some(r[i]) == f(bs[i])
    {
      assert bs[i] == bs[1..][i - 1];
      assert r[i] == tail[i - 1];
    }
  }

  /** A layer with its stops taken away: where and how large it is drawn. */
  function Shape(l: Layer): Layer {
    l.(stops := [])
  }

  /** Two layer lists that draw the same shapes in the same order. */
  predicate SameShapes(p: seq<Layer>, q: seq<Layer>) {
    |p| == |q| && forall k :: 0 <= k < |p| ==> Shape(p[k]) == Shape(q[k])
  }

  lemma SameShapesConcat(p0: seq<Layer>, p1: seq<Layer>, q0: seq<Layer>, q1: seq<Layer>)
    requires SameShapes(p0, q0) && SameShapes(p1, q1)
    ensures SameShapes(p0 + p1, q0 + q1)
  {
    forall k | 0 <= k < |p0 + p1|
      ensures Shape((p0 + p1)[k]) == Shape((q0 + q1)[k])
    {
      if k < |p0| {
        assert (p0 + p1)[k] == p0[k] && (q0 + q1)[k] == q0[k];
      } else {
        assert (p0 + p1)[k] == p1[k - |p0|] && (q0 + q1)[k] == q1[k - |q0|];
      }
    }
  }

  /** A blob's shapes do not depend on its stops. */
  lemma BlobShapes(c: Config, b: Blob, s: seq<Stop>, t: seq<Stop>)
    ensures SameShapes(BlobLayers(c, b, s), BlobLayers(c, b, t))
  {
    var p, q := BlobLayers(c, b, s), BlobLayers(c, b, t);
    if c.radialGradientsEnabled {
      assert p[0] == RadialLayer(c, b, s) && q[0] == RadialLayer(c, b, t);
    }
    if c.lineGradientsEnabled && LineLayer(c, b, s).Some? {
      assert p[|p| - 1] == LineLayer(c, b, s).value && q[|q| - 1] == LineLayer(c, b, t).value;
    }
  }

  /** Both versions draw the same shapes in the same order; only the
      stops can differ. */
  lemma {:induction false} LayersDifferOnlyInStops(c: Config, bs: seq<Blob>, numText: real -> string)
    ensures SameShapes(AllLayers(AsWritten, c, bs, numText), AllLayers(Corrected, c, bs, numText))
  {
    if bs != [] {
      var s, t := BlobStops(AsWritten, c, bs[0], numText), BlobStops(Corrected, c, bs[0], numText);
      LayersDifferOnlyInStops(c, bs[1..], numText);
      BlobShapes(c, bs[0], s, t);
      SameShapesConcat(BlobLayers(c, bs[0], s), AllLayers(AsWritten, c, bs[1..], numText),
        BlobLayers(c, bs[0], t), AllLayers(Corrected, c, bs[1..], numText));
    }
  }

  lemma PlainLayersAgree(c: Config, bs: seq<Blob>, numText: real -> string)
    ensures IsNumberText(numText) && (forall i :: 0 <= i < |bs| ==> PlainColor(bs[i].color)) ==>
      AllLayers(AsWritten, c, bs, numText) == AllLayers(Corrected, c, bs, numText)
  {
    if IsNumberText(numText) && (forall i :: 0 <= i < |bs| ==> PlainColor(bs[i].color)) {
      LayersAgreeOnPlainColors(c, bs, numText);
    }
  }

  /** Colours the source's pattern handles as meant: literal colours and
      hsl colours with whole-number components. */
  predicate PlainColor(c: Color) {
    c.Literal? || (IsPlainNat(c.h) && IsPlainNat(c.s) && IsPlainNat(c.l))
  }

  /** When every blob's colour is plain, the corrected layers are the
      source's layers. */
  lemma {:induction false} LayersAgreeOnPlainColors(c: Config, bs: seq<Blob>, numText: real -> string)
    requires IsNumberText(numText)
    requires forall i :: 0 <= i < |bs| ==> PlainColor(bs[i].color)
    ensures AllLayers(AsWritten, c, bs, numText) == AllLayers(Corrected, c, bs, numText)
  {
    if bs != [] {
      var b := bs[0];
      if b.color.Hsl? {
        StopsFixedAgrees(b.color.h, b.color.s, b.color.l, b.opacity, c.gradientFade, numText);
      }
      assert BlobStops(AsWritten, c, b, numText) == BlobStops(Corrected, c, b, numText);
      LayersAgreeOnPlainColors(c, bs[1..], numText);
    }
  }

  // -------------------------------------------------------------- filters

  /** One entry of the CSS filter list of `applyFilters`. */
  datatype Filter = Brightness(percent: real) | Contrast(percent: real)
    | Saturate(percent: real) | HueRotate(degrees: real)

  /** The place of each kind of filter in the chain. */
  function Rank(f: Filter): nat {
    match f
    case Brightness(_) => 0
    case Contrast(_) => 1
    case Saturate(_) => 2
    case HueRotate(_) => 3
  }

  /** `applyFilters`: a filter for each of brightness, contrast and
      saturation away from 100%, then a hue rotation by the static plus the
      animated hue when that sum is not zero, in that order. */
  function Filters(c: Config): (r: seq<Filter>)
    ensures Filter.Brightness(c.brightness) in r <==> c.brightness != 100.0
    ensures Filter.Contrast(c.contrast) in r <==> c.contrast != 100.0
    ensures Filter.Saturate(c.saturation) in r <==> c.saturation != 100.0
    ensures Filter.HueRotate(c.hue + c.animatedHue) in r <==> c.hue + c.animatedHue != 0.0
    ensures |r| == (if c.brightness != 100.0 then 1 else 0) + (if c.contrast != 100.0 then 1 else 0)
      + (if c.saturation != 100.0 then 1 else 0) + (if c.hue + c.animatedHue != 0.0 then 1 else 0)
    ensures forall a, b :: 0 <= a < b < |r| ==> Rank(r[a]) < Rank(r[b])
  {
    (if c.brightness != 100.0 then [Filter.Brightness(c.brightness)] else [])
    + (if c.contrast != 100.0 then [Filter.Contrast(c.contrast)] else [])
    + (if c.saturation != 100.0 then [Filter.Saturate(c.saturation)] else [])
    + (var total := c.hue + c.animatedHue; if total != 0.0 then [Filter.HueRotate(total)] else [])
  }

  function FilterText(f: Filter, numText: real -> string): (r: string)
    ensures r != [] && r[0] != 'n'
  {
    match f
    case Brightness(p) => "brightness(" + numText(p) + "%)"
    case Contrast(p) => "contrast(" + numText(p) + "%)"
    case Saturate(p) => "saturate(" + numText(p) + "%)"
    case HueRotate(d) => "hue-rotate(" + numText(d) + "deg)"
  }

  function JoinFilters(fs: seq<Filter>, numText: real -> string): (r: string)
    requires fs != []
    ensures r != [] && r[0] != 'n'
  {
    if |fs| == 1 then FilterText(fs[0], numText)
    else FilterText(fs[0], numText) + " " + JoinFilters(fs[1..], numText)
  }

  /** `filter.join(' ') || 'none'`: the canvas's CSS filter, which is
      `none` exactly when no filter applies. */
  function FilterCss(c: Config, numText: real -> string): (r: string)
    ensures r == "none" <==> Filters(c) == []
  {
    var fs := Filters(c);
    if fs == [] then "none" else JoinFilters(fs, numText)
  }

  // ---------------------------------------------------------------- frame

  /** Everything one `draw` call produces. */
  datatype Picture = Picture(
    background: string, blend: string, blur: Option<real>,
    layers: seq<Layer>, fade: Option<real>, filter: string)

  /** `draw()` followed by `applyFilters()`, as written: the layers carry
      the stops the source's pattern picks. */
  function Frame(c: Config, bs: seq<Blob>, numText: real -> string): (p: Picture)
    ensures p.background == c.backgroundColor && p.blend == c.blendMode
    ensures p.blur.Some? <==> c.blur > 0.0
    ensures p.fade.Some? <==> ShouldFadeout(c)
    ensures p.layers == AllLayers(AsWritten, c, bs, numText)
    ensures p.filter == "none" <==> Filters(c) == []
  {
    Picture(c.backgroundColor, c.blendMode, if c.blur > 0.0 then Some(c.blur) else None,
      AllLayers(AsWritten, c, bs, numText), FadeAlpha(c), FilterCss(c, numText))
  }

  /** The picture with the corrected stops: the same in everything but the
      stops, and the same picture outright when every colour is plain. */
  function FrameFixed(c: Config, bs: seq<Blob>, numText: real -> string): (p: Picture)
    ensures p == Frame(c, bs, numText).(layers := p.layers)
    ensures SameShapes(p.layers, Frame(c, bs, numText).layers)
    ensures IsNumberText(numText) && (forall i :: 0 <= i < |bs| ==> PlainColor(bs[i].color)) ==>
      p == Frame(c, bs, numText)
  {
    LayersDifferOnlyInStops(c, bs, numText);
    PlainLayersAgree(c, bs, numText);
    Frame(c, bs, numText).(layers := AllLayers(Corrected, c, bs, numText))
  }

  /** The drawn picture loses a blob's opacity: a blob coloured
      `hsl(200.5, 80%, 35%)` is drawn with two stops, where the corrected
      picture has the three `hsla` stops. */
  lemma HalfDegreeFrameExample(c: Config, b: Blob, numText: real -> string)
    requires IsNumberText(numText) && c.radialGradientsEnabled && b.color == Hsl(200.5, 80.0, 35.0)
    ensures |Frame(c, [b], numText).layers[0].stops| == 2
    ensures |FrameFixed(c, [b], numText).layers[0].stops| == 3
  {
    HalfDegreeHueExample(numText);
    FractionalHueIgnoresOpacity(200.5, 80.0, 35.0, b.opacity, 0.3, c.gradientFade, 0.5, numText);
    assert AllLayers(AsWritten, c, [b], numText)[0] == RadialLayer(c, b, BlobStops(AsWritten, c, b, numText));
    assert AllLayers(Corrected, c, [b], numText)[0] == RadialLayer(c, b, BlobStops(Corrected, c, b, numText));
  }
}
