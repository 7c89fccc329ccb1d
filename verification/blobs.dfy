/** Spawning the blobs: `createGradients` and `generateColor`
    (canvas-animation.js:80-126). `Math.random()` is a parameter: each
    blob reads its values from a `Draw`. */
module Blobs {
  import opened JsMath
  import opened Settings
  import opened Colors

  /** A `Math.random()` value. */
  type Unit = r: real | 0.0 <= r < 1.0

  /** The `Math.random()` values one blob consumes when it is created. */
  datatype Draw = Draw(
    x: Unit, y: Unit, radius: Unit, vx: Unit, vy: Unit,
    hue: Unit, saturation: Unit, lightness: Unit, opacity: Unit, phase: Unit)

  /** One entry of `this.gradients`. */
  datatype Blob = Blob(
    x: real, y: real, radius: real, vx: real, vy: real,
    color: Color, opacity: real, phase: real, baseIndex: nat)

  /** `devicePixelRatio || 1`: a ratio of 0 is falsy and gives 1. */
  function PixelRatio(dpr: real): real {
    if dpr == 0.0 then 1.0 else dpr
  }

  /** The canvas backing store in device pixels, and `devicePixelRatio`. */
  datatype Canvas = Canvas(width: real, height: real, dpr: real) {

    /** `window.devicePixelRatio || 1`. */
    function Ratio(): real {
      PixelRatio(dpr)
    }

    /** The drawing size in CSS pixels, `canvas.width / dpr`. */
    function CssWidth(): real {
      width / Ratio()
    }

    function CssHeight(): real {
      height / Ratio()
    }
  }

  /** The largest value an `unsigned long` attribute keeps when reflected. */
  const MaxAttribute: nat := 0x7FFF_FFFF

  /** What a canvas's `width` or `height` holds after a number is assigned
      to it. Web IDL converts the number to `unsigned long`: it drops the
      fraction (toward zero) and reduces the rest modulo 2^32. HTML then
      keeps a result of at most 2^31 - 1 and otherwise stores the
      attribute's default (300 for `width`, 150 for `height`). */
  function AttributeSize(x: real, default: nat): (n: nat)
    requires default <= MaxAttribute
    ensures n <= MaxAttribute
    ensures 0.0 <= x < MaxAttribute as real + 1.0 ==> n as real <= x < n as real + 1.0
    ensures MaxAttribute as real + 1.0 <= x < 4294967296.0 ==> n == default
  {
    var k := Trunc(x) % 0x1_0000_0000;
    if k <= MaxAttribute then k else default
  }

  /** How many times `for (let i = 0; i < count; i++)` runs: the least
      natural number that is not below `count`. */
  function BlobCount(count: real): (n: nat)
    ensures count <= n as real
    ensures n > 0 ==> (n - 1) as real < count
  {
    if count <= 0.0 then 0 else Ceil(count)
  }

  /** Palette mode with a non-empty palette; otherwise colours come from
      the hue range. */
  predicate PaletteMode(c: Config) {
    c.colorMode == "palette" && |c.paletteColors| > 0
  }

  /** The part of the hue range the blobs spread over. */
  function SeparationRange(c: Config): real {
    (c.hueEnd - c.hueStart) * (c.hueSeparation / 100.0)
  }

  /** Evenly spaced hues apply only with more than one blob. */
  predicate EvenlySpaced(c: Config) {
    c.evenlySpacedColors && c.gradientCount > 1.0
  }

  function Spacing(c: Config): real
    requires EvenlySpaced(c)
  {
    SeparationRange(c) / (c.gradientCount - 1.0)
  }

  /** `generateColor(index)`. */
  function GenerateColor(c: Config, index: nat, d: Draw): (r: Color)
    ensures PaletteMode(c) ==> r.Literal? && r.text in c.paletteColors
    ensures !PaletteMode(c) ==> r.Hsl?
    ensures !PaletteMode(c) ==> Min(c.saturationMin, c.saturationMax) <= r.s <= Max(c.saturationMin, c.saturationMax)
    ensures !PaletteMode(c) ==> Min(c.lightnessMin, c.lightnessMax) <= r.l <= Max(c.lightnessMin, c.lightnessMax)
    ensures !PaletteMode(c) && !EvenlySpaced(c) ==>
      Min(c.hueStart, c.hueStart + SeparationRange(c)) <= r.h <= Max(c.hueStart, c.hueStart + SeparationRange(c))
  {
    if PaletteMode(c) then
      Literal(c.paletteColors[index % |c.paletteColors|])
    else
      var hue :=
        if EvenlySpaced(c) then c.hueStart + index as real * Spacing(c)
        else Lerp(c.hueStart, c.hueStart + SeparationRange(c), d.hue);
      Hsl(hue, Lerp(c.saturationMin, c.saturationMax, d.saturation),
        Lerp(c.lightnessMin, c.lightnessMax, d.lightness))
  }

  /** The `baseRadiusMultiplier` of `createGradients`. */
  function BaseMultiplier(c: Config): real {
    if c.gradientSizeMode == "base" then c.gradientSizeMultiplier else 1.0
  }

  /** `Math.random() * extent`: a point of [0, extent]. */
  function Spread(u: Unit, extent: real): (r: real)
    ensures 0.0 <= extent ==> 0.0 <= r <= extent
  {
    ScaleUnit(u, extent);
    u * extent
  }

  /** `(200 + Math.random() * 400) * baseRadiusMultiplier`. */
  function BlobRadius(c: Config, u: Unit): (r: real)
    ensures 0.0 <= BaseMultiplier(c) ==>
      200.0 * BaseMultiplier(c) <= r <= 600.0 * BaseMultiplier(c)
    ensures 0.0 < BaseMultiplier(c) ==> r < 600.0 * BaseMultiplier(c)
    ensures c.gradientSizeMode != "base" ==> 200.0 <= r < 600.0
  {
    var base := 200.0 + u * 400.0;
    RadiusBounds(base, BaseMultiplier(c), base * BaseMultiplier(c));
    base * BaseMultiplier(c)
  }

  lemma RadiusBounds(base: real, m: real, r: real)
    requires 200.0 <= base < 600.0 && r == base * m
    ensures 0.0 <= m ==> 200.0 * m <= r <= 600.0 * m
    ensures 0.0 < m ==> r < 600.0 * m
  {
    if 0.0 < m {
      MulLeMono(m, 200.0, base);
      MulLtMono(m, base, 600.0);
    }
  }

  /** The blob `createGradients` pushes at index `i`. */
  function NewBlob(c: Config, canvas: Canvas, i: nat, d: Draw): (b: Blob)
    ensures b.baseIndex == i
    ensures 0.3 <= b.opacity < 0.7
    ensures 0.0 <= b.phase < 2.0 * Pi
    ensures -0.25 <= b.vx < 0.25 && -0.25 <= b.vy < 0.25
    ensures 0.0 <= canvas.width ==> 0.0 <= b.x <= canvas.width
    ensures 0.0 <= canvas.height ==> 0.0 <= b.y <= canvas.height
    ensures 0.0 <= BaseMultiplier(c) ==>
      200.0 * BaseMultiplier(c) <= b.radius <= 600.0 * BaseMultiplier(c)
    ensures 0.0 < BaseMultiplier(c) ==> b.radius < 600.0 * BaseMultiplier(c)
    ensures c.gradientSizeMode != "base" ==> 200.0 <= b.radius < 600.0
    ensures b.color == GenerateColor(c, i, d)
  {
    Blob(
      x := Spread(d.x, canvas.width),
      y := Spread(d.y, canvas.height),
      radius := BlobRadius(c, d.radius),
      vx := (d.vx - 0.5) * 0.5,
      vy := (d.vy - 0.5) * 0.5,
      color := GenerateColor(c, i, d),
      opacity := 0.3 + d.opacity * 0.4,
      phase := d.phase * Pi * 2.0,
      baseIndex := i)
  }

  /** `createGradients()`: a fresh list of blobs, the `i`-th made from the
      `i`-th draw. */
  function CreateGradients(c: Config, canvas: Canvas, rng: nat -> Draw): (r: seq<Blob>)
    ensures |r| == BlobCount(c.gradientCount)
    ensures forall i :: 0 <= i < |r| ==> r[i] == NewBlob(c, canvas, i, rng(i))
  {
    seq(BlobCount(c.gradientCount), i requires 0 <= i => NewBlob(c, canvas, i, rng(i)))
  }

  // ------------------------------------------------------------ properties

  lemma {:induction false} ModShift(i: nat, p: nat)
    requires 0 < p
    ensures (i + p) % p == i % p
  {
    var q, m := i / p, i % p;
    assert i == q * p + m && 0 <= m < p;
    assert i + p == (q + 1) * p + m;
    DivModUnique(i + p, p, q + 1, m);
  }

  lemma DivModUnique(n: nat, p: nat, q: int, m: int)
    requires 0 < p && n == q * p + m && 0 <= m < p
    ensures n % p == m
  {
    var q', m' := n / p, n % p;
    assert n == q' * p + m';
    assert (q - q') * p == m' - m;
    if q > q' {
      MulAtLeast(q - q', p);
    } else if q < q' {
      MulAtLeast(q' - q, p);
    }
  }

  lemma MulAtLeast(k: int, p: nat)
    requires 1 <= k
    ensures p <= k * p
  {
    assert k * p == p + (k - 1) * p;
  }

  /** In palette mode the colours cycle through the palette: blobs one
      palette length apart get the same colour. */
  lemma PaletteCycles(c: Config, canvas: Canvas, rng: nat -> Draw, i: nat)
    requires PaletteMode(c)
    requires i + |c.paletteColors| < BlobCount(c.gradientCount)
    ensures var r := CreateGradients(c, canvas, rng);
      r[i].color == r[i + |c.paletteColors|].color
  {
    ModShift(i, |c.paletteColors|);
  }

  /** Blob `i`'s colour in palette mode is palette entry `i` modulo the
      palette length. */
  lemma PaletteEntry(c: Config, canvas: Canvas, rng: nat -> Draw, i: nat)
    requires PaletteMode(c) && i < BlobCount(c.gradientCount)
    ensures CreateGradients(c, canvas, rng)[i].color
      == Literal(c.paletteColors[i % |c.paletteColors|])
  {
  }

  lemma {:induction false} StepDifference(a: real, i: real, sp: real)
    ensures (a + (i + 1.0) * sp) - (a + i * sp) == sp
  {
    assert (i + 1.0) * sp == i * sp + sp;
  }

  /** With evenly spaced hues, neighbouring blobs differ in hue by exactly
      the spacing, the first blob sits at `hueStart`. */
  lemma EvenHuesStep(c: Config, canvas: Canvas, rng: nat -> Draw, i: nat)
    requires !PaletteMode(c) && EvenlySpaced(c)
    requires i + 1 < BlobCount(c.gradientCount)
    ensures var r := CreateGradients(c, canvas, rng);
      r[0].color.h == c.hueStart && r[i + 1].color.h - r[i].color.h == Spacing(c)
  {
    StepDifference(c.hueStart, i as real, Spacing(c));
  }

  lemma {:induction false} SpanIdentity(n: real, range: real)
    requires n > 1.0
    ensures (n - 1.0) * (range / (n - 1.0)) == range
  {
  }

  /** With evenly spaced hues and a whole number of blobs, the last blob's
      hue is `hueStart` plus the separation range: at 100% separation, the
      blobs run from `hueStart` to `hueEnd`. */
  lemma EvenHuesSpan(c: Config, canvas: Canvas, rng: nat -> Draw)
    requires !PaletteMode(c) && EvenlySpaced(c)
    requires c.gradientCount == c.gradientCount.Floor as real
    ensures var r := CreateGradients(c, canvas, rng);
      r[|r| - 1].color.h == c.hueStart + SeparationRange(c)
    ensures c.hueSeparation == 100.0 ==>
      var r := CreateGradients(c, canvas, rng); r[|r| - 1].color.h == c.hueEnd
  {
    var n := BlobCount(c.gradientCount);
    assert n as real == c.gradientCount;
    SpanIdentity(c.gradientCount, SeparationRange(c));
    assert (n - 1) as real == c.gradientCount - 1.0;
  }

  /** With the constructor's settings, the five blobs take the hues 200,
      220, 240, 260 and 280. */
  lemma DefaultHues(canvas: Canvas, rng: nat -> Draw)
    ensures var r := CreateGradients(Defaults(), canvas, rng);
      |r| == 5 && forall i :: 0 <= i < 5 ==> r[i].color.h == 200.0 + 20.0 * i as real
  {
    var c := Defaults();
    assert BlobCount(c.gradientCount) == 5;
    assert Spacing(c) == 20.0;
  }
}
