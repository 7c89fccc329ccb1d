/** The `GradientAnimation` object over time: sizing the canvas (`resize`,
    canvas-animation.js:67-78), starting up (3-65), one animation frame
    (`animate`, 419-432) and a settings change (`updateSetting`, 434-461).
    The clock `Date.now()` is a parameter. */
module Animation {
  import opened JsMath
  import opened Text
  import opened Settings
  import opened Colors
  import opened Blobs
  import opened Motion
  import opened Compositor

  /** `this.speed`: how far `this.time` advances per frame. */
  const Speed: real := 0.0005

  /** The engine's state between frames. */
  datatype Engine = Engine(settings: Config, blobs: seq<Blob>, time: real, fadeoutLastTime: real)

  /** `resize()`: a backing store of the viewport's size in device pixels;
      the viewport is the larger of the document's and the window's size. */
  function Resize(clientWidth: real, innerWidth: real, clientHeight: real, innerHeight: real,
                  dpr: real): (r: Canvas)
    ensures r.dpr == dpr && r.Ratio() == (if dpr == 0.0 then 1.0 else dpr)
    ensures r.width == DevicePixels(Max(clientWidth, innerWidth), dpr, 300) as real
    ensures r.height == DevicePixels(Max(clientHeight, innerHeight), dpr, 150) as real
  {
    Canvas(DevicePixels(Max(clientWidth, innerWidth), dpr, 300) as real,
      DevicePixels(Max(clientHeight, innerHeight), dpr, 150) as real, dpr)
  }

  /** `canvas.width = css * dpr` (or `height`): the attribute keeps a whole
      number of device pixels. Read back in CSS pixels it is at most `css`
      and short of it by less than one device pixel, `1 / ratio` CSS
      pixels, as long as the product fits the attribute's range. */
  function DevicePixels(css: real, dpr: real, default: nat): (n: nat)
    requires default <= MaxAttribute
    ensures n <= MaxAttribute
    ensures 0.0 < PixelRatio(dpr) && 0.0 <= css * PixelRatio(dpr) <= MaxAttribute as real ==>
      n as real / PixelRatio(dpr) <= css < n as real / PixelRatio(dpr) + 1.0 / PixelRatio(dpr)
  {
    var n := AttributeSize(css * PixelRatio(dpr), default);
    CssWithin(css, PixelRatio(dpr), n as real);
    n
  }

  /** After `resize()`, the drawing width in CSS pixels is at most the
      viewport's and falls short of it by less than one device pixel, as
      long as the backing store fits the attribute's range. */
  lemma ResizeFitsWidth(clientWidth: real, innerWidth: real, clientHeight: real, innerHeight: real,
                        dpr: real)
    requires 0.0 < PixelRatio(dpr) && 0.0 <= Max(clientWidth, innerWidth) * PixelRatio(dpr) <= MaxAttribute as real
    ensures var r := Resize(clientWidth, innerWidth, clientHeight, innerHeight, dpr);
      r.CssWidth() <= Max(clientWidth, innerWidth) < r.CssWidth() + 1.0 / r.Ratio()
  {
  }

  /** The same for the height. */
  lemma ResizeFitsHeight(clientWidth: real, innerWidth: real, clientHeight: real, innerHeight: real,
                         dpr: real)
    requires 0.0 < PixelRatio(dpr) && 0.0 <= Max(clientHeight, innerHeight) * PixelRatio(dpr) <= MaxAttribute as real
    ensures var r := Resize(clientWidth, innerWidth, clientHeight, innerHeight, dpr);
      r.CssHeight() <= Max(clientHeight, innerHeight) < r.CssHeight() + 1.0 / r.Ratio()
  {
  }

  /** A whole number `w` of device pixels within one pixel below
      `x * ratio`, read back in CSS pixels, is at most `x` and within
      `1 / ratio` of it. */
  lemma CssWithin(x: real, ratio: real, w: real)
    ensures 0.0 < ratio && w <= x * ratio < w + 1.0 ==> w / ratio <= x < w / ratio + 1.0 / ratio
  {
    if 0.0 < ratio && w <= x * ratio < w + 1.0 {
      assert w == ratio * (w / ratio);
      assert w + 1.0 == ratio * (w / ratio + 1.0 / ratio);
      MulLeMono(ratio, w / ratio, x);
      MulLtMono(ratio, x, w / ratio + 1.0 / ratio);
    }
  }

  /** A laptop screen 1366 CSS pixels wide at 125% zoom: the backing store
      is 1707 pixels wide, not 1707.5, so the drawing area is 1365.6 CSS
      pixels wide rather than 1366. */
  lemma ResizeExample()
    ensures Resize(1366.0, 1366.0, 768.0, 768.0, 1.25).width == 1707.0
    ensures Resize(1366.0, 1366.0, 768.0, 768.0, 1.25).CssWidth() == 1365.6
  {
    assert Trunc(1707.5) == 1707;
  }

  /** The engine after its constructor has run `createGradients`, just
      before the first frame, which the constructor runs at once. */
  function Start(canvas: Canvas, rng: nat -> Draw, now: real): (e: Engine)
    ensures e.settings == Defaults() && e.time == 0.0 && e.fadeoutLastTime == now
    ensures |e.blobs| == 5
    ensures forall i :: 0 <= i < 5 ==>
      (e.blobs[i].color.Hsl? && e.blobs[i].color.h == 200.0 + 20.0 * i as real)
  {
    DefaultHues(canvas, rng);
    Engine(Defaults(), CreateGradients(Defaults(), canvas, rng), 0.0, now)
  }

  // ------------------------------------------------------------ animate

  /** `animatedHue` after one frame: with a positive rotation speed it
      advances by `speed * 360 / 60` degrees and is reduced by JavaScript's
      `% 360`, so it stays in [0, 360) when it starts there; otherwise it is
      left alone. */
  function NextHue(c: Config): (r: real)
    ensures c.hueRotationSpeed <= 0.0 ==> r == c.animatedHue
    ensures 0.0 < c.hueRotationSpeed && 0.0 <= c.animatedHue ==> 0.0 <= r < 360.0
    ensures 0.0 < c.hueRotationSpeed ==> WholeTurns(c.animatedHue + c.hueRotationSpeed * 6.0 - r)
  {
    if 0.0 < c.hueRotationSpeed then
      var a := c.animatedHue + c.hueRotationSpeed * 360.0 / 60.0;
      RemTurns(a);
      Rem(a, 360.0)
    else c.animatedHue
  }

  /** The state half of `animate()`: advance the clock, rotate the hue,
      move and recolour the blobs. */
  function Step(e: Engine, canvas: Canvas, env: Env): (r: Engine)
    requires IsWave(env.sin) && IsWave(env.cos)
    ensures r.time == e.time + Speed
    ensures r.settings == e.settings.(animatedHue := NextHue(e.settings))
    ensures r.fadeoutLastTime == e.fadeoutLastTime
    ensures |r.blobs| == |e.blobs|
  {
    var time := e.time + Speed;
    var settings := e.settings.(animatedHue := NextHue(e.settings));
    Engine(settings, UpdateGradients(settings, canvas, e.blobs, time, env), time, e.fadeoutLastTime)
  }

  /** `animate()`: one frame's new state and the picture drawn from it.
      The clock and the hue advance first; the blobs are recoloured under
      the new clock and hue; the picture carries the advanced hue in its
      filter and the blobs' new positions in its layers. */
  function Animate(e: Engine, canvas: Canvas, env: Env, numText: real -> string): (r: (Engine, Picture))
    requires IsWave(env.sin) && IsWave(env.cos)
    ensures r.0.time == e.time + Speed && r.0.fadeoutLastTime == e.fadeoutLastTime
    ensures r.0.settings == e.settings.(animatedHue := NextHue(e.settings))
    ensures |r.0.blobs| == |e.blobs|
    ensures forall i :: 0 <= i < |e.blobs| ==>
      r.0.blobs[i].color == FrameColor(r.0.settings, e.blobs[i], i, e.time + Speed, env)
    ensures r.1.background == e.settings.backgroundColor && r.1.blend == e.settings.blendMode
    ensures r.1.fade.Some? <==> ShouldFadeout(e.settings)
    ensures r.1.filter == "none" <==>
      (&& e.settings.brightness == 100.0 && e.settings.contrast == 100.0
       && e.settings.saturation == 100.0 && e.settings.hue + NextHue(e.settings) == 0.0)
    ensures e.settings.radialGradientsEnabled && !e.settings.lineGradientsEnabled ==>
      |r.1.layers| == |e.blobs| && forall i :: 0 <= i < |e.blobs| ==>
        r.1.layers[i].Radial? && r.1.layers[i].x == r.0.blobs[i].x && r.1.layers[i].y == r.0.blobs[i].y
  {
    var next := Step(e, canvas, env);
    (next, Frame(next.settings, next.blobs, numText))
  }

  /** What the constructor leaves: the started engine after the first
      frame, which `init` runs at once. The clock has made one step; with
      the default rotation speed of 0 the settings are the defaults; blob
      `i` is drawn at hue 200 + 20i, swung by at most 20 degrees. */
  function Construct(canvas: Canvas, rng: nat -> Draw, now: real, env: Env, numText: real -> string)
    : (r: (Engine, Picture))
    requires IsWave(env.sin) && IsWave(env.cos)
    ensures r.0.time == Speed && r.0.settings == Defaults() && r.0.fadeoutLastTime == now
    ensures |r.0.blobs| == 5
    ensures forall i :: 0 <= i < 5 ==>
      && r.0.blobs[i].color.Hsl?
      && 180.0 + 20.0 * i as real <= r.0.blobs[i].color.h <= 220.0 + 20.0 * i as real
  {
    FirstFrame(canvas, rng, now, env);
    Animate(Start(canvas, rng, now), canvas, env, numText)
  }

  lemma FirstFrame(canvas: Canvas, rng: nat -> Draw, now: real, env: Env)
    requires IsWave(env.sin) && IsWave(env.cos)
    ensures var r := Step(Start(canvas, rng, now), canvas, env);
      && r.time == Speed && r.settings == Defaults() && |r.blobs| == 5
      && forall i :: 0 <= i < 5 ==>
        && r.blobs[i].color.Hsl?
        && 180.0 + 20.0 * i as real <= r.blobs[i].color.h <= 220.0 + 20.0 * i as real
  {
    var e := Start(canvas, rng, now);
    var r := Step(e, canvas, env);
    assert NextHue(e.settings) == e.settings.animatedHue;
    forall i | 0 <= i < 5
      ensures r.blobs[i].color.Hsl?
      ensures 180.0 + 20.0 * i as real <= r.blobs[i].color.h <= 220.0 + 20.0 * i as real
    {
      assert r.blobs[i].color == FrameColor(Defaults(), e.blobs[i], i, Speed, env);
      FirstFrameHue(e.blobs[i], i, env);
    }
  }

  /** Blob `i` of the started engine, coloured at the first frame's clock. */
  lemma FirstFrameHue(b: Blob, i: nat, env: Env)
    requires IsWave(env.sin) && i < 5 && b.baseIndex == i
    ensures var h := FrameColor(Defaults(), b, i, Speed, env).h;
      180.0 + 20.0 * i as real <= h <= 220.0 + 20.0 * i as real
  {
    var c := Defaults();
    assert !PaletteMode(c) && EvenlySpaced(c) && Spacing(c) == 20.0;
    var base := BaseHue(c, b, i, Speed, env);
    assert 180.0 + 20.0 * i as real <= base <= 220.0 + 20.0 * i as real;
  }

  /** The engine after `n` frames. */
  function Run(e: Engine, n: nat, canvas: Canvas, env: Env): Engine
    requires IsWave(env.sin) && IsWave(env.cos)
    decreases n
  {
    if n == 0 then e else Run(Step(e, canvas, env), n - 1, canvas, env)
  }

  /** Frames change nothing of the settings but the animated hue, which
      stays in [0, 360) once it is there; the clock advances by `Speed`
      per frame and the number of blobs is fixed. */
  lemma {:induction false} RunInvariant(e: Engine, n: nat, canvas: Canvas, env: Env)
    requires IsWave(env.sin) && IsWave(env.cos)
    requires 0.0 <= e.settings.animatedHue < 360.0
    decreases n
    ensures var r := Run(e, n, canvas, env);
      && 0.0 <= r.settings.animatedHue < 360.0
      && r.settings == e.settings.(animatedHue := r.settings.animatedHue)
      && r.time == e.time + n as real * Speed
      && |r.blobs| == |e.blobs|
      && r.fadeoutLastTime == e.fadeoutLastTime
  {
    if n > 0 {
      var next := Step(e, canvas, env);
      RunInvariant(next, n - 1, canvas, env);
      assert Run(e, n, canvas, env) == Run(next, n - 1, canvas, env);
      assert e.time + (n - 1) as real * Speed + Speed == e.time + n as real * Speed;
    }
  }

  // ------------------------------------------------------ updateSetting

  /** What `updateSetting` does after storing the value. */
  datatype Response = Recreate | RestartFade | ResetHue | Keep

  /** The keys whose change calls for new blobs: `c` holds the settings
      after the assignment. The size multiplier matters only while it is
      applied at creation. */
  predicate Regenerates(c: Config, k: Key) {
    || k == GradientCount || k == ColorMode || k == PaletteColors
    || k == HueSeparation || k == EvenlySpacedColors || k == GradientSizeMode
    || (k == GradientSizeMultiplier && c.gradientSizeMode == "base")
  }

  /** The colour-range keys: creation reads them, but every frame
      recomputes the colours from them, so a change shows on the next
      frame without new blobs. */
  predicate ColourRange(k: Key) {
    k == HueStart || k == HueEnd || k == SaturationMin || k == SaturationMax
    || k == LightnessMin || k == LightnessMax
  }

  /** The keys the `startsWith('hue' | 'saturation' | 'lightness')` test
      catches. */
  predicate ColourPrefix(k: Key) {
    StartsWith(Name(k), "hue") || StartsWith(Name(k), "saturation")
    || StartsWith(Name(k), "lightness")
  }

  lemma FadeKeysUnprefixed()
    ensures !ColourPrefix(FadeoutMode) && !ColourPrefix(FadeoutTime)
  {
    assert !ColourPrefix(FadeoutMode);
    assert !ColourPrefix(FadeoutTime);
  }

  /** The keys the first four branches handle: those that may call for
      new blobs. */
  predicate SizingKey(k: Key) {
    || k == GradientCount || k == ColorMode || k == PaletteColors
    || k == HueSeparation || k == EvenlySpacedColors
    || k == GradientSizeMultiplier || k == GradientSizeMode
  }

  /** The first four branches; `c` holds the settings after the
      assignment. */
  function SizingResponse(c: Config, k: Key): (r: Response)
    requires SizingKey(k)
    ensures r == Recreate <==> Regenerates(c, k)
    ensures r == Recreate || r == Keep
  {
    if k == GradientCount then Recreate
    else if k == ColorMode || k == PaletteColors then Recreate
    else if k == HueSeparation || k == EvenlySpacedColors then Recreate
    else if k == GradientSizeMode || (k == GradientSizeMultiplier && c.gradientSizeMode == "base")
    then Recreate
    else Keep
  }

  /** The last two branches: the fade-out keys restart the fade-out clock;
      a rotation speed of exactly 0 clears the rotation. */
  function LateResponse(k: Key, v: Value): (r: Response)
    ensures r == RestartFade <==> k == FadeoutMode || k == FadeoutTime
    ensures r == ResetHue <==> k == HueRotationSpeed && v == Num(0.0)
    ensures r != Recreate
  {
    if k == FadeoutMode || k == FadeoutTime then RestartFade
    else if k == HueRotationSpeed then (if v == Num(0.0) then ResetHue else Keep)
    else Keep
  }

  /** The response chain of the page's engine: between the sizing branches
      and the last two, a key starting with `hue`, `saturation` or
      `lightness` gets no response. */
  function RespondAsWritten(c: Config, k: Key, v: Value): (r: Response)
    ensures r == Recreate <==> Regenerates(c, k)
    ensures r == RestartFade <==> k == FadeoutMode || k == FadeoutTime
    ensures r != ResetHue
  {
    FadeKeysUnprefixed();
    assert ColourPrefix(HueRotationSpeed);
    if SizingKey(k) then SizingResponse(c, k)
    else if ColourPrefix(k) then Keep
    else LateResponse(k, v)
  }

  /** The response chain without the prefix test, as in the copy of the
      engine the export writes out (controls.js:1225-1244). */
  function Respond(c: Config, k: Key, v: Value): (r: Response)
    ensures r == Recreate <==> Regenerates(c, k)
    ensures r == RestartFade <==> k == FadeoutMode || k == FadeoutTime
    ensures r == ResetHue <==> k == HueRotationSpeed && v == Num(0.0)
  {
    if SizingKey(k) then SizingResponse(c, k) else LateResponse(k, v)
  }

  /** Carry out a response on the engine whose settings already hold the
      new value. */
  function React(e: Engine, r: Response, canvas: Canvas, rng: nat -> Draw, now: real): (x: Engine)
    ensures x.time == e.time
    ensures r != ResetHue ==> x.settings == e.settings
    ensures x.blobs == (if r == Recreate then CreateGradients(e.settings, canvas, rng) else e.blobs)
    ensures x.fadeoutLastTime == (if r == RestartFade then now else e.fadeoutLastTime)
  {
    match r
    case Recreate => e.(blobs := CreateGradients(e.settings, canvas, rng))
    case RestartFade => e.(fadeoutLastTime := now)
    case ResetHue => e.(settings := e.settings.(animatedHue := 0.0))
    case Keep => e
  }

  /** `updateSetting(key, value)` of the page's engine. */
  function UpdateSettingAsWritten(e: Engine, k: Key, v: Value, canvas: Canvas, rng: nat -> Draw,
                                  now: real): (r: Engine)
    requires Fits(k, v)
    ensures r.time == e.time
    ensures r.settings == Set(e.settings, k, v)
    ensures r.settings.animatedHue == (if k == AnimatedHue then v.n else e.settings.animatedHue)
    ensures Regenerates(r.settings, k) ==> r.blobs == CreateGradients(r.settings, canvas, rng)
    ensures !Regenerates(r.settings, k) ==> r.blobs == e.blobs
    ensures r.fadeoutLastTime == (if k == FadeoutMode || k == FadeoutTime then now else e.fadeoutLastTime)
  {
    var c := Set(e.settings, k, v);
    React(e.(settings := c), RespondAsWritten(c, k, v), canvas, rng, now)
  }

  /** `updateSetting(key, value)` as the exported copy does it: stopping
      the hue rotation also clears the accumulated rotation. */
  function UpdateSetting(e: Engine, k: Key, v: Value, canvas: Canvas, rng: nat -> Draw,
                         now: real): (r: Engine)
    requires Fits(k, v)
    ensures r.time == e.time
    ensures !(k == HueRotationSpeed && v == Num(0.0)) ==> r.settings == Set(e.settings, k, v)
    ensures k == HueRotationSpeed && v == Num(0.0) ==>
      r.settings == e.settings.(hueRotationSpeed := 0.0, animatedHue := 0.0)
    ensures Regenerates(r.settings, k) ==> r.blobs == CreateGradients(r.settings, canvas, rng)
    ensures !Regenerates(r.settings, k) ==> r.blobs == e.blobs
    ensures r.fadeoutLastTime == (if k == FadeoutMode || k == FadeoutTime then now else e.fadeoutLastTime)
  {
    var c := Set(e.settings, k, v);
    React(e.(settings := c), Respond(c, k, v), canvas, rng, now)
  }

  /** `updateSetting` of the page's engine or of the exported copy. */
  function UpdateSettingIn(ver: Version, e: Engine, k: Key, v: Value, canvas: Canvas,
                           rng: nat -> Draw, now: real): (r: Engine)
    requires Fits(k, v)
    ensures r.time == e.time && Get(r.settings, k) == v
    ensures !(k == HueRotationSpeed && v == Num(0.0)) ==>
      r == UpdateSettingAsWritten(e, k, v, canvas, rng, now)
  {
    match ver
    case AsWritten => UpdateSettingAsWritten(e, k, v, canvas, rng, now)
    case Corrected =>
      if !(k == HueRotationSpeed && v == Num(0.0)) then
        VersionsAgreeElsewhere(e, k, v, canvas, rng, now);
        UpdateSetting(e, k, v, canvas, rng, now)
      else UpdateSetting(e, k, v, canvas, rng, now)
  }

  // --------------------------------------------------------- properties

  /** The two response chains differ only when the rotation speed is set
      to 0: every other key the prefix test catches gets no response from
      the later branches either. */
  lemma ResponsesAgree(c: Config, k: Key, v: Value)
    requires !(k == HueRotationSpeed && v == Num(0.0))
    ensures RespondAsWritten(c, k, v) == Respond(c, k, v)
  {
    if SizingKey(k) {
    } else if k == FadeoutMode || k == FadeoutTime {
      FadeKeysUnprefixed();
    } else {
      assert LateResponse(k, v) == Keep;
    }
  }

  /** The two versions differ only when the rotation speed is set to 0. */
  lemma VersionsAgreeElsewhere(e: Engine, k: Key, v: Value, canvas: Canvas, rng: nat -> Draw, now: real)
    requires Fits(k, v) && !(k == HueRotationSpeed && v == Num(0.0))
    ensures UpdateSettingAsWritten(e, k, v, canvas, rng, now) == UpdateSetting(e, k, v, canvas, rng, now)
  {
    ResponsesAgree(Set(e.settings, k, v), k, v);
  }

  /** As written, `hueRotationSpeed` starts with `hue`, so the prefix test
      swallows it and setting the speed to 0 freezes the rotation where it
      is instead of clearing it. */
  lemma StoppingRotationKeepsHue(e: Engine, canvas: Canvas, rng: nat -> Draw, now: real)
    ensures UpdateSettingAsWritten(e, HueRotationSpeed, Num(0.0), canvas, rng, now).settings.animatedHue
      == e.settings.animatedHue
  {
  }

  /** A concrete case: after the rotation reached 90 degrees and is
      stopped, the page keeps drawing with a 90-degree hue rotation. */
  lemma FrozenRotationExample(e: Engine, canvas: Canvas, rng: nat -> Draw, now: real, numText: real -> string)
    requires e.settings.animatedHue == 90.0 && e.settings.hue == 0.0
    ensures var r := UpdateSettingAsWritten(e, HueRotationSpeed, Num(0.0), canvas, rng, now);
      Filter.HueRotate(90.0) in Filters(r.settings)
  {
    var r := UpdateSettingAsWritten(e, HueRotationSpeed, Num(0.0), canvas, rng, now);
    assert r.settings.hue == 0.0;
  }

  /** Corrected: stopping the rotation clears it, so with no static hue the
      next frame's filter has no hue rotation. */
  lemma StoppingRotationClearsHue(e: Engine, canvas: Canvas, rng: nat -> Draw, now: real)
    requires e.settings.hue == 0.0
    ensures var r := UpdateSetting(e, HueRotationSpeed, Num(0.0), canvas, rng, now);
      && r.settings.animatedHue == 0.0
      && forall f :: f in Filters(r.settings) ==> !f.HueRotate?
  {
  }

  /** Creation's inputs: the settings `createGradients` and
      `generateColor` read. */
  predicate SameInputs(c: Config, d: Config) {
    && c.gradientCount == d.gradientCount && c.colorMode == d.colorMode
    && c.paletteColors == d.paletteColors && c.evenlySpacedColors == d.evenlySpacedColors
    && c.hueSeparation == d.hueSeparation && c.hueStart == d.hueStart && c.hueEnd == d.hueEnd
    && c.saturationMin == d.saturationMin && c.saturationMax == d.saturationMax
    && c.lightnessMin == d.lightnessMin && c.lightnessMax == d.lightnessMax
    && BaseMultiplier(c) == BaseMultiplier(d)
  }

  lemma SameColor(c: Config, d: Config, i: nat, draw: Draw)
    requires SameInputs(c, d)
    ensures GenerateColor(c, i, draw) == GenerateColor(d, i, draw)
  {
    assert PaletteMode(c) == PaletteMode(d);
    assert EvenlySpaced(c) == EvenlySpaced(d);
    assert SeparationRange(c) == SeparationRange(d);
  }

  lemma SameBlob(c: Config, d: Config, canvas: Canvas, i: nat, draw: Draw)
    requires SameInputs(c, d)
    ensures NewBlob(c, canvas, i, draw) == NewBlob(d, canvas, i, draw)
  {
    SameColor(c, d, i, draw);
    assert BlobRadius(c, draw.radius) == BlobRadius(d, draw.radius);
  }

  /** Creation reads nothing of the settings but its inputs. */
  lemma SameCreation(c: Config, d: Config, canvas: Canvas, rng: nat -> Draw)
    requires SameInputs(c, d)
    ensures CreateGradients(c, canvas, rng) == CreateGradients(d, canvas, rng)
  {
    var r, q := CreateGradients(c, canvas, rng), CreateGradients(d, canvas, rng);
    forall i | 0 <= i < |r|
      ensures r[i] == q[i]
    {
      SameBlob(c, d, canvas, i, rng(i));
    }
  }

  /** Storing a key that neither regenerates nor is a colour-range key
      leaves creation's inputs as they were. */
  lemma SetKeepsCreationInputs(c: Config, k: Key, v: Value)
    requires Fits(k, v) && !Regenerates(Set(c, k, v), k) && !ColourRange(k)
    ensures SameInputs(Set(c, k, v), c)
  {
    // One case per key keeps each unfolding of Set concrete.
    match k
    case Opacity =>
    case Blur =>
    case Brightness =>
    case Contrast =>
    case Saturation =>
    case Hue =>
    case Scale =>
    case GradientSizeMultiplier =>
    case GradientSizeMode =>
    case PositionX =>
    case PositionY =>
    case BlendMode =>
    case GradientCount =>
    case GradientSpeed =>
    case ColorIntensity =>
    case BackgroundColor =>
    case GradientFade =>
    case HueRotationSpeed =>
    case AnimatedHue =>
    case HueStart =>
    case HueEnd =>
    case HueSeparation =>
    case EvenlySpacedColors =>
    case SaturationMin =>
    case SaturationMax =>
    case LightnessMin =>
    case LightnessMax =>
    case ColorMode =>
    case PaletteColors =>
    case FadeoutMode =>
    case FadeoutTime =>
    case RadialGradientsEnabled =>
    case LineGradientsEnabled =>
    case LineGradientAngle =>
    case LineGradientLength =>
    case LineGradientWidth =>
  }

  /** A change `updateSetting` answers without new blobs loses nothing:
      outside the colour range, which each frame recomputes, creating the
      blobs under the new settings would give the very same blobs. */
  lemma KeptBlobsStayCurrent(c: Config, k: Key, v: Value, canvas: Canvas, rng: nat -> Draw)
    requires Fits(k, v) && !Regenerates(Set(c, k, v), k) && !ColourRange(k)
    ensures CreateGradients(Set(c, k, v), canvas, rng) == CreateGradients(c, canvas, rng)
  {
    SetKeepsCreationInputs(c, k, v);
    SameCreation(Set(c, k, v), c, canvas, rng);
  }

  /** The blobs' colours do not depend on the colour they were created
      with: a colour-range change reaches every blob on the next frame. */
  lemma FrameColorIgnoresCreationColor(c: Config, b: Blob, other: Color, i: nat, time: real, env: Env)
    requires IsWave(env.sin)
    ensures FrameColor(c, b.(color := other), i, time, env) == FrameColor(c, b, i, time, env)
  {
    var b2 := b.(color := other);
    assert b2.baseIndex == b.baseIndex;
    assert BaseHue(c, b2, i, time, env) == BaseHue(c, b, i, time, env);
  }
}
