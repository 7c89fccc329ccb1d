/** One frame of blob motion: `updateGradients` (canvas-animation.js:128-200)
    with its orbit positions, per-frame colours and pulsing opacity, the
    pairwise push of `applyRepulsion` (202-278) and the wrap at the edges. */
module Motion {
  import opened JsMath
  import opened Settings
  import opened Colors
  import opened Blobs

  /** `Math.sin`, `Math.cos` and `Math.sqrt`, parameters of the model. */
  datatype Env = Env(sin: real -> real, cos: real -> real, sqrt: real -> real)

  /** What is relied on of `Math.sqrt`: on non-negative numbers it gives the
      non-negative square root. */
  ghost predicate IsRoot(sqrt: real -> real) {
    forall x :: 0.0 <= x ==> 0.0 <= sqrt(x) && sqrt(x) * sqrt(x) == x
  }

  ghost predicate Lawful(env: Env) {
    IsWave(env.sin) && IsWave(env.cos) && IsRoot(env.sqrt)
  }

  // -------------------------------------------------------------- orbiting

  /** `centerX + sin(time * gradientSpeed + phase) * width * 0.3`: the blob
      stays within 30% of the width from the centre `width * positionX`. */
  function OrbitX(c: Config, w: real, time: real, phase: real, env: Env): (x: real)
    requires IsWave(env.sin)
    ensures 0.0 <= w ==> w * c.positionX - w * 0.3 <= x <= w * c.positionX + w * 0.3
  {
    var s := env.sin(time * c.gradientSpeed + phase);
    WaveAround(w * c.positionX, s, w * 0.3, w * c.positionX + s * (w * 0.3));
    w * c.positionX + s * (w * 0.3)
  }

  /** The vertical orbit uses cosine and a phase scaled by 1.3. */
  function OrbitY(c: Config, h: real, time: real, phase: real, env: Env): (y: real)
    requires IsWave(env.cos)
    ensures 0.0 <= h ==> h * c.positionY - h * 0.3 <= y <= h * c.positionY + h * 0.3
  {
    var s := env.cos(time * c.gradientSpeed + phase * 1.3);
    WaveAround(h * c.positionY, s, h * 0.3, h * c.positionY + s * (h * 0.3));
    h * c.positionY + s * (h * 0.3)
  }

  lemma WaveAround(center: real, s: real, k: real, r: real)
    requires -1.0 <= s <= 1.0 && r == center + s * k
    ensures 0.0 <= k ==> center - k <= r <= center + k
  {
    WaveBound(s, k);
  }

  lemma WaveBound(s: real, k: real)
    requires -1.0 <= s <= 1.0
    ensures 0.0 <= k ==> -k <= s * k <= k
  {
    if 0.0 <= k {
      WaveScale(s, k);
    }
  }

  // ------------------------------------------------------- per-frame colour

  /** `Math.max(lo, Math.min(hi, (lo + hi) / 2 + wave * ((hi - lo) / 2)))`.
      The result never falls below `lo`; with `lo <= hi` it stays within
      [lo, hi] and the clamp never bites, since the wave swings exactly from
      `lo` to `hi`; with `hi < lo` it is stuck at `lo`. */
  function Oscillate(lo: real, hi: real, wave: real): (r: real)
    requires -1.0 <= wave <= 1.0
    ensures lo <= r
    ensures lo <= hi ==> r <= hi && r == (lo + hi) / 2.0 + wave * ((hi - lo) / 2.0)
    ensures hi < lo ==> r == lo
  {
    var half := (hi - lo) / 2.0;
    WaveBound(wave, half);
    Max(lo, Min(hi, (lo + hi) / 2.0 + wave * half))
  }

  /** `Math.sin(time * 0.3 + i) * 20 + hue`: a swing of 20 degrees around
      the hue setting. */
  function HueShift(c: Config, i: nat, time: real, env: Env): (r: real)
    requires IsWave(env.sin)
    ensures c.hue - 20.0 <= r <= c.hue + 20.0
  {
    var s := env.sin(time * 0.3 + i as real);
    WaveBound(s, 20.0);
    s * 20.0 + c.hue
  }

  /** `(baseIndex * 0.1) % 1`: the fixed offset a blob takes inside the
      separation range when hues are not evenly spaced. */
  function RandomOffset(baseIndex: nat): (r: Unit)
  {
    Rem(baseIndex as real * 0.1, 1.0)
  }

  /** The hue before the final `% 360`. Evenly spaced blobs keep the hue
      they were created with plus the shift; the others sit at their fixed
      offset inside the separation range plus the shift. */
  function BaseHue(c: Config, b: Blob, i: nat, time: real, env: Env): (r: real)
    requires IsWave(env.sin)
    ensures EvenlySpaced(c) ==>
      r - HueShift(c, i, time, env) == c.hueStart + b.baseIndex as real * Spacing(c)
    ensures !EvenlySpaced(c) ==>
      Min(c.hueStart, c.hueStart + SeparationRange(c)) <= r - HueShift(c, i, time, env)
      <= Max(c.hueStart, c.hueStart + SeparationRange(c))
  {
    var shift := HueShift(c, i, time, env);
    if EvenlySpaced(c) then
      c.hueStart + b.baseIndex as real * Spacing(c) + shift
    else
      Lerp(c.hueStart, c.hueStart + SeparationRange(c), RandomOffset(b.baseIndex)) + shift
  }

  /** The colour `updateGradients` gives blob `i` in this frame. In palette
      mode it is the palette entry of the blob's base index; otherwise an
      HSL colour whose hue is the base hue modulo 360 with the sign of the
      dividend, as JavaScript's `%` gives it. */
  function FrameColor(c: Config, b: Blob, i: nat, time: real, env: Env): (r: Color)
    requires IsWave(env.sin)
    ensures PaletteMode(c) ==> r == Literal(c.paletteColors[b.baseIndex % |c.paletteColors|])
    ensures PaletteMode(c) ==> r.text in c.paletteColors
    ensures !PaletteMode(c) ==> r.Hsl? && -360.0 < r.h < 360.0
    ensures !PaletteMode(c) ==> WholeTurns(BaseHue(c, b, i, time, env) - r.h)
    ensures !PaletteMode(c) && 0.0 <= BaseHue(c, b, i, time, env) ==> 0.0 <= r.h
    ensures !PaletteMode(c) && BaseHue(c, b, i, time, env) < 0.0 ==> r.h <= 0.0
    ensures !PaletteMode(c) ==> c.saturationMin <= r.s && c.lightnessMin <= r.l
    ensures !PaletteMode(c) && c.saturationMin <= c.saturationMax ==> r.s <= c.saturationMax
    ensures !PaletteMode(c) && c.lightnessMin <= c.lightnessMax ==> r.l <= c.lightnessMax
  {
    if PaletteMode(c) then
      Literal(c.paletteColors[b.baseIndex % |c.paletteColors|])
    else
      var base := BaseHue(c, b, i, time, env);
      RemTurns(base);
      Hsl(Rem(base, 360.0),
        Oscillate(c.saturationMin, c.saturationMax, env.sin(time + i as real)),
        Oscillate(c.lightnessMin, c.lightnessMax, env.sin(time * 0.5 + i as real)))
  }

  /** `(0.3 + sin(time * 0.4 + phase) * 0.2) * opacity`: the pulse swings
      between 10% and 50% of the opacity setting. */
  function PulseOpacity(c: Config, phase: real, time: real, env: Env): (r: real)
    requires IsWave(env.sin)
    ensures 0.0 <= c.opacity ==> 0.1 * c.opacity <= r <= 0.5 * c.opacity
  {
    var f := 0.3 + env.sin(time * 0.4 + phase) * 0.2;
    PulseBounds(f, c.opacity, f * c.opacity);
    f * c.opacity
  }

  lemma PulseBounds(f: real, m: real, r: real)
    requires 0.1 <= f <= 0.5 && r == f * m
    ensures 0.0 <= m ==> 0.1 * m <= r <= 0.5 * m
  {
    if 0.0 <= m {
      ScaleBetween(f, 0.1, 0.5, m, r);
    }
  }

  /** The first pass of `updateGradients` on blob `i`: new orbit position,
      colour and opacity; nothing else of the blob changes. */
  function Animated(c: Config, b: Blob, i: nat, w: real, h: real, time: real, env: Env): (r: Blob)
    requires IsWave(env.sin) && IsWave(env.cos)
    ensures r == b.(x := r.x, y := r.y, color := r.color, opacity := r.opacity)
    ensures r.x == OrbitX(c, w, time, b.phase, env) && r.y == OrbitY(c, h, time, b.phase, env)
    ensures r.color == FrameColor(c, b, i, time, env)
    ensures r.opacity == PulseOpacity(c, b.phase, time, env)
  {
    b.(x := OrbitX(c, w, time, b.phase, env), y := OrbitY(c, h, time, b.phase, env),
      color := FrameColor(c, b, i, time, env), opacity := PulseOpacity(c, b.phase, time, env))
  }

  /** In palette mode a blob's colour does not animate: every frame gives it
      the colour it was created with. */
  lemma PaletteColorIsStable(c: Config, canvas: Canvas, i: nat, d: Draw, k: nat, time: real, env: Env)
    requires IsWave(env.sin) && PaletteMode(c)
    ensures FrameColor(c, NewBlob(c, canvas, i, d), k, time, env) == NewBlob(c, canvas, i, d).color
  {
  }

  /** With evenly spaced hues the per-frame base hue is the creation hue
      plus the shift. */
  lemma EvenHueFollowsCreation(c: Config, canvas: Canvas, i: nat, d: Draw, time: real, env: Env)
    requires IsWave(env.sin) && !PaletteMode(c) && EvenlySpaced(c)
    ensures var b := NewBlob(c, canvas, i, d);
      BaseHue(c, b, i, time, env) == b.color.h + HueShift(c, i, time, env)
  {
  }

  // ------------------------------------------------------------ repulsion

  /** Minimum distance below which a neighbour pushes, `minDistance`. */
  const MinDistance: real := 150.0
  /** `repulsionStrength`. */
  const Strength: real := 0.15
  /** `overlapThreshold`: centres closer than this share of the average
      radius overlap. */
  const OverlapShare: real := 0.6

  /** `dx * dx + dy * dy`. */
  function SquaredDist(a: Blob, b: Blob): real {
    (a.x - b.x) * (a.x - b.x) + (a.y - b.y) * (a.y - b.y)
  }

  /** `Math.sqrt(dx * dx + dy * dy)`. */
  function Dist(a: Blob, b: Blob, env: Env): real {
    env.sqrt(SquaredDist(a, b))
  }

  predicate Overlaps(a: Blob, b: Blob, env: Env) {
    Dist(a, b, env) < (a.radius + b.radius) / 2.0 * OverlapShare
  }

  /** `overlappingIndices` from position `from` on. */
  function OverlapFrom(bs: seq<Blob>, i: nat, from: nat, env: Env): (js: seq<nat>)
    requires i < |bs| && from <= |bs|
    ensures forall j :: j in js <==> from <= j < |bs| && j != i && Overlaps(bs[i], bs[j], env)
    ensures forall p, q :: 0 <= p < q < |js| ==> js[p] < js[q]
    decreases |bs| - from
  {
    if from == |bs| then []
    else
      var rest := OverlapFrom(bs, i, from + 1, env);
      assert forall q :: 0 <= q < |rest| ==> rest[q] in rest;
      if from != i && Overlaps(bs[i], bs[from], env) then [from] + rest else rest
  }

  /** The neighbours of blob `i` that overlap it, in index order. */
  function Overlapping(bs: seq<Blob>, i: nat, env: Env): (js: seq<nat>)
    requires i < |bs|
    ensures forall j :: j in js <==> 0 <= j < |bs| && j != i && Overlaps(bs[i], bs[j], env)
    ensures forall p, q :: 0 <= p < q < |js| ==> js[p] < js[q]
  {
    OverlapFrom(bs, i, 0, env)
  }

  /** The push one neighbour gives, before the strength and multiplier:
      the unit vector away from it times `(150 - d) / 150`; nothing unless
      `0 < d < 150`. */
  function PushX(a: Blob, b: Blob, env: Env): real {
    var d := Dist(a, b, env);
    if 0.0 < d < MinDistance then (a.x - b.x) / d * ((MinDistance - d) / MinDistance) else 0.0
  }

  function PushY(a: Blob, b: Blob, env: Env): real {
    var d := Dist(a, b, env);
    if 0.0 < d < MinDistance then (a.y - b.y) / d * ((MinDistance - d) / MinDistance) else 0.0
  }

  /** `forceMultiplier` for three or more overlapping blobs. */
  function Multiplier(k: nat): real {
    1.0 + (k - 1) as real * 0.5
  }

  /** The summed pushes of the neighbours `js` on `a`, each scaled by the
      strength and `mult` (`totalForceX`, `totalForceY`). */
  function TotalX(a: Blob, bs: seq<Blob>, js: seq<nat>, mult: real, env: Env): real
    requires forall k :: 0 <= k < |js| ==> js[k] < |bs|
  {
    if js == [] then 0.0
    else PushX(a, bs[js[0]], env) * Strength * mult + TotalX(a, bs, js[1..], mult, env)
  }

  function TotalY(a: Blob, bs: seq<Blob>, js: seq<nat>, mult: real, env: Env): real
    requires forall k :: 0 <= k < |js| ==> js[k] < |bs|
  {
    if js == [] then 0.0
    else PushY(a, bs[js[0]], env) * Strength * mult + TotalY(a, bs, js[1..], mult, env)
  }

  /** The crowded branch: `a` moves once, from where it stands, by the
      totals. Its displacement is the sum of the neighbours' pushes times
      the strength and `mult`. */
  function Crowd(a: Blob, bs: seq<Blob>, js: seq<nat>, mult: real, env: Env): (r: Blob)
    requires forall k :: 0 <= k < |js| ==> js[k] < |bs|
    ensures r == a.(x := r.x, y := r.y)
    ensures r.x == a.x + PushSumX(a, bs, js, env) * (Strength * mult)
    ensures r.y == a.y + PushSumY(a, bs, js, env) * (Strength * mult)
  {
    TotalXFactor(a, bs, js, mult, env);
    TotalYFactor(a, bs, js, mult, env);
    a.(x := a.x + TotalX(a, bs, js, mult, env), y := a.y + TotalY(a, bs, js, mult, env))
  }

  /** The `else` branch: each overlapping neighbour moves `a` in turn by
      half the strength, measured from where `a` is at that moment. */
  function StepAway(a: Blob, bs: seq<Blob>, js: seq<nat>, env: Env): (r: Blob)
    requires forall k :: 0 <= k < |js| ==> js[k] < |bs|
    ensures r == a.(x := r.x, y := r.y)
    decreases |js|
  {
    if js == [] then a
    else
      var b := bs[js[0]];
      StepAway(a.(x := a.x + PushX(a, b, env) * Strength * 0.5,
                  y := a.y + PushY(a, b, env) * Strength * 0.5), bs, js[1..], env)
  }

  /** Blob `i` after its turn in `applyRepulsion`. Only its position
      changes, and a blob that overlaps nothing does not move. */
  function Repel(bs: seq<Blob>, i: nat, env: Env): (r: Blob)
    requires i < |bs|
    ensures r == bs[i].(x := r.x, y := r.y)
    ensures Overlapping(bs, i, env) == [] ==> r == bs[i]
  {
    var a := bs[i];
    var js := Overlapping(bs, i, env);
    assert forall k :: 0 <= k < |js| ==> js[k] in js;
    if |js| >= 2 then Crowd(a, bs, js, Multiplier(|js|), env)
    else
      StepAway(a, bs, js, env)
  }

  /** `applyRepulsion` from blob `i` on: the blobs take their turns in
      index order, each seeing the positions the earlier ones moved to.
      Only positions change. */
  function RepelFrom(bs: seq<Blob>, i: nat, env: Env): (r: seq<Blob>)
    requires i <= |bs|
    ensures |r| == |bs|
    ensures forall k :: 0 <= k < |bs| ==> r[k] == bs[k].(x := r[k].x, y := r[k].y)
    ensures forall k :: 0 <= k < i ==> r[k] == bs[k]
    decreases |bs| - i
  {
    if i == |bs| then bs
    else RepelFrom(bs[i := Repel(bs, i, env)], i + 1, env)
  }

  function ApplyRepulsion(bs: seq<Blob>, env: Env): (r: seq<Blob>)
    ensures |r| == |bs|
    ensures forall k :: 0 <= k < |bs| ==> r[k] == bs[k].(x := r[k].x, y := r[k].y)
  {
    RepelFrom(bs, 0, env)
  }

  /** The square root of a square is the number itself. */
  lemma RootOfSquare(env: Env, d: real)
    requires IsRoot(env.sqrt) && 0.0 <= d
    ensures env.sqrt(d * d) == d
  {
    var s := env.sqrt(d * d);
    assert 0.0 <= s && s * s == d * d;
    if s != d {
      SquaresDiffer(s, d);
    }
  }

  lemma SquaresDiffer(s: real, d: real)
    requires 0.0 <= s && 0.0 <= d && s != d
    ensures s * s != d * d
  {
    var p := (s + d) * (s - d);
    assert p == s * s - d * d;
    if s > d {
      MulLtMono(s + d, 0.0, s - d);
    } else {
      MulLtMono(s + d, s - d, 0.0);
    }
  }

  /** One neighbour's push, written as a scaling of the offset from it. */
  lemma PushScales(ax: real, bx: real, d: real, p: real)
    requires 0.0 < d < MinDistance && p == (ax - bx) / d * ((MinDistance - d) / MinDistance)
    ensures ax + p * Strength * 0.5 - bx
      == (ax - bx) * (1.0 + (MinDistance - d) / MinDistance * Strength * 0.5 / d)
    ensures 1.0 + (MinDistance - d) / MinDistance * Strength * 0.5 / d > 1.0
  {
    var f := (MinDistance - d) / MinDistance;
    assert p * d == (ax - bx) * f;
    assert f * Strength * 0.5 / d > 0.0;
  }

  /** With a single overlapping neighbour, `applyRepulsion` takes the
      one-neighbour branch: one push from that neighbour. */
  lemma RepelSingle(bs: seq<Blob>, i: nat, j: nat, env: Env)
    requires i < |bs| && Overlapping(bs, i, env) == [j]
    ensures j < |bs|
    ensures var a := bs[i];
      Repel(bs, i, env) == a.(x := a.x + PushX(a, bs[j], env) * Strength * 0.5,
                               y := a.y + PushY(a, bs[j], env) * Strength * 0.5)
  {
    var a, b := bs[i], bs[j];
    assert j in Overlapping(bs, i, env);
    var a1 := a.(x := a.x + PushX(a, b, env) * Strength * 0.5,
                 y := a.y + PushY(a, b, env) * Strength * 0.5);
    assert [j][1..] == [];
    assert StepAway(a, bs, [j], env) == StepAway(a1, bs, [], env) == a1;
  }

  /** A blob with exactly one overlapping neighbour closer than 150 is
      pushed straight away from it: its offset from the neighbour is
      scaled by a factor greater than one. */
  lemma SingleOverlapPushesAway(bs: seq<Blob>, i: nat, j: nat, env: Env)
    requires i < |bs| && Overlapping(bs, i, env) == [j]
    requires 0.0 < Dist(bs[i], bs[j], env) < MinDistance
    ensures var r := Repel(bs, i, env);
      var d := Dist(bs[i], bs[j], env);
      var grow := 1.0 + (MinDistance - d) / MinDistance * Strength * 0.5 / d;
      && grow > 1.0
      && r.x - bs[j].x == (bs[i].x - bs[j].x) * grow
      && r.y - bs[j].y == (bs[i].y - bs[j].y) * grow
  {
    var a, b := bs[i], bs[j];
    var d := Dist(a, b, env);
    RepelSingle(bs, i, j, env);
    PushScales(a.x, b.x, d, PushX(a, b, env));
    PushScales(a.y, b.y, d, PushY(a, b, env));
  }

  /** The unscaled pushes of the neighbours `js` on `a`, summed. */
  function PushSumX(a: Blob, bs: seq<Blob>, js: seq<nat>, env: Env): real
    requires forall k :: 0 <= k < |js| ==> js[k] < |bs|
  {
    if js == [] then 0.0 else PushX(a, bs[js[0]], env) + PushSumX(a, bs, js[1..], env)
  }

  function PushSumY(a: Blob, bs: seq<Blob>, js: seq<nat>, env: Env): real
    requires forall k :: 0 <= k < |js| ==> js[k] < |bs|
  {
    if js == [] then 0.0 else PushY(a, bs[js[0]], env) + PushSumY(a, bs, js[1..], env)
  }

  /** The scaled totals are the summed pushes times the strength and the
      multiplier. */
  lemma {:induction false} TotalXFactor(a: Blob, bs: seq<Blob>, js: seq<nat>, mult: real, env: Env)
    requires forall k :: 0 <= k < |js| ==> js[k] < |bs|
    ensures TotalX(a, bs, js, mult, env) == PushSumX(a, bs, js, env) * (Strength * mult)
    decreases |js|
  {
    if js != [] {
      var rest := js[1..];
      TotalXUnfold(a, bs, js, mult, env);
      PushSumXUnfold(a, bs, js, env);
      TotalXFactor(a, bs, rest, mult, env);
      FactorStep(PushX(a, bs[js[0]], env), PushSumX(a, bs, rest, env), TotalX(a, bs, rest, mult, env), mult);
    }
  }

  lemma {:induction false} TotalYFactor(a: Blob, bs: seq<Blob>, js: seq<nat>, mult: real, env: Env)
    requires forall k :: 0 <= k < |js| ==> js[k] < |bs|
    ensures TotalY(a, bs, js, mult, env) == PushSumY(a, bs, js, env) * (Strength * mult)
    decreases |js|
  {
    if js != [] {
      var rest := js[1..];
      TotalYUnfold(a, bs, js, mult, env);
      PushSumYUnfold(a, bs, js, env);
      TotalYFactor(a, bs, rest, mult, env);
      FactorStep(PushY(a, bs[js[0]], env), PushSumY(a, bs, rest, env), TotalY(a, bs, rest, mult, env), mult);
    }
  }

  /** One step of each sum, the push of the first neighbour split off. */
  lemma TotalXUnfold(a: Blob, bs: seq<Blob>, js: seq<nat>, mult: real, env: Env)
    requires js != [] && forall k :: 0 <= k < |js| ==> js[k] < |bs|
    ensures TotalX(a, bs, js, mult, env)
      == PushX(a, bs[js[0]], env) * Strength * mult + TotalX(a, bs, js[1..], mult, env)
  {
  }

  lemma TotalYUnfold(a: Blob, bs: seq<Blob>, js: seq<nat>, mult: real, env: Env)
    requires js != [] && forall k :: 0 <= k < |js| ==> js[k] < |bs|
    ensures TotalY(a, bs, js, mult, env)
      == PushY(a, bs[js[0]], env) * Strength * mult + TotalY(a, bs, js[1..], mult, env)
  {
  }

  lemma PushSumXUnfold(a: Blob, bs: seq<Blob>, js: seq<nat>, env: Env)
    requires js != [] && forall k :: 0 <= k < |js| ==> js[k] < |bs|
    ensures PushSumX(a, bs, js, env) == PushX(a, bs[js[0]], env) + PushSumX(a, bs, js[1..], env)
  {
  }

  lemma PushSumYUnfold(a: Blob, bs: seq<Blob>, js: seq<nat>, env: Env)
    requires js != [] && forall k :: 0 <= k < |js| ==> js[k] < |bs|
    ensures PushSumY(a, bs, js, env) == PushY(a, bs[js[0]], env) + PushSumY(a, bs, js[1..], env)
  {
  }

  lemma FactorStep(p: real, q: real, t: real, m: real)
    requires t == q * (Strength * m)
    ensures p * Strength * m + t == (p + q) * (Strength * m)
  {
    assert p * Strength * m == p * (Strength * m);
  }

  /** With `k >= 2` overlapping neighbours, blob `i` takes the crowded
      branch with the multiplier `1 + 0.5 (k - 1)`. */
  lemma CrowdedRepel(bs: seq<Blob>, i: nat, env: Env)
    requires i < |bs| && |Overlapping(bs, i, env)| >= 2
    ensures var js := Overlapping(bs, i, env);
      && (forall q :: 0 <= q < |js| ==> js[q] < |bs|)
      && Repel(bs, i, env) == Crowd(bs[i], bs, js, 1.0 + (|js| as real - 1.0) * 0.5, env)
  {
    var js := Overlapping(bs, i, env);
    assert forall q :: 0 <= q < |js| ==> js[q] in js;
    assert Multiplier(|js|) == 1.0 + (|js| as real - 1.0) * 0.5;
  }

  /** A neighbour to the left of `a` pushes it to the right, or not at all. */
  lemma PushXRightward(a: Blob, b: Blob, env: Env)
    requires b.x < a.x
    ensures 0.0 <= PushX(a, b, env)
    ensures !Inert(a, b, env) ==> 0.0 < PushX(a, b, env)
  {
    var d := Dist(a, b, env);
    if 0.0 < d < MinDistance {
      var n, f := (a.x - b.x) / d, (MinDistance - d) / MinDistance;
      assert 0.0 < n && 0.0 < f;
      assert PushX(a, b, env) == n * f;
      MulLtMono(n, 0.0, f);
    }
  }

  /** Pushes from neighbours all to the left of `a` add up to a rightward
      push, a strictly rightward one when one of them is in reach. */
  lemma {:induction false} PushSumRightward(a: Blob, bs: seq<Blob>, js: seq<nat>, env: Env)
    requires forall k :: 0 <= k < |js| ==> js[k] < |bs| && bs[js[k]].x < a.x
    ensures 0.0 <= PushSumX(a, bs, js, env)
    ensures (exists k :: 0 <= k < |js| && !Inert(a, bs[js[k]], env)) ==> 0.0 < PushSumX(a, bs, js, env)
    decreases |js|
  {
    if js != [] {
      assert forall k :: 0 <= k < |js[1..]| ==> js[1..][k] == js[k + 1];
      PushXRightward(a, bs[js[0]], env);
      PushSumRightward(a, bs, js[1..], env);
      if exists k :: 0 <= k < |js| && !Inert(a, bs[js[k]], env) {
        var k :| 0 <= k < |js| && !Inert(a, bs[js[k]], env);
        if k > 0 {
          assert !Inert(a, bs[js[1..][k - 1]], env);
        }
      }
    }
  }

  /** Direction: when every overlapping neighbour lies to the left of blob
      `i` and at least one of them is within reach, the blob moves to the
      right, in either branch of `applyRepulsion`. */
  lemma RepelledRightward(bs: seq<Blob>, i: nat, env: Env)
    requires i < |bs|
    requires forall j :: j in Overlapping(bs, i, env) ==> bs[j].x < bs[i].x
    requires exists j :: j in Overlapping(bs, i, env) && !Inert(bs[i], bs[j], env)
    ensures bs[i].x < Repel(bs, i, env).x
  {
    var js, a := Overlapping(bs, i, env), bs[i];
    assert forall q :: 0 <= q < |js| ==> js[q] in js;
    var j :| j in js && !Inert(a, bs[j], env);
    var q :| 0 <= q < |js| && js[q] == j;
    if |js| >= 2 {
      PushSumRightward(a, bs, js, env);
      CrowdRightward(a, bs, js, Multiplier(|js|), env);
    } else {
      assert js == [j];
      SingleRightward(bs, i, j, env);
    }
  }

  lemma SingleRightward(bs: seq<Blob>, i: nat, j: nat, env: Env)
    requires i < |bs| && j < |bs| && Overlapping(bs, i, env) == [j]
    requires bs[j].x < bs[i].x && !Inert(bs[i], bs[j], env)
    ensures bs[i].x < Repel(bs, i, env).x
  {
    RepelSingle(bs, i, j, env);
    PushXRightward(bs[i], bs[j], env);
  }

  lemma CrowdRightward(a: Blob, bs: seq<Blob>, js: seq<nat>, mult: real, env: Env)
    requires forall k :: 0 <= k < |js| ==> js[k] < |bs|
    requires 0.0 < mult && 0.0 < PushSumX(a, bs, js, env)
    ensures a.x < Crowd(a, bs, js, mult, env).x
  {
    MulLtMono(Strength * mult, 0.0, PushSumX(a, bs, js, env));
  }

  /** A neighbour at distance 0 or at least 150 gives no push. */
  predicate Inert(a: Blob, b: Blob, env: Env) {
    !(0.0 < Dist(a, b, env) < MinDistance)
  }

  lemma {:induction false} TotalsVanish(a: Blob, bs: seq<Blob>, js: seq<nat>, mult: real, env: Env)
    requires forall k :: 0 <= k < |js| ==> js[k] < |bs| && Inert(a, bs[js[k]], env)
    ensures TotalX(a, bs, js, mult, env) == 0.0 && TotalY(a, bs, js, mult, env) == 0.0
    decreases |js|
  {
    if js != [] {
      assert forall k :: 0 <= k < |js[1..]| ==> js[1..][k] == js[k + 1];
      TotalsVanish(a, bs, js[1..], mult, env);
    }
  }

  lemma {:induction false} StepAwayStill(a: Blob, bs: seq<Blob>, js: seq<nat>, env: Env)
    requires forall k :: 0 <= k < |js| ==> js[k] < |bs| && Inert(a, bs[js[k]], env)
    ensures StepAway(a, bs, js, env) == a
    decreases |js|
  {
    if js != [] {
      var b := bs[js[0]];
      assert PushX(a, b, env) == 0.0 && PushY(a, b, env) == 0.0;
      assert a.(x := a.x + 0.0 * Strength * 0.5, y := a.y + 0.0 * Strength * 0.5) == a;
      assert forall k :: 0 <= k < |js[1..]| ==> js[1..][k] == js[k + 1];
      StepAwayStill(a, bs, js[1..], env);
    }
  }

  /** Overlapping neighbours at distance 0 or at least 150 count towards
      the number of overlaps but push nothing: a blob whose overlapping
      neighbours are all like that stays where it is, in either branch. */
  lemma FarNeighboursAddNothing(bs: seq<Blob>, i: nat, env: Env)
    requires i < |bs|
    requires forall j :: j in Overlapping(bs, i, env) ==> Inert(bs[i], bs[j], env)
    ensures Repel(bs, i, env) == bs[i]
  {
    var a, js := bs[i], Overlapping(bs, i, env);
    assert forall k :: 0 <= k < |js| ==> js[k] in js;
    if |js| >= 2 {
      TotalsVanish(a, bs, js, Multiplier(|js|), env);
      assert a.(x := a.x + 0.0, y := a.y + 0.0) == a;
    } else {
      StepAwayStill(a, bs, js, env);
    }
  }

  lemma TwoBlobsDistance(a: Blob, b: Blob, gap: real, env: Env)
    requires IsRoot(env.sqrt)
    requires a.x == 0.0 && a.y == 0.0 && b.x == gap && b.y == 0.0 && 0.0 < gap
    ensures Dist(a, b, env) == gap
  {
    assert SquaredDist(a, b) == gap * gap;
    RootOfSquare(env, gap);
  }

  lemma TwoBlobsOverlap(a: Blob, b: Blob, env: Env)
    requires a.radius == 200.0 && b.radius == 200.0 && Dist(a, b, env) < 120.0
    ensures Overlapping([a, b], 0, env) == [1]
  {
    var bs := [a, b];
    assert Overlaps(bs[0], bs[1], env);
    assert OverlapFrom(bs, 0, 2, env) == [];
    assert OverlapFrom(bs, 0, 1, env) == [1];
    assert OverlapFrom(bs, 0, 0, env) == [1];
  }

  /** The second of two blobs of radius 200 overlaps the first exactly when
      it is closer than 120. */
  lemma SecondBlobOverlap(a: Blob, b: Blob, env: Env)
    requires a.radius == 200.0 && b.radius == 200.0
    ensures Dist(b, a, env) < 120.0 ==> Overlapping([a, b], 1, env) == [0]
    ensures 120.0 <= Dist(b, a, env) ==> Overlapping([a, b], 1, env) == []
  {
    var bs := [a, b];
    assert OverlapFrom(bs, 1, 2, env) == [];
    assert OverlapFrom(bs, 1, 1, env) == [];
    assert Overlaps(bs[1], bs[0], env) <==> Dist(b, a, env) < 120.0;
  }

  /** Two blobs on one horizontal line are their horizontal offset apart,
      measured from either. */
  lemma LevelDistance(a: Blob, b: Blob, env: Env)
    requires IsRoot(env.sqrt) && a.y == b.y && a.x < b.x
    ensures Dist(a, b, env) == b.x - a.x && Dist(b, a, env) == b.x - a.x
  {
    var g := b.x - a.x;
    assert SquaredDist(a, b) == g * g;
    assert SquaredDist(b, a) == g * g;
    RootOfSquare(env, g);
  }

  /** The first blob's turn: it moves left along the line and ends up
      `gap + (150 - gap) * 0.0005` from the second. */
  lemma FirstTurn(a: Blob, b: Blob, gap: real, env: Env)
    requires IsRoot(env.sqrt)
    requires a.x == 0.0 && a.y == 0.0 && a.radius == 200.0
    requires b.x == gap && b.y == 0.0 && b.radius == 200.0
    requires 0.0 < gap < 120.0
    ensures var a1 := Repel([a, b], 0, env);
      && a1 == a.(x := a1.x) && a1.x < 0.0
      && b.x - a1.x == gap + (MinDistance - gap) * 0.0005
  {
    TwoBlobsDistance(a, b, gap, env);
    TwoBlobsOverlap(a, b, env);
    SingleOverlapPushesAway([a, b], 0, 1, env);
    var grow := 1.0 + (MinDistance - gap) / MinDistance * Strength * 0.5 / gap;
    MulLtMono(gap, 1.0, grow);
    assert gap * grow == gap + (MinDistance - gap) / MinDistance * Strength * 0.5;
  }

  /** `applyRepulsion` on two blobs: the first takes its turn, then the
      second takes its turn against the moved first. */
  lemma TwoBlobPass(a: Blob, b: Blob, env: Env)
    ensures var a1 := Repel([a, b], 0, env);
      ApplyRepulsion([a, b], env) == [a1, Repel([a1, b], 1, env)]
  {
    var bs := [a, b];
    var a1 := Repel(bs, 0, env);
    var bs1 := [a1, b];
    assert bs[0 := a1] == bs1;
    assert RepelFrom(bs, 0, env) == RepelFrom(bs1, 1, env);
    var b1 := Repel(bs1, 1, env);
    assert bs1[1 := b1] == [a1, b1];
    assert RepelFrom(bs1, 1, env) == RepelFrom([a1, b1], 2, env) == [a1, b1];
  }

  /** The second blob's turn, with the first on the same line to its left
      and of the same radius 200. Closer than 120, it moves right and stays
      on the line; otherwise it keeps its place. */
  lemma SecondTurn(a1: Blob, b: Blob, env: Env)
    requires IsRoot(env.sqrt)
    requires a1.radius == 200.0 && b.radius == 200.0
    requires a1.y == 0.0 && b.y == 0.0 && a1.x < b.x
    ensures var b1 := Repel([a1, b], 1, env);
      b.x - a1.x < 120.0 ==> b.x < b1.x && b1.y == 0.0
    ensures 120.0 <= b.x - a1.x ==> Repel([a1, b], 1, env) == b
  {
    var bs1 := [a1, b];
    var far := b.x - a1.x;
    LevelDistance(a1, b, env);
    SecondBlobOverlap(a1, b, env);
    if far < 120.0 {
      SingleOverlapPushesAway(bs1, 1, 0, env);
      var grow := 1.0 + (MinDistance - far) / MinDistance * Strength * 0.5 / far;
      MulLtMono(far, 1.0, grow);
    }
  }

  /** The whole pass on two blobs of radius 200 side by side, closer than
      119.9: the first moves left, away from the second; the second, taking
      its turn after it, is still within reach of the moved first blob and
      moves right. Neither leaves the line. */
  lemma TwoBlobsSeparate(a: Blob, b: Blob, gap: real, env: Env)
    requires IsRoot(env.sqrt)
    requires a.x == 0.0 && a.y == 0.0 && a.radius == 200.0
    requires b.x == gap && b.y == 0.0 && b.radius == 200.0
    requires 0.0 < gap < 119.9
    ensures var r := ApplyRepulsion([a, b], env);
      && r[0].x < 0.0 && r[0].y == 0.0
      && gap < r[1].x && r[1].y == 0.0
  {
    FirstTurn(a, b, gap, env);
    TwoBlobPass(a, b, env);
    SecondTurn(Repel([a, b], 0, env), b, env);
  }

  /** The order matters: at a gap of 119.99 the two blobs overlap at the
      start of the pass, but once the first has moved the second no longer
      overlaps it and keeps its place. */
  lemma LaterBlobMissesMovedNeighbour(a: Blob, b: Blob, env: Env)
    requires IsRoot(env.sqrt)
    requires a.x == 0.0 && a.y == 0.0 && a.radius == 200.0
    requires b.x == 119.99 && b.y == 0.0 && b.radius == 200.0
    ensures Overlapping([a, b], 1, env) == [0]
    ensures ApplyRepulsion([a, b], env)[1] == b
  {
    LevelDistance(a, b, env);
    SecondBlobOverlap(a, b, env);
    FirstTurn(a, b, 119.99, env);
    TwoBlobPass(a, b, env);
    SecondTurn(Repel([a, b], 0, env), b, env);
  }

  // ----------------------------------------------------------------- wrap

  /** The wrap along one axis: a blob wholly past the near edge reappears
      wholly past the far edge, and the other way round; the two tests run
      in turn, as in the source. */
  function WrapAxis(v: real, extent: real, r: real): (w: real)
    ensures -r <= v <= extent + r ==> w == v
    ensures v < -r ==> w == extent + r
    ensures extent + r < v && -r <= v ==> w == -r
    ensures 0.0 <= extent + 2.0 * r ==> -r <= w <= extent + r
  {
    var v1 := if v < -r then extent + r else v;
    if v1 > extent + r then -r else v1
  }

  function Wrap(b: Blob, w: real, h: real): (r: Blob)
    ensures r == b.(x := WrapAxis(b.x, w, b.radius), y := WrapAxis(b.y, h, b.radius))
  {
    b.(x := WrapAxis(b.x, w, b.radius), y := WrapAxis(b.y, h, b.radius))
  }

  // -------------------------------------------------------- the whole pass

  /** `updateGradients()`: orbit, colour and opacity for every blob, then
      the repulsion pass, then the wrap. Radius, phase, velocity and base
      index are untouched; colour and opacity are this frame's; every
      blob with a non-negative radius ends inside the drawing area grown by
      its radius. */
  function UpdateGradients(c: Config, canvas: Canvas, bs: seq<Blob>, time: real, env: Env)
    : (r: seq<Blob>)
    requires IsWave(env.sin) && IsWave(env.cos)
    ensures |r| == |bs|
    ensures forall i :: 0 <= i < |bs| ==>
      && r[i].radius == bs[i].radius && r[i].phase == bs[i].phase
      && r[i].vx == bs[i].vx && r[i].vy == bs[i].vy && r[i].baseIndex == bs[i].baseIndex
      && r[i].color == FrameColor(c, bs[i], i, time, env)
      && r[i].opacity == PulseOpacity(c, bs[i].phase, time, env)
    ensures forall i :: 0 <= i < |bs| && 0.0 <= canvas.CssWidth() && 0.0 <= bs[i].radius ==>
      -bs[i].radius <= r[i].x <= canvas.CssWidth() + bs[i].radius
    ensures forall i :: 0 <= i < |bs| && 0.0 <= canvas.CssHeight() && 0.0 <= bs[i].radius ==>
      -bs[i].radius <= r[i].y <= canvas.CssHeight() + bs[i].radius
  {
    var w, h := canvas.CssWidth(), canvas.CssHeight();
    WrapAll(ApplyRepulsion(AnimateAll(c, bs, w, h, time, env), env), w, h)
  }

  /** The first pass over the blob list. */
  function AnimateAll(c: Config, bs: seq<Blob>, w: real, h: real, time: real, env: Env)
    : (r: seq<Blob>)
    requires IsWave(env.sin) && IsWave(env.cos)
    ensures |r| == |bs|
    ensures forall i :: 0 <= i < |bs| ==> r[i] == Animated(c, bs[i], i, w, h, time, env)
  {
    seq(|bs|, i requires 0 <= i < |bs| => Animated(c, bs[i], i, w, h, time, env))
  }

  /** The last pass over the blob list. */
  function WrapAll(bs: seq<Blob>, w: real, h: real): (r: seq<Blob>)
    ensures |r| == |bs|
    ensures forall i :: 0 <= i < |bs| ==> r[i] == Wrap(bs[i], w, h)
  {
    seq(|bs|, i requires 0 <= i < |bs| => Wrap(bs[i], w, h))
  }
}
