/** The control panel's numeric inputs (controls.js): how a typed text or a
    slider position becomes a call of the engine's `updateSetting`.
    `parseFloat` is a parameter: its value on a text, `None` standing for
    `NaN`. A slider's position is the number its `value` text holds. */
module Controls {
  import opened Wrappers
  import opened JsMath
  import opened Text
  import opened Settings
  import opened Colors
  import opened Blobs
  import opened Compositor
  import opened Animation

  /** `parseFloat`: the number a text starts with, or `None` for `NaN`. */
  type Parse = string -> Option<real>

  /** `parseFloat(attr) || fallback`: `NaN` and `0` are both falsy, so both
      give the fallback. */
  function OrElse(x: Option<real>, fallback: real): real {
    if x.Some? && x.value != 0.0 then x.value else fallback
  }

  /** A range input: its position and its `min`, `max` and `step`
      attributes (an absent attribute is the empty text). */
  datatype Slider = Slider(value: real, min: string, max: string, step: string)

  /** The slider's lower bound, `parseFloat(slider.min) || 0`. */
  function Low(s: Slider, parse: Parse): real {
    OrElse(parse(s.min), 0.0)
  }

  /** The slider's upper bound, `parseFloat(slider.max) || fallbackMax`. */
  function High(s: Slider, parse: Parse, fallbackMax: real): real {
    OrElse(parse(s.max), fallbackMax)
  }

  predicate InRange(x: real, s: Slider, parse: Parse, fallbackMax: real) {
    Low(s, parse) <= x <= High(s, parse, fallbackMax)
  }

  // ---------------------------------------------- the range input itself

  /** The element's own minimum: the `min` attribute's number, or 0. It is
      the handlers' lower bound, since `|| 0` only replaces a 0 by 0. */
  function ElementMin(s: Slider, parse: Parse): (r: real)
    ensures r == Low(s, parse)
  {
    match parse(s.min)
    case Some(m) => m
    case None => 0.0
  }

  /** The element's own maximum: the `max` attribute's number, or 100.
      Unlike the handlers' `|| fallbackMax`, a `max` of 0 is a maximum of 0. */
  function ElementMax(s: Slider, parse: Parse): real {
    match parse(s.max)
    case Some(m) => m
    case None => 100.0
  }

  /** The element's step: the `step` attribute's number when positive,
      none for "any", and otherwise the default step 1. */
  function StepOf(s: Slider, parse: Parse): (r: Option<real>)
    ensures r.None? <==> s.step == "any"
    ensures r.Some? ==> 0.0 < r.value
    ensures r.Some? && r.value != 1.0 ==> parse(s.step) == r
  {
    if s.step == "any" then None
    else match parse(s.step)
      case Some(x) => if 0.0 < x then Some(x) else Some(1.0)
      case None => Some(1.0)
  }

  /** The positions the element can hold: not below its minimum, and not
      above its maximum unless the maximum is below the minimum. */
  predicate InBounds(x: real, s: Slider, parse: Parse) {
    ElementMin(s, parse) <= x &&
    (ElementMin(s, parse) <= ElementMax(s, parse) ==> x <= ElementMax(s, parse))
  }

  /** The range input's underflow and overflow rules: below the minimum
      becomes the minimum; above the maximum becomes the maximum, when the
      maximum is not below the minimum. */
  function Clamp(x: real, s: Slider, parse: Parse): (r: real)
    ensures InBounds(r, s, parse)
    ensures InBounds(x, s, parse) ==> r == x
    ensures x < ElementMin(s, parse) ==> r == ElementMin(s, parse)
    ensures ElementMin(s, parse) <= ElementMax(s, parse) < x ==> r == ElementMax(s, parse)
  {
    var lo := ElementMin(s, parse);
    var hi := ElementMax(s, parse);
    if x < lo then lo else if lo <= hi && hi < x then hi else x
  }

  /** A whole number of steps and the distance they span. */
  datatype Steps = Steps(count: nat, span: real)

  /** The whole number of steps from `lo` nearest to `c`, ties upwards. */
  function NearestSteps(c: real, lo: real, step: real): (r: Steps)
    requires 0.0 < step && lo <= c
    ensures r.span == r.count as real * step
    ensures c - lo - step / 2.0 < r.span <= c - lo + step / 2.0
  {
    var k := ((c - lo) / step + 0.5).Floor;
    HalfStepAround(c - lo, step, k);
    Steps(k, k as real * step)
  }

  /** `k` steps, for `k` the quotient `d / step` rounded, lie within half a
      step of `d`. */
  lemma HalfStepAround(d: real, step: real, k: int)
    requires 0.0 < step && 0.0 <= d
    requires k as real <= d / step + 0.5 < k as real + 1.0
    ensures 0 <= k
    ensures d - step / 2.0 < k as real * step <= d + step / 2.0
  {
    var q := d / step;
    HalfStepOff(d, step, q);
    ScaleLe(step, k as real, q + 0.5, k as real * step, d + step / 2.0);
    ScaleLt(step, q - 0.5, k as real, d - step / 2.0, k as real * step);
  }

  /** Half a step either side of `d`, counted in steps. */
  lemma HalfStepOff(d: real, step: real, q: real)
    requires 0.0 < step && q == d / step
    ensures d + step / 2.0 == step * (q + 0.5)
    ensures d - step / 2.0 == step * (q - 0.5)
  {
  }

  /** Scaling by a positive step keeps `<=` (and, below, `<`). */
  lemma ScaleLe(step: real, x: real, y: real, sx: real, sy: real)
    requires 0.0 < step && x <= y
    requires sx == x * step && sy == step * y
    ensures sx <= sy
  {
    MulLeMono(step, x, y);
  }

  lemma ScaleLt(step: real, x: real, y: real, sx: real, sy: real)
    requires 0.0 < step && x < y
    requires sx == step * x && sy == y * step
    ensures sx < sy
  {
    MulLtMono(step, x, y);
  }

  /** The whole number of steps above `lo` nearest to `c`, ties upwards,
      one step lower when that passes `hi` (and `hi` is not below `lo`). */
  function Snap(c: real, lo: real, hi: real, step: real): (r: real)
    requires 0.0 < step && lo <= c && (lo <= hi ==> c <= hi)
    ensures lo <= r && (lo <= hi ==> r <= hi)
    ensures c - step < r <= c + step / 2.0
  {
    var n := NearestSteps(c, lo, step);
    if lo <= hi && hi < lo + n.span then
      AtLeastOneStep(step, n);
      lo + n.span - step
    else lo + n.span
  }

  /** A positive whole number of steps is at least one step. */
  lemma AtLeastOneStep(step: real, n: Steps)
    requires 0.0 < step && n.span == n.count as real * step && 0.0 < n.span
    ensures 1 <= n.count && step <= n.span
  {
    MulLeMono(step, n.count as real, 0.0);
    MulLeMono(step, 1.0, n.count as real);
  }

  /** One step fewer spans one step less. */
  lemma OneStepBack(step: real, n: Steps)
    requires 1 <= n.count && n.span == n.count as real * step
    ensures n.span - step == (n.count - 1) as real * step
  {
  }

  /** `j` steps of `step` divided by `step` is `j`. */
  lemma StepsQuotient(x: real, lo: real, step: real, j: int)
    requires 0.0 < step && x == lo + j as real * step
    ensures (x - lo) / step == j as real
  {
  }

  /** A whole number of steps above `lo`, within the bounds, is kept. */
  lemma SnapKeepsSteps(x: real, lo: real, hi: real, step: real, j: nat)
    requires 0.0 < step && x == lo + j as real * step
    requires lo <= x && (lo <= hi ==> x <= hi)
    ensures Snap(x, lo, hi, step) == x
  {
    StepsQuotient(x, lo, step, j);
    assert NearestSteps(x, lo, step).count == j;
  }

  /** Snapping a snapped position changes nothing. */
  lemma SnapIdempotent(c: real, lo: real, hi: real, step: real)
    requires 0.0 < step && lo <= c && (lo <= hi ==> c <= hi)
    ensures Snap(Snap(c, lo, hi, step), lo, hi, step) == Snap(c, lo, hi, step)
  {
    var r := Snap(c, lo, hi, step);
    var n := NearestSteps(c, lo, step);
    if lo <= hi && hi < lo + n.span {
      AtLeastOneStep(step, n);
      OneStepBack(step, n);
      SnapKeepsSteps(r, lo, hi, step, n.count - 1);
    } else {
      SnapKeepsSteps(r, lo, hi, step, n.count);
    }
  }

  /** What the element keeps when a number is assigned to its `value` (the
      value sanitization of an `<input type=range>`): the number clamped to
      the element's bounds, then, unless the step is "any", moved to the
      nearest whole number of steps above the minimum, ties upwards, and
      one step down when that passes the maximum. */
  function Store(x: real, s: Slider, parse: Parse): (r: real)
    ensures InBounds(r, s, parse)
    ensures StepOf(s, parse).None? ==> r == Clamp(x, s, parse)
    ensures StepOf(s, parse).Some? ==>
      Clamp(x, s, parse) - StepOf(s, parse).value < r <= Clamp(x, s, parse) + StepOf(s, parse).value / 2.0
  {
    match StepOf(s, parse)
    case None => Clamp(x, s, parse)
    case Some(step) => Snap(Clamp(x, s, parse), ElementMin(s, parse), ElementMax(s, parse), step)
  }

  /** A position the element can hold that lies a whole number of steps
      above its minimum is kept exactly. */
  lemma StoreKeepsStepPositions(x: real, s: Slider, parse: Parse, j: nat)
    requires StepOf(s, parse).Some?
    requires x == ElementMin(s, parse) + j as real * StepOf(s, parse).value
    requires InBounds(x, s, parse)
    ensures Store(x, s, parse) == x
  {
    var lo, hi, step := ElementMin(s, parse), ElementMax(s, parse), StepOf(s, parse).value;
    SnapKeepsSteps(x, lo, hi, step, j);
    assert Clamp(x, s, parse) == x;
    assert Store(x, s, parse) == Snap(Clamp(x, s, parse), lo, hi, step);
  }

  /** Assigning the element's own value back to it changes nothing. */
  lemma StoreIdempotent(x: real, s: Slider, parse: Parse)
    ensures Store(Store(x, s, parse), s, parse) == Store(x, s, parse)
  {
    if StepOf(s, parse).Some? {
      SnapIdempotent(Clamp(x, s, parse), ElementMin(s, parse), ElementMax(s, parse), StepOf(s, parse).value);
    }
  }

  /** What a text-input handler leaves behind: the slider, and the number it
      passes on to the setting (`None`: the setting is not touched). */
  datatype Outcome = Outcome(slider: Slider, sent: Option<real>)

  /** The shape shared by the text-input handlers: a text that parses to `t`
      assigns `position(t)` to the slider when that is within the handler's
      bounds (the element then keeps `Store` of it), and passes `send(t)` on
      whether it is or not; a text that does not parse changes nothing. */
  function Accept(parsed: Option<real>, s: Slider, parse: Parse, fallbackMax: real,
                  position: real -> real, send: real -> real): (r: Outcome)
    ensures r.sent.Some? <==> parsed.Some?
    ensures parsed.Some? ==> r.sent.value == send(parsed.value)
    ensures r.slider.min == s.min && r.slider.max == s.max && r.slider.step == s.step
    ensures r.slider == s || InBounds(r.slider.value, s, parse)
    ensures parsed.Some? && InRange(position(parsed.value), s, parse, fallbackMax) ==>
      r.slider.value == Store(position(parsed.value), s, parse)
    ensures parsed.None? || !InRange(position(parsed.value), s, parse, fallbackMax) ==>
      r.slider == s
  {
    match parsed
    case None => Outcome(s, None)
    case Some(t) =>
      var p := position(t);
      Outcome(if InRange(p, s, parse, fallbackMax) then s.(value := Store(p, s, parse)) else s,
              Some(send(t)))
  }

  // ----------------------------------------------------- setupValueInput

  /** The text `setupValueInput` parses: the first occurrence of the unit
      removed and the rest trimmed; with no unit, the text as typed. */
  function StripUnit(text: string, unit: string): string {
    if unit == [] then text else Trim(ReplaceFirst(text, unit, ""))
  }

  /** `setupValueInput`'s text-input handler. `parseValue` is the handler's
      own parser applied to the parsed number: the identity for the default
      `parseFloat`, `WholePart` for the gradient count's `parseInt`. The
      slider's upper bound falls back to 100. */
  function OnValueText(text: string, unit: string, s: Slider, parse: Parse,
                       parseValue: real -> real): (r: Outcome)
    ensures parse(StripUnit(text, unit)).None? ==> r == Outcome(s, None)
    ensures parse(StripUnit(text, unit)).Some? ==>
      r.sent == Some(parseValue(parse(StripUnit(text, unit)).value))
  {
    Accept(parse(StripUnit(text, unit)), s, parse, 100.0, x => x, parseValue)
  }

  /** `setupValueInput`'s slider handler: the text box shows the position
      followed by the unit. */
  function SliderText(position: real, unit: string, numText: real -> string): string {
    numText(position) + unit
  }

  /** How the callback of each numeric input hands its value to the engine. */
  datatype Scaling =
    | Percent  // `value / 100`
    | Raw      // `value`
    | Whole    // `parseInt(value)`

  /** One `setupValueInput` that feeds the engine: the setting, the unit
      shown after the number, and the scaling of its callback. */
  datatype Route = Route(key: Key, unit: string, scaling: Scaling)

  /** The input wired to `updateSetting` through `setupValueInput` for
      each setting, if there is one: its unit and its scaling. */
  function RouteOf(k: Key): Option<Route> {
    match k
    case Opacity => Some(Route(k, "%", Percent))
    case Blur => Some(Route(k, "px", Raw))
    case Brightness => Some(Route(k, "%", Raw))
    case Contrast => Some(Route(k, "%", Raw))
    case Saturation => Some(Route(k, "%", Raw))
    case Hue => Some(Route(k, "deg", Raw))
    case Scale => Some(Route(k, "%", Percent))
    case GradientSizeMultiplier => Some(Route(k, "%", Percent))
    case PositionX => Some(Route(k, "%", Percent))
    case PositionY => Some(Route(k, "%", Percent))
    case FadeoutTime => Some(Route(k, "s", Raw))
    case GradientCount => Some(Route(k, "", Whole))
    case HueStart => Some(Route(k, "°", Raw))
    case HueEnd => Some(Route(k, "°", Raw))
    case HueSeparation => Some(Route(k, "%", Raw))
    case SaturationMin => Some(Route(k, "%", Raw))
    case SaturationMax => Some(Route(k, "%", Raw))
    case LightnessMin => Some(Route(k, "%", Raw))
    case LightnessMax => Some(Route(k, "%", Raw))
    case LineGradientAngle => Some(Route(k, "°", Raw))
    case LineGradientLength => Some(Route(k, "px", Raw))
    case LineGradientWidth => Some(Route(k, "px", Raw))
    case GradientSizeMode | BlendMode | GradientSpeed | ColorIntensity | BackgroundColor
      | GradientFade | HueRotationSpeed | AnimatedHue | EvenlySpacedColors | ColorMode
      | PaletteColors | FadeoutMode | RadialGradientsEnabled | LineGradientsEnabled => None
  }

  /** A route the panel sets up. */
  predicate Routed(route: Route) {
    RouteOf(route.key) == Some(route)
  }

  /** `parseInt` of a number: JavaScript prints the number with `String`
      (`numText`) and reads back its sign and leading digits. */
  function WholePart(x: real, numText: real -> string): real {
    ParseIntText(numText(x)) as real
  }

  /** The route's `parseValue`. */
  function ParseValue(route: Route, numText: real -> string): real -> real {
    if route.scaling == Whole then x => WholePart(x, numText) else x => x
  }

  /** The number the route's callback passes to `updateSetting`. The
      gradient count's `parseInt` gives a whole number, which is the number
      itself for a natural number written in plain decimal. */
  function Scaled(route: Route, x: real, numText: real -> string): (r: real)
    ensures route.scaling == Percent ==> r * 100.0 == x
    ensures route.scaling == Raw ==> r == x
    ensures route.scaling == Whole ==> r == r.Floor as real
    ensures route.scaling == Whole && IsNumberText(numText) && IsPlainNat(x) ==> r == x
  {
    match route.scaling
    case Percent => x / 100.0
    case Raw => x
    case Whole =>
      WholePartOfPlain(x, numText);
      WholePart(x, numText)
  }

  /** `parseInt` gives back a natural number written in plain decimal. */
  lemma WholePartOfPlain(x: real, numText: real -> string)
    ensures IsNumberText(numText) && IsPlainNat(x) ==> WholePart(x, numText) == x
  {
    if IsNumberText(numText) && IsPlainNat(x) {
      assert numText(x) == Decimal(x.Floor);
      ParseIntOfDecimal(x.Floor);
    }
  }

  /** `parseInt` of a number reads only the digits its text starts with:
      the integer part when the text is in fixed notation (`"12.7"` gives
      12), but the leading digits of the mantissa in exponent notation
      (`"5e-7"` gives 5, `"1e+21"` gives 1). */
  lemma WholePartReadsLeadingDigits(x: real, numText: real -> string, d: string, rest: string)
    requires numText(x) == d + rest && d != [] && AllDigits(d) && (rest == [] || !IsDigit(rest[0]))
    ensures WholePart(x, numText) == DecimalValue(d) as real
  {
    ParseIntReadsLeadingDigits(d, rest);
  }

  /** Every route writes a numeric setting, and none of them the hue
      rotation. */
  lemma RoutesAreNumeric(route: Route, x: real)
    requires Routed(route)
    ensures Fits(route.key, Num(x))
    ensures route.key != HueRotationSpeed && route.key != AnimatedHue
  {
  }

  /** Typing `text` into a route's text box, through to the page engine's
      `updateSetting`. No route writes the rotation speed, so the exported
      copy's `updateSetting` would do the same. */
  function TypeInto(e: Engine, route: Route, text: string, s: Slider, parse: Parse,
                    numText: real -> string, canvas: Canvas, rng: nat -> Draw, now: real): (r: (Engine, Slider))
    requires Routed(route)
    ensures parse(StripUnit(text, route.unit)).None? ==> r == (e, s)
    ensures parse(StripUnit(text, route.unit)).Some? ==>
      var x := Scaled(route, ParseValue(route, numText)(parse(StripUnit(text, route.unit)).value), numText);
      && Fits(route.key, Num(x))
      && Get(r.0.settings, route.key) == Num(x)
      && r.0 == UpdateSetting(e, route.key, Num(x), canvas, rng, now)
  {
    var o := OnValueText(text, route.unit, s, parse, ParseValue(route, numText));
    RoutesAreNumeric(route, 0.0);
    match o.sent
    case None => (e, o.slider)
    case Some(x) =>
      RoutesAreNumeric(route, Scaled(route, x, numText));
      VersionsAgreeElsewhere(e, route.key, Num(Scaled(route, x, numText)), canvas, rng, now);
      (UpdateSettingAsWritten(e, route.key, Num(Scaled(route, x, numText)), canvas, rng, now), o.slider)
  }

  /** Moving a route's slider to `position`, through to the page engine.
      The exported copy's `updateSetting` would do the same. */
  function SlideTo(e: Engine, route: Route, position: real, numText: real -> string,
                   canvas: Canvas, rng: nat -> Draw, now: real): (r: Engine)
    requires Routed(route)
    ensures Get(r.settings, route.key) == Num(Scaled(route, ParseValue(route, numText)(position), numText))
    ensures Fits(route.key, Num(Scaled(route, ParseValue(route, numText)(position), numText)))
    ensures r == UpdateSetting(e, route.key, Num(Scaled(route, ParseValue(route, numText)(position), numText)),
      canvas, rng, now)
  {
    var x := Scaled(route, ParseValue(route, numText)(position), numText);
    RoutesAreNumeric(route, x);
    VersionsAgreeElsewhere(e, route.key, Num(x), canvas, rng, now);
    UpdateSettingAsWritten(e, route.key, Num(x), canvas, rng, now)
  }

  // --------------------------------------------------- animation speed

  /** The animation-speed slider's handler: position `p` sends `p / 100`. */
  function SpeedFromSlider(p: real): (r: real)
    ensures r * 100.0 == p
  {
    p / 100.0
  }

  /** The animation-speed text box: no unit is removed; the typed number
      is sent as it is, and a hundred times it is assigned to the slider
      when that is within the handler's bounds (upper bound falling back
      to 1000). */
  function OnSpeedText(text: string, s: Slider, parse: Parse): (r: Outcome)
    ensures parse(text).None? ==> r == Outcome(s, None)
    ensures parse(text).Some? ==> r.sent == parse(text)
  {
    Accept(parse(text), s, parse, 1000.0, t => t * 100.0, t => t)
  }

  // ------------------------------------------------ hue rotation speed

  /** The hue-rotation text box: the typed number is sent as it is, and it
      is assigned to the slider when within the handler's bounds (upper
      bound falling back to 10). Its slider sends its position unchanged. */
  function OnRotationText(text: string, s: Slider, parse: Parse): (r: Outcome)
    ensures parse(text).None? ==> r == Outcome(s, None)
    ensures parse(text).Some? ==> r.sent == parse(text)
  {
    Accept(parse(text), s, parse, 10.0, t => t, t => t)
  }

  /** Typing into the hue-rotation text box, through to the page's engine
      (`AsWritten`) or the exported copy (`Corrected`). The typed number
      becomes the rotation speed; only the page's engine keeps the
      accumulated rotation when that number is 0. */
  function TypeRotation(ver: Version, e: Engine, text: string, s: Slider, parse: Parse,
                        canvas: Canvas, rng: nat -> Draw, now: real): (r: (Engine, Slider))
    ensures parse(text).None? ==> r == (e, s)
    ensures parse(text).Some? ==> r.0.settings.hueRotationSpeed == parse(text).value
    ensures parse(text).Some? ==> r.0.blobs == e.blobs && r.0.time == e.time
    ensures ver == AsWritten ==> r.0.settings.animatedHue == e.settings.animatedHue
    ensures ver == Corrected && parse(text) == Some(0.0) ==> r.0.settings.animatedHue == 0.0
    ensures parse(text).Some? && parse(text).value != 0.0 ==>
      r.0.settings.animatedHue == e.settings.animatedHue
  {
    var o := OnRotationText(text, s, parse);
    match o.sent
    case None => (e, o.slider)
    case Some(x) => (UpdateSettingIn(ver, e, HueRotationSpeed, Num(x), canvas, rng, now), o.slider)
  }

  // ------------------------------------------------------ getActualValue

  /** `getActualValue`: the number typed in the text box, if it has a
      non-empty text that parses once the unit is removed; otherwise the
      slider's position; 0 when neither element exists. */
  function GetActualValue(text: Option<string>, slider: Option<Slider>, unit: string,
                          parse: Parse): (r: real)
    ensures text.Some? && text.value != [] && parse(StripUnit(text.value, unit)).Some? ==>
      r == parse(StripUnit(text.value, unit)).value
    ensures (text.None? || text.value == [] || parse(StripUnit(text.value, unit)).None?) ==>
      r == (if slider.Some? then slider.value.value else 0.0)
  {
    var typed := if text.Some? && text.value != [] then parse(StripUnit(text.value, unit)) else None;
    if typed.Some? then typed.value
    else if slider.Some? then slider.value.value
    else 0.0
  }

  // ---------------------------------------------------------- properties

  /** A text that is not a number reaches nothing: the slider stays put and
      the engine is left exactly as it was. */
  lemma NonNumericTextChangesNothing(e: Engine, route: Route, text: string, s: Slider, parse: Parse,
                                     numText: real -> string, canvas: Canvas, rng: nat -> Draw, now: real)
    requires Routed(route) && parse(StripUnit(text, route.unit)).None?
    ensures TypeInto(e, route, text, s, parse, numText, canvas, rng, now) == (e, s)
  {
  }

  /** A number typed into a routed text box becomes the setting, scaled by
      the route: percentages arrive divided by 100, everything but the
      gradient count unchanged, and a gradient count that is a natural
      number in plain decimal unchanged too. This holds whether or not the
      number is within the slider's bounds. */
  lemma TypedNumberReachesSetting(e: Engine, route: Route, text: string, s: Slider, parse: Parse,
                                  numText: real -> string, canvas: Canvas, rng: nat -> Draw, now: real, v: real)
    requires Routed(route) && parse(StripUnit(text, route.unit)) == Some(v)
    ensures var (e', _) := TypeInto(e, route, text, s, parse, numText, canvas, rng, now);
      && (route.scaling == Percent ==> Get(e'.settings, route.key) == Num(v / 100.0))
      && (route.scaling == Raw ==> Get(e'.settings, route.key) == Num(v))
      && (route.scaling == Whole && IsNumberText(numText) && IsPlainNat(v) ==>
            Get(e'.settings, route.key) == Num(v))
  {
    var o := OnValueText(text, route.unit, s, parse, ParseValue(route, numText));
    assert o.sent == Some(ParseValue(route, numText)(v));
    if route.scaling == Whole {
      WholePartOfPlain(v, numText);
    }
  }

  /** The gradient count a typed number sets: the number whose digits the
      number's text starts with, read twice by `parseInt` (once by the
      handler, once by the callback). */
  lemma TypedCountReadsLeadingDigits(e: Engine, route: Route, text: string, s: Slider, parse: Parse,
                                     numText: real -> string, canvas: Canvas, rng: nat -> Draw, now: real,
                                     v: real, d: string, rest: string)
    requires Routed(route) && route.scaling == Whole && parse(StripUnit(text, route.unit)) == Some(v)
    requires IsNumberText(numText)
    requires numText(v) == d + rest && d != [] && AllDigits(d) && (rest == [] || !IsDigit(rest[0]))
    requires (DecimalValue(d) as real) < PlainLimit
    ensures var (e', _) := TypeInto(e, route, text, s, parse, numText, canvas, rng, now);
      Get(e'.settings, route.key) == Num(DecimalValue(d) as real)
  {
    var o := OnValueText(text, route.unit, s, parse, ParseValue(route, numText));
    assert o.sent == Some(ParseValue(route, numText)(v));
    WholePartReadsLeadingDigits(v, numText, d, rest);
    WholePartOfPlain(DecimalValue(d) as real, numText);
  }

  /** Typing 0.0000005 as the gradient count: JavaScript prints the number
      as `"5e-7"`, so `parseInt` reads 5 and five gradients are asked for,
      not the number's integer part 0. */
  lemma TinyCountExample(e: Engine, route: Route, text: string, s: Slider, parse: Parse,
                         numText: real -> string, canvas: Canvas, rng: nat -> Draw, now: real)
    requires Routed(route) && route.scaling == Whole && parse(StripUnit(text, route.unit)) == Some(0.0000005)
    requires IsNumberText(numText) && numText(0.0000005) == "5e-7"
    ensures var (e', _) := TypeInto(e, route, text, s, parse, numText, canvas, rng, now);
      Get(e'.settings, route.key) == Num(5.0) && Trunc(0.0000005) == 0
  {
    assert "5e-7" == "5" + "e-7";
    assert DecimalValue("5") == 5 by { assert "5"[..0] == []; }
    TypedCountReadsLeadingDigits(e, route, text, s, parse, numText, canvas, rng, now, 0.0000005, "5", "e-7");
  }

  /** Applying `parseInt` twice, as the gradient count's handler and
      callback do, gives the same whole number as applying it once, for a
      result that is a natural number below 10^21. */
  lemma ParseIntTwice(x: real, numText: real -> string)
    requires IsNumberText(numText) && 0.0 <= WholePart(x, numText) < PlainLimit
    ensures WholePart(WholePart(x, numText), numText) == WholePart(x, numText)
  {
    WholePartOfPlain(WholePart(x, numText), numText);
  }

  /** A typed number outside the handler's bounds leaves the slider where
      it was; one inside is assigned to the slider, which keeps the number
      its own bounds and step make of it. */
  lemma SliderFollowsOnlyInRange(text: string, unit: string, s: Slider, parse: Parse,
                                 parseValue: real -> real, v: real)
    requires parse(StripUnit(text, unit)) == Some(v)
    ensures var r := OnValueText(text, unit, s, parse, parseValue);
      && (InRange(v, s, parse, 100.0) ==> r.slider == s.(value := Store(v, s, parse)))
      && (!InRange(v, s, parse, 100.0) ==> r.slider == s)
  {
  }

  /** A slider whose position is within the element's own bounds stays
      within them, whatever is typed into its text box. */
  lemma TextKeepsSliderInRange(text: string, unit: string, s: Slider, parse: Parse,
                               parseValue: real -> real)
    requires InBounds(s.value, s, parse)
    ensures var r := OnValueText(text, unit, s, parse, parseValue);
      InBounds(r.slider.value, r.slider, parse)
  {
  }

  /** A zero or unreadable `max` attribute does not mean 0: the bound falls
      back to 100, so a slider with `max="0"` still accepts 50. */
  lemma ZeroMaxFallsBack(s: Slider, parse: Parse)
    requires parse(s.max) == Some(0.0) && parse(s.min) == Some(0.0)
    ensures InRange(50.0, s, parse, 100.0)
  {
  }

  /** The element itself, though, takes `max="0"` at its word: the handler
      passes 50 on to the setting while the slider, clamped to its own
      maximum, stays at 0. */
  lemma ZeroMaxHoldsSliderAtZero(text: string, unit: string, s: Slider, parse: Parse,
                                 parseValue: real -> real)
    requires parse(s.max) == Some(0.0) && parse(s.min) == Some(0.0)
    requires parse(StripUnit(text, unit)) == Some(50.0)
    ensures var r := OnValueText(text, unit, s, parse, parseValue);
      r.sent == Some(parseValue(50.0)) && r.slider.value == 0.0
  {
  }

  /** The handler's bounds are not the element's: with `min="5"`, `max="0"`
      and `step="10"` the handler's upper bound falls back to 100 and
      accepts 100, while the element ignores a maximum below its minimum
      and rounds 100 to 105, past the handler's bound. */
  lemma SliderCanLeaveHandlerBounds(text: string, unit: string, s: Slider, parse: Parse,
                                    parseValue: real -> real)
    requires parse(s.min) == Some(5.0) && parse(s.max) == Some(0.0)
    requires parse(s.step) == Some(10.0) && s.step != "any"
    requires parse(StripUnit(text, unit)) == Some(100.0)
    ensures var r := OnValueText(text, unit, s, parse, parseValue);
      r.slider.value == 105.0 && !InRange(r.slider.value, s, parse, 100.0)
  {
    assert NearestSteps(100.0, 5.0, 10.0).count == 10;
  }

  /** `getActualValue` reads what the text handler acted on: the number it
      passed on when the text parses, and otherwise the slider's position. */
  lemma ActualValueFollowsHandler(text: string, unit: string, s: Slider, parse: Parse)
    requires text != []
    ensures var r := OnValueText(text, unit, s, parse, x => x);
      GetActualValue(Some(text), Some(r.slider), unit, parse)
        == (if r.sent.Some? then r.sent.value else s.value)
  {
  }

  lemma {:induction false} TrimDigits(d: string)
    requires d != [] && AllDigits(d)
    ensures Trim(d) == d
  {
    assert !IsSpace(d[0]);
    assert TrimStart(d) == d;
    assert !IsSpace(d[|d| - 1]);
  }

  /** The text a slider writes into its text box reads back as the slider's
      position: for a whole-number position, removing a unit that does not
      start with a digit leaves exactly the position's digits. */
  lemma SliderTextRoundTrip(n: nat, unit: string, s: Slider, parse: Parse,
                            numText: real -> string)
    requires IsNumberText(numText) && (n as real) < PlainLimit
    requires unit != [] && !IsDigit(unit[0])
    requires parse(Decimal(n)) == Some(n as real)
    ensures GetActualValue(Some(SliderText(n as real, unit, numText)), Some(s), unit, parse)
      == n as real
  {
    assert IsPlainNat(n as real);
    assert numText(n as real) == Decimal(n);
    ReplaceUnitSuffix(Decimal(n), unit);
    TrimDigits(Decimal(n));
    assert StripUnit(Decimal(n) + unit, unit) == Decimal(n);
  }

  /** The two speed handlers agree when the typed speed's position is one
      the slider can hold exactly: the slider's new position then stands
      for the very speed the text box sent. */
  lemma SpeedHandlersAgree(text: string, s: Slider, parse: Parse, t: real)
    requires parse(text) == Some(t) && InRange(t * 100.0, s, parse, 1000.0)
    requires Store(t * 100.0, s, parse) == t * 100.0
    ensures var r := OnSpeedText(text, s, parse);
      r.sent == Some(SpeedFromSlider(r.slider.value))
  {
  }

  /** Typing a speed whose hundredfold is not a whole number: with the
      default step of 1, 0.555 puts the slider at 56, whose own handler
      would send 0.56 where the text box sent 0.555. */
  lemma SpeedOffStepExample(text: string, s: Slider, parse: Parse)
    requires parse(s.min) == Some(0.0) && parse(s.max) == Some(1000.0)
    requires parse(s.step).None? && s.step != "any"
    requires parse(text) == Some(0.555)
    ensures var r := OnSpeedText(text, s, parse);
      && r.sent == Some(0.555)
      && r.slider.value == 56.0
      && SpeedFromSlider(r.slider.value) == 0.56
  {
    assert NearestSteps(55.5, 0.0, 1.0).count == 56;
  }

  /** On the page, typing 0 into the hue-rotation box stops the rotation
      but leaves the accumulated rotation on the canvas. */
  lemma TypingZeroRotationKeepsHue(e: Engine, text: string, s: Slider, parse: Parse,
                                   canvas: Canvas, rng: nat -> Draw, now: real)
    requires parse(text) == Some(0.0)
    ensures var (e', _) := TypeRotation(AsWritten, e, text, s, parse, canvas, rng, now);
      e'.settings.hueRotationSpeed == 0.0 && e'.settings.animatedHue == e.settings.animatedHue
  {
  }

  /** Corrected, typing 0 into the hue-rotation box stops the rotation and
      clears the accumulated rotation. */
  lemma TypingZeroRotationClearsHue(e: Engine, text: string, s: Slider, parse: Parse,
                                   canvas: Canvas, rng: nat -> Draw, now: real)
    requires parse(text) == Some(0.0)
    ensures var (e', _) := TypeRotation(Corrected, e, text, s, parse, canvas, rng, now);
      e'.settings.hueRotationSpeed == 0.0 && e'.settings.animatedHue == 0.0
  {
  }
}
