/** The engine's settings object (canvas-animation.js:14-51) as a record
    with one field per key, read and written by key the way the source's
    `this.settings[key]` is. */
module Settings {

  /** The keys of the settings object. Every caller of `updateSetting`
      passes one of these; `Name` gives the key's text. */
  datatype Key = Opacity | Blur | Brightness | Contrast | Saturation | Hue | Scale
    | GradientSizeMultiplier | GradientSizeMode | PositionX | PositionY | BlendMode
    | GradientCount | GradientSpeed | ColorIntensity | BackgroundColor | GradientFade
    | HueRotationSpeed | AnimatedHue | HueStart | HueEnd | HueSeparation
    | EvenlySpacedColors | SaturationMin | SaturationMax | LightnessMin | LightnessMax
    | ColorMode | PaletteColors | FadeoutMode | FadeoutTime | RadialGradientsEnabled
    | LineGradientsEnabled | LineGradientAngle | LineGradientLength | LineGradientWidth

  /** The text of a key, as the source spells it. */
  function Name(k: Key): string {
    match k
    case Opacity => "opacity"
    case Blur => "blur"
    case Brightness => "brightness"
    case Contrast => "contrast"
    case Saturation => "saturation"
    case Hue => "hue"
    case Scale => "scale"
    case GradientSizeMultiplier => "gradientSizeMultiplier"
    case GradientSizeMode => "gradientSizeMode"
    case PositionX => "positionX"
    case PositionY => "positionY"
    case BlendMode => "blendMode"
    case GradientCount => "gradientCount"
    case GradientSpeed => "gradientSpeed"
    case ColorIntensity => "colorIntensity"
    case BackgroundColor => "backgroundColor"
    case GradientFade => "gradientFade"
    case HueRotationSpeed => "hueRotationSpeed"
    case AnimatedHue => "animatedHue"
    case HueStart => "hueStart"
    case HueEnd => "hueEnd"
    case HueSeparation => "hueSeparation"
    case EvenlySpacedColors => "evenlySpacedColors"
    case SaturationMin => "saturationMin"
    case SaturationMax => "saturationMax"
    case LightnessMin => "lightnessMin"
    case LightnessMax => "lightnessMax"
    case ColorMode => "colorMode"
    case PaletteColors => "paletteColors"
    case FadeoutMode => "fadeoutMode"
    case FadeoutTime => "fadeoutTime"
    case RadialGradientsEnabled => "radialGradientsEnabled"
    case LineGradientsEnabled => "lineGradientsEnabled"
    case LineGradientAngle => "lineGradientAngle"
    case LineGradientLength => "lineGradientLength"
    case LineGradientWidth => "lineGradientWidth"
  }

  /** The JavaScript values the control panel stores: numbers, strings,
      booleans and the palette array. */
  datatype Value = Num(n: real) | Str(s: string) | Flag(b: bool) | List(cs: seq<string>)

  /** A value of the JavaScript type the key holds. */
  predicate Fits(k: Key, v: Value) {
    match k
    case Opacity | Blur | Brightness | Contrast | Saturation | Hue | Scale
      | GradientSizeMultiplier | PositionX | PositionY | GradientCount | GradientSpeed
      | ColorIntensity | GradientFade | HueRotationSpeed | AnimatedHue | HueStart | HueEnd
      | HueSeparation | SaturationMin | SaturationMax | LightnessMin | LightnessMax
      | FadeoutTime | LineGradientAngle | LineGradientLength | LineGradientWidth => v.Num?
    case GradientSizeMode | BlendMode | BackgroundColor | ColorMode | FadeoutMode => v.Str?
    case EvenlySpacedColors | RadialGradientsEnabled | LineGradientsEnabled => v.Flag?
    case PaletteColors => v.List?
  }

  /** The settings, one field per key, under the source's names. */
  datatype Config = Config(
    opacity: real,
    blur: real,
    brightness: real,
    contrast: real,
    saturation: real,
    hue: real,
    scale: real,
    gradientSizeMultiplier: real,
    gradientSizeMode: string,
    positionX: real,
    positionY: real,
    blendMode: string,
    gradientCount: real,
    gradientSpeed: real,
    colorIntensity: real,
    backgroundColor: string,
    gradientFade: real,
    hueRotationSpeed: real,
    animatedHue: real,
    hueStart: real,
    hueEnd: real,
    hueSeparation: real,
    evenlySpacedColors: bool,
    saturationMin: real,
    saturationMax: real,
    lightnessMin: real,
    lightnessMax: real,
    colorMode: string,
    paletteColors: seq<string>,
    fadeoutMode: string,
    fadeoutTime: real,
    radialGradientsEnabled: bool,
    lineGradientsEnabled: bool,
    lineGradientAngle: real,
    lineGradientLength: real,
    lineGradientWidth: real)

  /** `settings[k]`. */
  function Get(c: Config, k: Key): (v: Value)
    ensures Fits(k, v)
  {
    match k
    case Opacity => Num(c.opacity)
    case Blur => Num(c.blur)
    case Brightness => Num(c.brightness)
    case Contrast => Num(c.contrast)
    case Saturation => Num(c.saturation)
    case Hue => Num(c.hue)
    case Scale => Num(c.scale)
    case GradientSizeMultiplier => Num(c.gradientSizeMultiplier)
    case GradientSizeMode => Str(c.gradientSizeMode)
    case PositionX => Num(c.positionX)
    case PositionY => Num(c.positionY)
    case BlendMode => Str(c.blendMode)
    case GradientCount => Num(c.gradientCount)
    case GradientSpeed => Num(c.gradientSpeed)
    case ColorIntensity => Num(c.colorIntensity)
    case BackgroundColor => Str(c.backgroundColor)
    case GradientFade => Num(c.gradientFade)
    case HueRotationSpeed => Num(c.hueRotationSpeed)
    case AnimatedHue => Num(c.animatedHue)
    case HueStart => Num(c.hueStart)
    case HueEnd => Num(c.hueEnd)
    case HueSeparation => Num(c.hueSeparation)
    case EvenlySpacedColors => Flag(c.evenlySpacedColors)
    case SaturationMin => Num(c.saturationMin)
    case SaturationMax => Num(c.saturationMax)
    case LightnessMin => Num(c.lightnessMin)
    case LightnessMax => Num(c.lightnessMax)
    case ColorMode => Str(c.colorMode)
    case PaletteColors => List(c.paletteColors)
    case FadeoutMode => Str(c.fadeoutMode)
    case FadeoutTime => Num(c.fadeoutTime)
    case RadialGradientsEnabled => Flag(c.radialGradientsEnabled)
    case LineGradientsEnabled => Flag(c.lineGradientsEnabled)
    case LineGradientAngle => Num(c.lineGradientAngle)
    case LineGradientLength => Num(c.lineGradientLength)
    case LineGradientWidth => Num(c.lineGradientWidth)
  }

  /** `settings[k] = v`, for a value of the key's type: the key reads
      back the value, and every other field keeps its value. */
  function Set(c: Config, k: Key, v: Value): (r: Config)
    requires Fits(k, v)
    ensures Get(r, k) == v
    ensures k != Opacity ==> r.opacity == c.opacity
    ensures k != Blur ==> r.blur == c.blur
    ensures k != Key.Brightness ==> r.brightness == c.brightness
    ensures k != Key.Contrast ==> r.contrast == c.contrast
    ensures k != Saturation ==> r.saturation == c.saturation
    ensures k != Hue ==> r.hue == c.hue
    ensures k != Scale ==> r.scale == c.scale
    ensures k != GradientSizeMultiplier ==> r.gradientSizeMultiplier == c.gradientSizeMultiplier
    ensures k != GradientSizeMode ==> r.gradientSizeMode == c.gradientSizeMode
    ensures k != PositionX ==> r.positionX == c.positionX
    ensures k != PositionY ==> r.positionY == c.positionY
    ensures k != BlendMode ==> r.blendMode == c.blendMode
    ensures k != GradientCount ==> r.gradientCount == c.gradientCount
    ensures k != GradientSpeed ==> r.gradientSpeed == c.gradientSpeed
    ensures k != ColorIntensity ==> r.colorIntensity == c.colorIntensity
    ensures k != BackgroundColor ==> r.backgroundColor == c.backgroundColor
    ensures k != GradientFade ==> r.gradientFade == c.gradientFade
    ensures k != HueRotationSpeed ==> r.hueRotationSpeed == c.hueRotationSpeed
    ensures k != AnimatedHue ==> r.animatedHue == c.animatedHue
    ensures k != HueStart ==> r.hueStart == c.hueStart
    ensures k != HueEnd ==> r.hueEnd == c.hueEnd
    ensures k != HueSeparation ==> r.hueSeparation == c.hueSeparation
    ensures k != EvenlySpacedColors ==> r.evenlySpacedColors == c.evenlySpacedColors
    ensures k != SaturationMin ==> r.saturationMin == c.saturationMin
    ensures k != SaturationMax ==> r.saturationMax == c.saturationMax
    ensures k != LightnessMin ==> r.lightnessMin == c.lightnessMin
    ensures k != LightnessMax ==> r.lightnessMax == c.lightnessMax
    ensures k != ColorMode ==> r.colorMode == c.colorMode
    ensures k != PaletteColors ==> r.paletteColors == c.paletteColors
    ensures k != FadeoutMode ==> r.fadeoutMode == c.fadeoutMode
    ensures k != FadeoutTime ==> r.fadeoutTime == c.fadeoutTime
    ensures k != RadialGradientsEnabled ==> r.radialGradientsEnabled == c.radialGradientsEnabled
    ensures k != LineGradientsEnabled ==> r.lineGradientsEnabled == c.lineGradientsEnabled
    ensures k != LineGradientAngle ==> r.lineGradientAngle == c.lineGradientAngle
    ensures k != LineGradientLength ==> r.lineGradientLength == c.lineGradientLength
    ensures k != LineGradientWidth ==> r.lineGradientWidth == c.lineGradientWidth
  {
    match k
    case Opacity => c.(opacity := v.n)
    case Blur => c.(blur := v.n)
    case Brightness => c.(brightness := v.n)
    case Contrast => c.(contrast := v.n)
    case Saturation => c.(saturation := v.n)
    case Hue => c.(hue := v.n)
    case Scale => c.(scale := v.n)
    case GradientSizeMultiplier => c.(gradientSizeMultiplier := v.n)
    case GradientSizeMode => c.(gradientSizeMode := v.s)
    case PositionX => c.(positionX := v.n)
    case PositionY => c.(positionY := v.n)
    case BlendMode => c.(blendMode := v.s)
    case GradientCount => c.(gradientCount := v.n)
    case GradientSpeed => c.(gradientSpeed := v.n)
    case ColorIntensity => c.(colorIntensity := v.n)
    case BackgroundColor => c.(backgroundColor := v.s)
    case GradientFade => c.(gradientFade := v.n)
    case HueRotationSpeed => c.(hueRotationSpeed := v.n)
    case AnimatedHue => c.(animatedHue := v.n)
    case HueStart => c.(hueStart := v.n)
    case HueEnd => c.(hueEnd := v.n)
    case HueSeparation => c.(hueSeparation := v.n)
    case EvenlySpacedColors => c.(evenlySpacedColors := v.b)
    case SaturationMin => c.(saturationMin := v.n)
    case SaturationMax => c.(saturationMax := v.n)
    case LightnessMin => c.(lightnessMin := v.n)
    case LightnessMax => c.(lightnessMax := v.n)
    case ColorMode => c.(colorMode := v.s)
    case PaletteColors => c.(paletteColors := v.cs)
    case FadeoutMode => c.(fadeoutMode := v.s)
    case FadeoutTime => c.(fadeoutTime := v.n)
    case RadialGradientsEnabled => c.(radialGradientsEnabled := v.b)
    case LineGradientsEnabled => c.(lineGradientsEnabled := v.b)
    case LineGradientAngle => c.(lineGradientAngle := v.n)
    case LineGradientLength => c.(lineGradientLength := v.n)
    case LineGradientWidth => c.(lineGradientWidth := v.n)
  }

    /** The constructor's initial settings. */
  function Defaults(): Config {
    Config(
      opacity := 1.0,
      blur := 0.0,
      brightness := 100.0,
      contrast := 100.0,
      saturation := 100.0,
      hue := 0.0,
      scale := 1.0,
      gradientSizeMultiplier := 1.0,
      gradientSizeMode := "base",
      positionX := 0.5,
      positionY := 0.5,
      blendMode := "normal",
      gradientCount := 5.0,
      gradientSpeed := 0.5,
      colorIntensity := 0.6,
      backgroundColor := "#000000",
      gradientFade := 0.5,
      hueRotationSpeed := 0.0,
      animatedHue := 0.0,
      hueStart := 200.0,
      hueEnd := 280.0,
      hueSeparation := 100.0,
      evenlySpacedColors := true,
      saturationMin := 60.0,
      saturationMax := 100.0,
      lightnessMin := 20.0,
      lightnessMax := 50.0,
      colorMode := "hue-range",
      paletteColors := ["#4a90e2", "#5ba3f5", "#6bb6ff", "#7bc9ff", "#8bdaff"],
      fadeoutMode := "none",
      fadeoutTime := 10.0,
      radialGradientsEnabled := true,
      lineGradientsEnabled := false,
      lineGradientAngle := 0.0,
      lineGradientLength := 200.0,
      lineGradientWidth := 100.0)
  }
}
