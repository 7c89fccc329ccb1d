# Animated gradient background: a Dafny model

This project models the logic of an animated gradient background in Dafny
and proves properties about it. The page has three scripts:

- the gradient engine, which animates a pool of coloured blobs on a canvas;
- the control panel, whose inputs write the engine's settings;
- the SVG pattern generator, which draws a tiling pattern over the canvas.

Everything is modelled as pure functions over immutable records. The
browser's randomness, trigonometry, square root, clock and number-to-text
conversion are parameters.

Modules, one per file:

- `Wrappers` (wrappers.dfy): `Option`.
- `JsMath` (jsmath.dfy): the JavaScript arithmetic the scripts rely on.
  This is `Math.min`/`max`, rounding toward zero, `Math.ceil`,
  the truncating `%` on numbers, and `lo + random * (hi - lo)`.
- `Text` (text.dfy): strings.
  - Decimal digits, written and read back.
  - `parseInt` of a number's text: its sign and leading digits.
  - Hex digits.
  - `trim`.
  - `String.prototype.replace` with a string pattern, which replaces the
    first occurrence only.
- `Scan` (scan.dfy): the two regular expressions the scripts use.
  - `hsl\((\d+),\s*(\d+)%,\s*(\d+)%\)` and `rgba\((\d+),\s*(\d+),\s*(\d+)`
    are written as token lists.
  - A small matcher handles them; the matcher is greedy. For these token
    classes greedy matching agrees with the regular-expression semantics.
  - An unanchored search is built on the matcher.
- `Settings` (settings.dfy): the engine's settings object.
  - It has one field per key, under the source's names, plus the defaults.
  - `Get` and `Set` read and write by key.
- `Colors` (colors.dfy): a blob colour is either a literal CSS string or
  `hsl(h, s%, l%)` with real components.
  - The string a colour becomes is built with the number-to-text
    conversion, which is a parameter.
  - That conversion has one stated property: whole numbers print as plain
    digits, and any other number prints with a `.`, `e` or `-` after its
    leading digits.
- `Blobs` (blobs.dfy): `createGradients` and `generateColor`.
- `Motion` (motion.dfy): the per-frame update, `updateGradients` and
  `applyRepulsion`:
  - orbiting positions;
  - colour synthesis;
  - pulsing opacity;
  - order-dependent repulsion;
  - edge wrap-around.
- `Compositor` (compositor.dfy): the decisions `draw` and `applyFilters`
  make:
  - the fade-out pass and its alpha;
  - three-stop or two-stop gradients;
  - the stretched line gradient;
  - the layer list;
  - the CSS filter text.
- `Animation` (engine.dfy): the engine as a state machine.
  - The state is the settings, blobs, clock and fade-out timestamp.
  - `animate` steps it once per frame.
  - `updateSetting` is modelled twice: as written in the page's engine,
    and corrected the way the exported copy of the engine has it.
- `Controls` (controls.dfy): the control panel's numeric inputs.
  - The slider and text-box handlers of `setupValueInput`.
  - What a range input keeps when a handler assigns a number to its
    `value`. This follows the value sanitization of the HTML Standard's
    "Range state (`type=range`)": the number is clamped to the element's
    own minimum and maximum and rounded to its step.
  - The animation-speed and hue-rotation handlers.
  - `getActualValue`.
  - The table of inputs that feed the engine, with each input's unit and
    its scaling (percent, raw or whole number).
- `Patterns` (patterns.dfy): the SVG pattern generator.
  - `hexToRgb`.
  - The pattern colour `rgba(r, g, b, 0.5)`.
  - The 15 tile generators, as lists of shapes.
  - The `generatePattern` dispatch.

Loops with a real-valued step, such as `for (i = 0; i <= size; i += size / 10)`,
are modelled by one function, `Patterns.Walk`. It returns the values the
counter takes. The proofs count its iterations exactly.

Setting the hue-rotation speed to 0 is meant to reset the animated hue:
the comment at canvas-animation.js:455 says so, and the exported copy of
the engine does it (controls.js:1239-1243). The page's engine never reaches
that branch; see Findings. The control panel drives the page's engine, so
the modelled controls use the page's `updateSetting`.

The repulsion pass moves the blobs one after the other, in index order, and
each blob sees the positions the earlier ones have moved to
(canvas-animation.js:207-277). The model keeps that order. Two blobs that
overlap at the start of the pass may no longer overlap when the second
takes its turn.

## Model

| member | source | states |
|---|---|---|
| Settings.Set | canvas-animation.js:435 | Storing `v` under key `k` makes `settings[k]` read back `v`. Every other setting keeps its value. |
| Animation.Resize | canvas-animation.js:67-78 | The viewport is the larger of the document's and the window's size on each axis. The canvas's `width` and `height` hold the viewport's size times the pixel ratio, as whole device pixels. The pixel ratio is `devicePixelRatio`, or 1 when that is 0. |
| Blobs.AttributeSize | canvas-animation.js:73-74 | Assigning a number to `width` or `height` drops its fraction toward zero and keeps the result modulo 2^32. A result above 2^31 - 1 gives the attribute's default. For a number in [0, 2^31) the attribute is within one pixel below it. |
| Animation.DevicePixels | canvas-animation.js:73-74 | The stored width, read back in CSS pixels, is at most the CSS size and falls short of it by less than one device pixel. |
| Animation.ResizeFitsWidth | canvas-animation.js:67-78 | After `resize`, the drawing width `canvas.width / dpr` is at most the viewport's width and within `1 / dpr` of it, when the product fits the attribute. |
| Animation.ResizeFitsHeight | canvas-animation.js:67-78 | The same for the height. |
| Animation.ResizeExample | canvas-animation.js:73 | A 1366-pixel viewport at ratio 1.25 gets a 1707-pixel backing store, not 1707.5. The drawing area is then 1365.6 CSS pixels wide. |
| Animation.Start | canvas-animation.js:3-65 | Just before the first frame, which the constructor runs at once, a new engine has the default settings, a clock at 0 and five blobs. Their hues are 200, 220, 240, 260 and 280: the default range 200 to 280, evenly spaced. |
| Animation.Construct | canvas-animation.js:3-65 | The constructed engine has already drawn its first frame. Its clock is 0.0005, its settings are the defaults and its fade-out timestamp is the start time. It has five hsl blobs, and blob i has a hue within 20 degrees of 200 + 20i. |
| Animation.NextHue | canvas-animation.js:423-427 | With a positive rotation speed, `animatedHue` advances by speed·360/60 degrees modulo whole turns, and stays in [0, 360) when it starts there. With speed 0 or below it is left alone. |
| Animation.Step | canvas-animation.js:419-432 | One frame advances the clock by 0.0005, changes no setting but `animatedHue`, keeps the number of blobs and leaves the fade-out timestamp alone. |
| Animation.Animate | canvas-animation.js:419-432 | A frame advances the clock by 0.0005 and, among the settings, only `animatedHue`. It keeps the blob count and the fade-out timestamp, and gives blob i its frame colour at the new time. The picture has the background and blend mode of the settings. It fades exactly when the fade-out pass runs. Its filter is `none` exactly when brightness, contrast and saturation are 100 and the static plus advanced hue is 0. With only radial gradients on, there is one radial layer per blob, at the moved blob's position. |
| Animation.RunInvariant | canvas-animation.js:419-432 | After any number of frames: `animatedHue` is still in [0, 360); no other setting has changed; the clock has advanced n times 0.0005; and the blob count is unchanged. |
| Animation.SizingResponse | canvas-animation.js:436-449 | Among the sizing keys, new blobs are created exactly for the count, colour mode, palette, separation, even spacing and size mode. The size multiplier recreates them only in `base` mode. |
| Animation.LateResponse | canvas-animation.js:452-459 | The fade-out keys restart the fade timer. Setting the rotation speed to exactly 0 resets the animated hue. No later branch creates blobs. |
| Animation.RespondAsWritten | canvas-animation.js:434-461 | The page's dispatch recreates blobs exactly for the regenerating keys, and never resets the animated hue. |
| Animation.Respond | controls.js:1225-1244 | The exported engine's dispatch recreates blobs exactly for the regenerating keys. It restarts the fade timer exactly for the fade-out keys. It resets the hue exactly when the rotation speed is set to 0. |
| Animation.UpdateSettingAsWritten | canvas-animation.js:434-461 | The page's `updateSetting` stores the value under its key and keeps the clock. It changes `animatedHue` only when that key itself is written. It recreates the blobs from the new settings exactly for the regenerating keys and keeps them otherwise. It restarts the fade timer exactly for the fade-out keys. |
| Animation.UpdateSettingIn | canvas-animation.js:434-461 | Either version of `updateSetting` stores the value under its key and keeps the clock. Both give the page's result for every update except a rotation speed of 0. |
| Animation.UpdateSetting | controls.js:1225-1244 | Only `settings[k]` is written, except that stopping the rotation also zeroes `animatedHue`. Blobs are regenerated from the new settings exactly for the regenerating keys and kept otherwise. The fade timer restarts exactly for the fade-out keys. |
| Animation.ResponsesAgree | canvas-animation.js:434-461 | The two dispatches agree on every key and value except a rotation speed of 0. |
| Animation.VersionsAgreeElsewhere | canvas-animation.js:434-461 | The page's and the exported `updateSetting` produce the same engine for every update except stopping the rotation. |
| Animation.StoppingRotationKeepsHue | canvas-animation.js:450-459 | As written, setting the rotation speed to 0 leaves `animatedHue` where it was. The `hue` prefix branch takes the key, so the reset branch never runs. |
| Animation.FrozenRotationExample | canvas-animation.js:450-459 | As written, stopping the rotation at 90 degrees leaves a `hue-rotate(90deg)` filter on the canvas. |
| Animation.StoppingRotationClearsHue | controls.js:1239-1243 | Corrected, stopping the rotation zeroes `animatedHue`. With no static hue, no hue-rotate filter remains. |
| Animation.SameColor | canvas-animation.js:102-126 | A blob's creation colour depends only on the count, the colour mode, the palette and the hue, saturation and lightness ranges. |
| Animation.SameBlob | canvas-animation.js:88-98 | A new blob depends only on the colour inputs and the base size multiplier. |
| Animation.SameCreation | canvas-animation.js:80-100 | Two settings that agree on the creation inputs create the same blob pool. |
| Animation.SetKeepsCreationInputs | canvas-animation.js:434-449 | A key that is neither regenerating nor a colour range does not change any input of blob creation. |
| Animation.KeptBlobsStayCurrent | canvas-animation.js:434-451 | When `updateSetting` keeps the blobs, recreating them would give the same pool. Skipping the recreation loses nothing. |
| Animation.FrameColorIgnoresCreationColor | canvas-animation.js:145-183 | Each frame recomputes a blob's colour without reading the colour it was created with, so colour-range changes show on the next frame. |
| Blobs.BlobCount | canvas-animation.js:87 | The loop `i < count` runs the least whole number of times not below `count`, and 0 times for a count of 0 or below. |
| Blobs.GenerateColor | canvas-animation.js:102-126 | With a non-empty palette in palette mode, the colour is a palette entry. Otherwise it is an hsl colour: its saturation and lightness lie between their min and max, and without even spacing its hue lies within the separation range from `hueStart`. |
| Blobs.Spread | canvas-animation.js:89-90 | A random position along an axis lies within the canvas. |
| Blobs.BlobRadius | canvas-animation.js:84-91 | The radius lies in [200·m, 600·m], where m is the multiplier in `base` mode and 1 otherwise. For a positive m it is strictly below 600·m, and in the other modes it lies in [200, 600). |
| Blobs.NewBlob | canvas-animation.js:88-98 | A new blob has `baseIndex` i, opacity in [0.3, 0.7), phase in [0, 2π), speeds in [-0.25, 0.25), a position on the canvas, a radius in range and the colour `generateColor(i)`. |
| Blobs.CreateGradients | canvas-animation.js:80-100 | The pool has `BlobCount(gradientCount)` blobs. Blob i is the blob created with index i. |
| Blobs.PaletteCycles | canvas-animation.js:103-106 | In palette mode, blob colours repeat with the palette's length as period. |
| Blobs.PaletteEntry | canvas-animation.js:103-106 | In palette mode, blob i has palette entry i mod the palette's length. |
| Blobs.EvenHuesStep | canvas-animation.js:113-116 | With even spacing, the first hue is `hueStart`, and adjacent blobs differ by exactly the spacing. |
| Blobs.EvenHuesSpan | canvas-animation.js:109-116 | With even spacing and a whole count, the last blob's hue is `hueStart` plus the separation range. At 100% separation that is `hueEnd`. |
| Blobs.DefaultHues | canvas-animation.js:109-116 | The default settings create five blobs with hues 200, 220, 240, 260 and 280. |
| Colors.HslMatch | canvas-animation.js:318 | A successful match yields three captures, each a non-empty digit run. |
| Colors.PlainHslMatches | canvas-animation.js:318 | An hsl colour with whole components below 10^21 matches. Its captures are those numbers' decimal digits. |
| Colors.FractionalHueUnmatched | canvas-animation.js:318 | An hsl colour whose hue is not a plain whole number never matches. |
| Colors.LiteralWithoutParenUnmatched | canvas-animation.js:318 | A literal colour without `(`, such as every hex palette entry, never matches. |
| Scan.HslRoundTrip | canvas-animation.js:318 | Searching the hsl pattern in `hsl(h, s%, l%)` with digit-run components returns exactly h, s and l. |
| Scan.HslRejectsHue | canvas-animation.js:318 | If the hue text's digit run is followed by anything but a comma, and no component has `(`, the search finds nothing. |
| Scan.SearchNeedsParen | canvas-animation.js:318 | A pattern that starts with `(` never occurs in a text without one. |
| Scan.RgbaRoundTrip | svg-patterns.js:280 | Searching the rgba pattern in `rgba(r, g, b, alpha)` with digit-run channels returns exactly r, g and b, whatever the alpha. |
| Compositor.FadeAmount | canvas-animation.js:388-392 | The per-frame fade is capped at 3%. Intervals up to 4/9 of a second hit the cap. Longer ones fade by 1/(75·interval), strictly between 0 and 3%. |
| Compositor.FadeCap | canvas-animation.js:389-392 | The uncapped per-frame fade times 75·interval is 1. It reaches 3% exactly for intervals up to 4/9 of a second. |
| Compositor.FadeAlpha | canvas-animation.js:286-398 | The fade-out pass runs exactly when the fade mode is not `none` and the blend mode accumulates brightness. For a non-negative fade time, its multiply alpha is in [0.97, 1). |
| Compositor.HslaStops | canvas-animation.js:323-325 | The three hsla stops sit at 0, the fade point and 1, all in the captured colour. They carry the full opacity, then a share of it, then 0. |
| Compositor.Stops | canvas-animation.js:318-329 | A colour whose text matches the hsl pattern gets the three hsla stops of its captured hue, saturation and lightness digits: the blob's opacity at the centre, `opacity * (1 - fade)` at the fade point, 0 at the rim. Any other colour gets two stops, the colour then `transparent`. |
| Compositor.StopsFixed | canvas-animation.js:318-329 | Corrected, every hsl colour gets the three hsla stops from its own components. Literal colours keep the two-stop form. |
| Compositor.StopsFixedAgrees | canvas-animation.js:318-329 | For whole-number hsl colours, the corrected stops equal those written. |
| Compositor.StopsFixedFade | canvas-animation.js:321-325 | For an hsl colour, a fade point in [0, 1] and opacity ≥ 0, the corrected stops have non-decreasing offsets and non-increasing alphas, starting at the opacity. |
| Compositor.FractionalHueIgnoresOpacity | canvas-animation.js:318-329 | As written, a blob whose hue is not a whole number is drawn with two stops. These are the same whatever the blob's opacity and the fade point. |
| Compositor.HalfDegreeHueExample | canvas-animation.js:318-329 | As written, `hsl(200.5, 80%, 35%)` is drawn as that colour fading straight to transparent. |
| Compositor.SizeMultiplierAppliedOnce | canvas-animation.js:306-311 | The size multiplier applies exactly once: at creation in `base` mode or at drawing in `drawing` mode. In any other mode it does not apply. |
| Compositor.LineShape | canvas-animation.js:355-357 | The stretched gradient's radius is the larger half-extent. The larger scale factor is 1, and each factor times the radius gives back its half-extent. |
| Compositor.RadialLayer | canvas-animation.js:306-315 | A radial layer is centred on its blob and carries the given stops. Its radius is not negative when the blob radius, scale and drawing multiplier are not. Outside `drawing` mode it is the blob radius times the scale. |
| Compositor.LineLayer | canvas-animation.js:336-381 | A line gradient is drawn exactly when one of its half-extents is positive. It is centred on its blob, rotated by the angle in radians, reaches the larger half-extent and carries the given stops. |
| Compositor.BlobLayers | canvas-animation.js:308-381 | A blob is drawn with at most two layers, all carrying the given stops. The radial one comes first and exactly when radial gradients are on. Without line gradients, all layers are radial. |
| Compositor.AllLayers | canvas-animation.js:308-382 | Layers come in blob order, each blob's radial gradient before its line gradient, both with that blob's stops. With both kinds drawn, layers 2i and 2i+1 are blob i's radial and line gradients. With only one kind drawn, layer i is blob i's gradient of that kind. With neither, nothing is drawn. A line gradient is drawn when line gradients are on and their reach is positive. |
| Compositor.Filters | canvas-animation.js:404-417 | Brightness, contrast and saturation filters appear exactly when they differ from 100. The hue rotation appears exactly when the static plus animated hue is not 0. There are no other filters, and they come in the order brightness, contrast, saturate, hue-rotate. |
| Compositor.FilterCss | canvas-animation.js:416 | The filter text is `none` exactly when there is no filter. |
| Compositor.Frame | canvas-animation.js:280-402 | The picture uses the background colour and blend mode. It blurs exactly when blur is positive and fades exactly when the fade-out pass runs. Its filter is `none` exactly when there is no filter. Its layers are those of the blobs, with the stops as written. |
| Compositor.FrameFixed | canvas-animation.js:317-329 | Corrected, the picture differs from the one written only in its layers' stops, and the layers have the same shapes. When every blob colour is a literal or has whole-number components, and whole numbers print as digits, the two pictures are equal. |
| Compositor.LayersDifferOnlyInStops | canvas-animation.js:308-382 | The written and corrected layer lists have the same length, and each pair of layers differs only in its stops. |
| Compositor.LayersAgreeOnPlainColors | canvas-animation.js:318-329 | When every blob colour is a literal or has whole-number components, and whole numbers print as digits, the written and corrected layers are equal. |
| Compositor.HalfDegreeFrameExample | canvas-animation.js:318-329 | A blob coloured `hsl(200.5, 80%, 35%)` is drawn with two stops as written, and with three when corrected. |
| Motion.OrbitX | canvas-animation.js:139 | A blob's orbit keeps it within 30% of the width of the horizontal centre. |
| Motion.OrbitY | canvas-animation.js:140 | A blob's orbit keeps it within 30% of the height of the vertical centre. |
| Motion.Oscillate | canvas-animation.js:171-182 | Saturation and lightness oscillate around the middle of their range by half its width, clamped. With min above max the result is the min. |
| Motion.HueShift | canvas-animation.js:161 | The animated hue shift stays within 20 degrees of the static hue. |
| Motion.BaseHue | canvas-animation.js:155-169 | Without the shift, the frame hue is `hueStart` plus baseIndex times the spacing when evenly spaced, and within the separation range otherwise. |
| Motion.FrameColor | canvas-animation.js:145-184 | In palette mode the frame colour is palette entry `baseIndex` mod the palette's length. Otherwise it is hsl. Its hue is the base hue reduced by JavaScript's `%`: it differs from the base hue by whole turns and lies in (-360, 360) with the base hue's sign. Saturation and lightness lie in their ranges. |
| Motion.PulseOpacity | canvas-animation.js:187 | The pulsing opacity stays between 10% and 50% of the opacity setting. |
| Motion.Animated | canvas-animation.js:137-188 | A frame changes a blob's position, colour and opacity, and nothing else about it. |
| Motion.PaletteColorIsStable | canvas-animation.js:146-149 | In palette mode, a blob's frame colour is the colour it was created with. |
| Motion.EvenHueFollowsCreation | canvas-animation.js:156-162 | With even spacing, the frame's base hue is the creation hue plus the animated shift. |
| Motion.OverlapFrom | canvas-animation.js:212-228 | The scan from position `from` collects, in increasing order, exactly the other blobs from there on whose distance is below 60% of the average radius. |
| Motion.Overlapping | canvas-animation.js:212-228 | The overlap list holds, in increasing order, exactly the other blobs closer than 60% of the average radius. |
| Motion.Repel | canvas-animation.js:230-276 | Repulsion changes only a blob's position. A blob without overlapping neighbours stays where it is. |
| Motion.RepelSingle | canvas-animation.js:259-275 | With a single overlapping neighbour, the blob moves by that neighbour's push at half strength. |
| Motion.SingleOverlapPushesAway | canvas-animation.js:259-275 | With a single overlapping neighbour closer than 150, the offset from that neighbour grows by a factor above 1 in both coordinates: the blob is pushed straight away from it. |
| Motion.TotalsVanish | canvas-animation.js:235-254 | Neighbours at distance 0 or at least 150 add nothing to the summed force. |
| Motion.StepAwayStill | canvas-animation.js:261-275 | Neighbours at distance 0 or at least 150 move the blob nowhere, one by one. |
| Motion.FarNeighboursAddNothing | canvas-animation.js:231-276 | If every overlapping neighbour is at distance 0 or at least 150, the blob stays where it is, with two or more overlaps or fewer. |
| Motion.TotalXFactor | canvas-animation.js:235-254 | The summed horizontal force is the sum of the neighbours' unscaled pushes times the strength 0.15 and the multiplier. |
| Motion.TotalYFactor | canvas-animation.js:235-254 | The summed vertical force is the sum of the neighbours' unscaled pushes times the strength 0.15 and the multiplier. |
| Motion.Crowd | canvas-animation.js:231-258 | In the crowded branch the blob moves once, from where it stands. Its displacement on each axis is the sum of the neighbours' pushes times the strength and the multiplier. |
| Motion.CrowdedRepel | canvas-animation.js:230-258 | With k ≥ 2 overlapping neighbours, the blob takes the crowded branch with the multiplier 1 + 0.5(k - 1). |
| Motion.RepelledRightward | canvas-animation.js:230-276 | If every overlapping neighbour lies to the left of the blob, and one of them is at a distance strictly between 0 and 150, the blob moves right. This holds in either branch. |
| Motion.TwoBlobsOverlap | canvas-animation.js:212-228 | Two blobs of radius 200 closer than 120 overlap each other. |
| Motion.TwoBlobsSeparate | canvas-animation.js:202-278 | Take two blobs of radius 200 on a line, less than 119.9 apart. Over the whole pass, the first moves left, away from the second. The second then sees the first's new position, is still within reach, and moves right. Both stay on the line. |
| Motion.TwoBlobPass | canvas-animation.js:207-277 | On two blobs, the pass is the first blob's turn, then the second's turn against the moved first. |
| Motion.LaterBlobMissesMovedNeighbour | canvas-animation.js:207-277 | The order matters. Two blobs of radius 200, 119.99 apart, overlap at the start of the pass. Once the first has moved, the second no longer overlaps it and keeps its place. |
| Motion.RepelFrom | canvas-animation.js:207-277 | The pass from blob i on keeps the blob count and earlier blobs, and moves later blobs only in position. |
| Motion.ApplyRepulsion | canvas-animation.js:202-278 | Repulsion keeps the blob count and changes only positions. |
| Motion.WrapAxis | canvas-animation.js:194-199 | A coordinate past one edge by more than the radius re-enters at the other edge. An in-range coordinate is unchanged. The result always lies in [-r, extent + r]. |
| Motion.UpdateGradients | canvas-animation.js:128-200 | A frame keeps the count, radius, phase, speeds and base index of every blob. It sets the frame colour and pulsing opacity, and leaves every blob within its radius of the viewport. |
| JsMath.Rem | canvas-animation.js:426 | JavaScript's `%` keeps the dividend's sign. It lies strictly within the divisor, and differs from the dividend by a whole multiple of it, truncated toward zero. |
| JsMath.Trunc | canvas-animation.js:426 | Rounding toward zero keeps the integer part: for a non-negative number it is at most the number and less than one below it, and symmetrically for a negative one. |
| JsMath.Lerp | canvas-animation.js:122-123 | A random point between two bounds lies between them, whichever is larger. |
| Text.ReplaceFirst | controls.js:119 | Only the first occurrence of the pattern is replaced: the result is the text before it, the replacement, then the rest unchanged. A pattern that does not occur leaves the text unchanged. |
| Text.ReplaceUnitSuffix | controls.js:119 | Removing the unit from digits followed by that unit gives back the digits. |
| Text.TrimStart | controls.js:119 | Trimming removes exactly the leading white space. |
| Text.TrimEnd | controls.js:119 | Trimming removes exactly the trailing white space. |
| Controls.ElementMin | controls.js:124-127 | The element's own minimum equals the handler's lower bound: the `min` attribute's number, or 0. |
| Controls.StepOf | controls.js:127 | The element's step is positive. It is absent exactly for `step="any"`, and any step other than the default 1 is the attribute's own number. |
| Controls.Clamp | controls.js:127 | The element's underflow and overflow rules: below the minimum gives the minimum, above a maximum that is not below the minimum gives the maximum. A position the element can hold is kept. |
| Controls.NearestSteps | controls.js:127 | The whole number of steps nearest to a position lies within half a step of it. |
| Controls.Snap | controls.js:127 | Rounding to a step stays within the bounds, at most half a step above the position and less than a step below it. |
| Controls.SnapKeepsSteps | controls.js:127 | A position a whole number of steps above the minimum, within the bounds, is not moved by rounding. |
| Controls.SnapIdempotent | controls.js:127 | Rounding an already rounded position changes nothing. |
| Controls.Store | controls.js:127 | The number the range input keeps after `slider.value = numValue` is within its own bounds. With `step="any"` it is the clamped number. Otherwise it is at most half a step above the clamped number and less than a step below it. |
| Controls.StoreKeepsStepPositions | controls.js:127 | Assigning a position the element can hold, a whole number of steps above its minimum, keeps it exactly. |
| Controls.StoreIdempotent | controls.js:127 | Assigning the element's own value back to it changes nothing. |
| Controls.Accept | controls.js:121-133 | A parsed number is always sent on. When it is within the handler's bounds it is assigned to the slider, which keeps `Store` of it. Otherwise the slider is unchanged. The slider's attributes are never changed. A text that does not parse sends nothing. |
| Controls.OnValueText | controls.js:115-134 | A text that does not parse once the unit is removed leaves the slider and the setting alone. One that parses sends the handler's parse of that number. |
| Controls.TypeInto | controls.js:115-134 | A text that does not parse once the unit is removed leaves the engine and the slider alone. One that parses stores the route's scaling of the handler's parse under the route's key. For routed keys the result is the same as the exported engine's update. |
| Controls.Scaled | controls.js:151-311 | Percent inputs arrive divided by 100 and raw inputs unchanged. The gradient count arrives as a whole number, which is the input itself for a natural number in plain decimal. |
| Controls.WholePartOfPlain | controls.js:307-311 | `parseInt` of a natural number below 10^21 gives the number back. |
| Controls.WholePartReadsLeadingDigits | controls.js:307-311 | `parseInt` of a number reads the digits its text starts with and ignores the rest, so `"5e-7"` reads as 5. |
| Text.ParseIntText | controls.js:307-311 | `parseInt` of a number's text is at most 0 for a text starting with `-`, and at least 0 otherwise. |
| Text.ParseIntReadsLeadingDigits | controls.js:307-311 | A non-empty digit run followed by a non-digit reads as the run's value. |
| Text.ParseIntReadsNegated | controls.js:307-311 | After a `-`, a digit run followed by a non-digit reads as the run's value negated. |
| Text.ParseIntOfDecimal | controls.js:307-311 | Reading the decimal text of a natural number gives back the number. |
| Controls.RoutesAreNumeric | controls.js:151-253 | Every routed input writes a numeric setting, and none writes the rotation speed or the animated hue. |
| Controls.SlideTo | controls.js:106-112 | Moving a routed slider stores its scaled position in the setting, through the page's `updateSetting`. For routed keys this is also what the exported engine would do. |
| Controls.SpeedFromSlider | controls.js:317-323 | The speed slider sends its position divided by 100. |
| Controls.OnSpeedText | controls.js:324-337 | A typed speed is sent unscaled. A text that does not parse changes nothing. |
| Controls.OnRotationText | controls.js:356-368 | A typed rotation speed is sent as typed. A text that does not parse changes nothing. |
| Controls.TypeRotation | controls.js:356-368 | A typed rotation speed is stored as typed, and the clock and blobs are kept. A text that does not parse changes nothing. In the page's engine the animated hue never changes. Corrected, typing 0 clears it. A non-zero speed keeps it in both. |
| Controls.GetActualValue | controls.js:761-782 | The value is the parsed text when the text is non-empty and parses once the unit is removed. Otherwise it is the slider's position, or 0 without a slider. |
| Controls.NonNumericTextChangesNothing | controls.js:121-133 | Typing a text that is not a number leaves the engine and the slider exactly as they were. |
| Controls.TypedNumberReachesSetting | controls.js:115-134 | A typed number reaches its setting whether or not it is within the slider's bounds. Percentages arrive divided by 100 and other numbers unchanged. A gradient count that is a natural number in plain decimal also arrives unchanged. |
| Controls.ParseIntTwice | controls.js:307-311 | Applying `parseInt` twice, as the gradient count's handler and callback do, gives the same number as applying it once when that is a natural number below 10^21. |
| Controls.TypedCountReadsLeadingDigits | controls.js:115-134 | A number typed as the gradient count sets the count to the value of the digits its text starts with. |
| Controls.TinyCountExample | controls.js:307-311 | Typing 0.0000005 as the gradient count asks for 5 gradients, because the number prints as `"5e-7"`. Its integer part is 0. |
| Controls.SliderFollowsOnlyInRange | controls.js:124-128 | A typed number within the handler's bounds is assigned to the slider, which ends at `Store` of it. A number outside them leaves the slider as it was. |
| Controls.TextKeepsSliderInRange | controls.js:124-128 | A slider within the element's own bounds stays within them whatever is typed. |
| Controls.ZeroMaxFallsBack | controls.js:124-125 | A `max` of 0 means no bound of 0 to the handler: it falls back to 100, so 50 is accepted. |
| Controls.ZeroMaxHoldsSliderAtZero | controls.js:124-128 | With `min` and `max` both 0, typing 50 sends 50 to the setting, while the slider is clamped by its own maximum to 0. |
| Controls.SliderCanLeaveHandlerBounds | controls.js:124-128 | With `min="5"`, `max="0"` and `step="10"`, typing 100 leaves the slider at 105, beyond the handler's own bound of 100. |
| Controls.ActualValueFollowsHandler | controls.js:761-782 | `getActualValue` reads back what the text handler acted on: the number sent, or else the slider's position. |
| Controls.SliderTextRoundTrip | controls.js:106-112 | The text a slider writes, a whole position followed by the unit, reads back through `getActualValue` as that position. |
| Controls.SpeedHandlersAgree | controls.js:317-337 | When a typed speed moves the slider to a position the element keeps unchanged, the slider's own handler would send the same speed. |
| Controls.SpeedOffStepExample | controls.js:317-337 | With the default step, typing 0.555 sends 0.555 but leaves the slider at 56, whose own handler would send 0.56. |
| Controls.TypingZeroRotationClearsHue | controls.js:356-368 | Typing 0 into the rotation box stops the rotation and clears the animated hue, with the corrected `updateSetting`. |
| Controls.TypingZeroRotationKeepsHue | controls.js:356-368 | On the page, typing 0 into the rotation box stops the rotation but leaves the animated hue where it was. |
| Patterns.HexDigits | svg-patterns.js:90 | The accepted text is six hex digits, alone or after a single `#`. |
| Patterns.HexToRgb | svg-patterns.js:89-96 | Each channel is the base-16 value of its digit pair, in 0..255. Any text the pattern rejects gives white. |
| Patterns.ByteRoundTrip | svg-patterns.js:92-94 | A channel written as two hex digits parses back to itself. |
| Patterns.HexDigitsExact | svg-patterns.js:90 | Six hex digits are accepted with or without a leading `#`. |
| Patterns.HexRoundTrip | svg-patterns.js:89-96 | `hexToRgb` of a colour's six-digit hex text, with or without `#`, gives back the colour. |
| Patterns.OtherLengthsAreWhite | svg-patterns.js:95 | Any text other than 6 or 7 characters long, including shorthand and 8-digit forms, gives white. |
| Patterns.ShorthandIsWhite | svg-patterns.js:89-96 | `#000` gives white. `#4a90e2` and `4A90E2` give (74, 144, 226), in either case. |
| Patterns.NodeColorKeepsChannels | svg-patterns.js:280-282 | The circuit's node colour has the pattern colour's channels with alpha 0.2. |
| Patterns.ScanColorUnchanged | svg-patterns.js:303 | As written, the scanline colour equals the pattern colour: its only `.` is in the alpha `0.5`, so `0.1` never occurs. |
| Patterns.ScanColor | svg-patterns.js:303 | Corrected, the scanline colour keeps the pattern colour's channels and differs from it. |
| Patterns.Walk | svg-patterns.js:128 | The values a counted loop visits are from, from + step, and so on. The test holds for each of them and fails for the next. |
| Patterns.EvenSteps | svg-patterns.js:226 | A loop from 0 to `size` inclusive in steps of size/n visits exactly n + 1 evenly spaced values. |
| Patterns.InnerSteps | svg-patterns.js:317-319 | A loop from size/n while below `size` visits exactly n - 1 values, all strictly inside (0, size). |
| Patterns.CreateGrid | svg-patterns.js:98-116 | A grid tile is two lines from the origin. |
| Patterns.CreateDots | svg-patterns.js:118-125 | A dots tile is one dot of radius 2 at the centre. |
| Patterns.Rows | svg-patterns.js:127-138 | There is one full-width horizontal line per counter value. |
| Patterns.Columns | svg-patterns.js:140-151 | There is one full-height vertical line per counter value. |
| Patterns.CreateDiagonal | svg-patterns.js:153-162 | A diagonal tile is one line from corner to corner. |
| Patterns.CreateCrosshatch | svg-patterns.js:164-183 | A crosshatch is the diagonal plus the opposite diagonal. |
| Patterns.CreateHexagon | svg-patterns.js:185-200 | The hexagon has six vertices, all within the middle half of the tile. |
| Patterns.CreateCircles | svg-patterns.js:202-211 | A circles tile is one ring of radius size/3. |
| Patterns.CreateWaves | svg-patterns.js:213-222 | A waves tile is one curve across the full width along the middle. |
| Patterns.CreateNoise | svg-patterns.js:249-258 | A noise tile is 50 dots of radius in [0.5, 2.5), all on the tile. |
| Patterns.Speckle | svg-patterns.js:250-257 | A noise dot lies on the tile and has a radius in [0.5, 2.5). |
| Patterns.CreateCircuit | svg-patterns.js:260-299 | A circuit tile is four traces in the pattern colour, then five nodes of radius 2 in the node colour. |
| Patterns.CreateScanlines | svg-patterns.js:301-314 | There is one scanline every 2 units, from 0 to the size, all stroked in the given colour. A negative size draws none. |
| Patterns.DotColumns | svg-patterns.js:318-327 | The nested loop draws one dot of radius 1.5 per pair of counter values. |
| Patterns.CreateRadial | svg-patterns.js:330-342 | A radial tile is five rings around the centre with radii size/6 times 1 to 5. |
| Patterns.Named | svg-patterns.js:29-75 | A name that selects a case is that case's label. |
| Patterns.NamedLabel | svg-patterns.js:29-75 | Each of the 15 cases is selected by its own label. |
| Patterns.UnknownNames | svg-patterns.js:29-75 | A name selects no case exactly when it is none of the 15 labels. |
| Patterns.Tile | svg-patterns.js:301-314 | As written, the scanlines of a tile are stroked in the pattern colour itself, alpha 0.5, because the colour replacement never matches. |
| Patterns.TileFixed | svg-patterns.js:301-314 | Corrected, only the scanline tile changes. Its lines are stroked in the half-alpha scanline colour, and for a size of 0 or more it differs from the tile as written. |
| Patterns.GeneratePattern | svg-patterns.js:11-87 | The pattern tile has the requested size and the overlay fills with `url(#svg-pattern)`. An unknown type gives a pattern with no shapes. |
| Patterns.HorizontalLinesEveryTenth | svg-patterns.js:127-138 | For a positive size, there are exactly 11 horizontal lines, one every tenth of the size from 0 to the size. |
| Patterns.VerticalLinesEveryTenth | svg-patterns.js:140-151 | For a positive size, there are exactly 11 vertical lines, one every tenth of the size from 0 to the size. |
| Patterns.NegativeSizeDrawsNoLines | svg-patterns.js:127-151 | A negative size draws no horizontal or vertical lines. |
| Patterns.MeshRows | svg-patterns.js:224-235 | For a positive size, the mesh has 12 lines. The first 6 are horizontal, one every fifth of the size. |
| Patterns.MeshColumns | svg-patterns.js:236-246 | For a positive size, the last 6 of the mesh's 12 lines are vertical, one every fifth of the size. |
| Patterns.DotsGridIsFourByFour | svg-patterns.js:316-328 | For a positive size, the dots grid has 16 dots of radius 1.5, all strictly inside the tile. Otherwise it has none. |
| Patterns.RadialRingsGrow | svg-patterns.js:330-342 | Each of the radial tile's rings is size/6 larger than the one before. |
| Patterns.GridStrokeFromHex | svg-patterns.js:26-31 | Given a colour's hex text, the grid is stroked in `rgba(r, g, b, 0.5)` with that colour's channels. |
| Patterns.CircuitNodesFromHex | svg-patterns.js:24-64 | Given a colour's hex text, the circuit's nodes are filled in `rgba(r, g, b, 0.2)` with that colour's channels. |

## Left out

- Host I/O: the canvas context, DOM elements, event listeners, `requestAnimationFrame`, `destroy` and the page's start-up. The model returns the picture, `Compositor.Frame`, that a frame would draw, and the shapes of an SVG tile.
- `resize`: the canvas's style, the `ctx.scale` call and the browser's limits on a canvas's area are left out. The size computation and the attributes' whole-pixel storage are modelled.
- Randomness, `Math.sin`, `Math.cos` and `Math.sqrt` are parameters. The draws lie in [0, 1). The waves lie in [-1, 1], and the square root is only assumed to obey its law where a lemma needs it. Floating-point rounding is not modelled; all arithmetic is on exact reals.
- Patterns.Walk: the counted loops run on exact reals. With binary floating point, accumulating `size / 10` can land just above `size` and lose the last line, so the counts proved here may differ by one from a browser's.
- Patterns.CreateHorizontalLines, Patterns.CreateVerticalLines and Patterns.CreateMesh require a non-zero size. With a size of 0 the source's loop steps by 0 and never ends.
- Number-to-text conversion (`String(x)` inside template literals) is a parameter. Only its treatment of whole numbers is stated: it prints them as decimal digits, and prints every other number with a `.`, `e` or `-` after its leading digits.
- Colors.FractionalHueUnmatched: only a non-whole hue is shown to defeat the hsl pattern; a non-whole saturation or lightness is not proved to defeat it.
- `parseFloat` is a parameter from text to an optional number. `parseInt` of a number reads the number's text, which is the number-to-text parameter. Leading white space and a `+` sign are not modelled, because no number's text has them.
- Controls.Store, Controls.StepOf: the element reads its `min`, `max` and `step` attributes with the same `parse` as the handlers, not with the HTML Standard's stricter number rules. `step="any"` is matched case-sensitively. The step base is taken to be the minimum (0 when `min` does not parse), not the `value` attribute the standard falls back to.
- Controls.Accept, Controls.TextKeepsSliderInRange: the slider is kept within the element's own bounds, not the handler's. With a `max` below the `min`, or a `max` of 0 read by the handler as 100, the two differ (Controls.SliderCanLeaveHandlerBounds).
- Display formatting is left out: the `blur` handlers that reformat the text boxes, and `toFixed` in the speed and rotation handlers.
- Settings.Set and Animation.UpdateSetting require a value of the type the key holds. JavaScript would store a value of any type.
- The `generateColor` call without an index, which picks a random palette entry, is left out. The engine never calls it that way.
- Compositor.LineShape, Compositor.RadialLayer: a negative radius makes `createRadialGradient` throw `IndexSizeError` (canvas-animation.js:312-315, 365). A negative scale can cause it, and so can a negative line length, width or drawing multiplier. The exception ends `animate` before it schedules the next frame. The model does not stop there: it draws a radial layer with a negative radius, or no line layer.
- Motion.ApplyRepulsion: the pass is not proved to separate overlapping blobs in general. Only the two-blob case and the direction of one blob's move are proved. Because of the order, a blob may stay put even though it overlapped a neighbour when the pass began.
- Compositor.LineShape: when both half-extents are 0 the source scales by `0 / 0`. The model returns no layer for that case and does not model the resulting NaN drawing.
- Compositor.FadeAmount: for a negative fade time only the sign of the result is stated.
- JavaScript default parameters (`size = 100`, `color = '#ffffff'`, `strokeWidth = 1`) are not modelled. Every argument is explicit.
- Patterns.CreateHexagon and Patterns.CreateNoise take their trigonometry and random draws as parameters. Their vertices and dots are bounded but not computed.
- Pattern overlay management (`updatePattern`, `setEnabled`) is DOM work and is left out.
- The fade-out timestamp is modelled as an opaque parameter `now`. The engine writes it but never reads it.
- The export pipeline, the text-marker rewriting and the reset-to-defaults handlers of the control panel are left out. Only the exported engine's `updateSetting` is modelled, as Animation.UpdateSetting.

## Findings

| source | as written | input that shows it | evidently intended | confidence | as-written member | corrected member |
|---|---|---|---|---|---|---|
| canvas-animation.js:450-459 | The `key.startsWith('hue')` branch catches `hueRotationSpeed`, so the branch that resets `animatedHue` when the speed is set to 0 is never reached. | `updateSetting('hueRotationSpeed', 0)` with `animatedHue` 90: the hue stays 90 and `hue-rotate(90deg)` remains. | Stopping the rotation resets `animatedHue` to 0, as the exported copy of the engine does at controls.js:1239-1243. | high; not executed | Animation.StoppingRotationKeepsHue | Animation.StoppingRotationClearsHue |
| canvas-animation.js:318-329 | The stops are built from `/hsl\((\d+),\s*(\d+)%,\s*(\d+)%\)/`, which only accepts whole numbers. The per-frame hue is the spacing plus a sine shift, so it is almost never whole. Those blobs fall to the two-stop form, which ignores the opacity and the fade point. | A blob coloured `hsl(200.5, 80%, 35%)`: its stops are that colour then `transparent`, whatever its opacity or the fade setting. | Every hsl colour is converted to hsla with the blob's opacity and the fade point, as the comment at line 317 says. | medium; not executed | Compositor.FractionalHueIgnoresOpacity | Compositor.StopsFixedFade |
| svg-patterns.js:303 | The scanline colour replaces `0.1` by `0.05`, but the pattern colour built at line 27 has alpha `0.5`. `0.1` never occurs and the scanlines are not made more transparent. | Any colour, such as `#ffffff`: the scanline colour is `rgba(255, 255, 255, 0.5)`, the pattern colour unchanged. | The scanlines are drawn more transparent than the pattern colour. The alpha used here, 0.25, is a guess. | low; not executed | Patterns.ScanColorUnchanged | Patterns.TileFixed |
