# Scrolling-text GIF maker: a Dafny model of its core

The application turns a short text into a 128-pixel emoji-style animation.
The text scrolls horizontally ("slide"), tiled with a gap, over a transparent,
solid or gradient background. The model covers:

- **The export loop** of `GifGenerator.generateGif`. It works out the period
  (`unitWidth`), the number of candidate copies and the number of frames. For
  each frame it redraws the background, draws the copies that intersect the
  canvas, and appends the frame with delay `1000/fps`.
  - `GifGeneration.GifGenerator` is a class. Its `canvas` (a symbolic drawing
    surface) and `frames` list are updated in place.
  - The functions `RenderFrame`, `CanvasAfter` and `ExportFrames` specify it.
- **The live preview's `animate` callback** (`PreviewAnimation.Preview`). It
  has a fixed 128-pixel canvas, a diagonal gradient, text placed by the
  alignment adjustment, and time measured from the first callback.
- **The layout arithmetic shared by both** (`SlideLayout`), stated over plain
  reals, and JavaScript's `Math.ceil`, `Math.round` and truncating `%`
  (`JsNumber`).
- **The vertical alignment classifier** (`TextAlignment`). It detects Hangul,
  Latin letters, descenders and ascenders, and turns them into a pixel
  adjustment.
- **The colour utilities** (`ColorUtils`):
  - hex to HSL and back;
  - the WCAG contrast ratio;
  - the lightness shift of `ensureGoodContrast`.

  They sit on a model of `parseInt(s, 16)` and `n.toString(16)` (`JsHex`).
- **The upload checks and the centred square crop** (`ImageUtils`).
- **The colour text box** (`ColorInputs.ColorInput`). It keeps what the user
  types and passes on only complete `#RGB`/`#RRGGBB` codes.

Numbers are exact reals. JavaScript's `%` is modelled as the truncated
remainder (`JsNumber.JsRemainder`), not Dafny's Euclidean one. `NaN` from a
failed `parseInt` is `None`.

The canvas is symbolic (`Canvas.Surface`). It records a background layer
(cleared, filled, or a linear gradient with its axis) and the list of
`fillText` calls drawn on top. Filling the whole canvas resets that list;
leaving the canvas untouched keeps it.

## Model

| member | source | states |
|---|---|---|
| JsNumber.Ceil | src/utils/gifGenerator.ts:70 | `Math.ceil`: the least integer at or above x |
| JsNumber.Round | src/utils/colorUtils.ts:65 | `Math.round`: within half a unit, ties upward |
| JsNumber.RemainderInPeriod | src/utils/gifGenerator.ts:82 | the truncated remainder of a non-negative number by a positive period lies in [0, period) |
| JsNumber.RemainderOfSmall | src/utils/gifGenerator.ts:82 | a number already inside [0, period) is its own remainder |
| JsNumber.JsRemainder | src/utils/gifGenerator.ts:82 | JavaScript's `x % m`: `x` minus `m` times the quotient truncated toward zero; its range is stated by `RemainderInPeriod` and `RemainderOfSmall` |
| JsNumber.RemainderShift | src/components/Preview.tsx:87-88 | adding one period to a non-negative dividend leaves the remainder unchanged |
| JsNumber.RemainderPastPeriod | src/utils/gifGenerator.ts:82 | a dividend less than one step past the period, with a step no longer than the period, wraps exactly once |
| SlideLayout.UnitWidth | src/utils/gifGenerator.ts:65-67 | the period: the text width plus the gap as a percentage of the canvas width; bounded by `UnitWidthCoversText` |
| SlideLayout.UnitWidthCoversText | src/utils/gifGenerator.ts:65-67 | with a non-negative gap, the period is at least the text width |
| SlideLayout.NumCopies | src/utils/gifGenerator.ts:70 | `ceil(width/unit)+2` is at least 2, and all but the last two copies already span the canvas |
| SlideLayout.FrameCount | src/utils/gifGenerator.ts:73-74 | `ceil(unit/speed*fps)` is at least 1; that many frame steps cover one period, one fewer does not |
| SlideLayout.FrameOffset | src/utils/gifGenerator.ts:80-82 | the offset of frame i: the scrolled distance `(i/fps)·speed` taken with `%` modulo the period; its properties are `FrameOffsetInPeriod`, `FirstFrameOffset` and `LoopOffsets` |
| SlideLayout.FrameDistance | src/utils/gifGenerator.ts:80-81 | the distance at frame i is i times the per-frame step speed/fps |
| SlideLayout.FrameOffsetInPeriod | src/utils/gifGenerator.ts:80-82 | every frame's offset lies in [0, unitWidth) |
| SlideLayout.FirstFrameOffset | src/utils/gifGenerator.ts:80-82 | frame 0 has offset 0 |
| SlideLayout.NoWrapBeforePeriod | src/utils/gifGenerator.ts:80-82 | before one period has been scrolled, the offset is the distance itself |
| SlideLayout.NoWrapWithinLoop | src/utils/gifGenerator.ts:73-82 | inside a loop of n frames whose last step stays below the period, offsets equal i·step and strictly increase |
| SlideLayout.LoopOffsets | src/utils/gifGenerator.ts:73-82 | for every frame index below `frameCount`, the offset is i·step and offsets strictly increase: the loop scrolls at least one period, and less than one period plus one step, without wrapping |
| SlideLayout.LoopClosesWithinStep | src/utils/gifGenerator.ts:73-82 | with a step no longer than the period, the frame after the last would have offset `n·step − unitWidth`, which lies in `[0, step)`: the loop closes up to one step |
| SlideLayout.OffsetAfterCover | src/utils/gifGenerator.ts:80-82 | a frame that has just covered one period is shifted by its distance minus the period |
| SlideLayout.VisibleTiles | src/utils/gifGenerator.ts:85-91 | the x positions the inner loop draws, in copy order: copy j at `j·unit − offset` when it intersects the canvas; characterised by `VisibleTilesExactly` and `VisibleTilesIncreasing` |
| SlideLayout.TileXMono | src/utils/gifGenerator.ts:86 | copy positions `j·unit − offset` are at least one period apart and increase with j |
| SlideLayout.VisibleTilesExactly | src/utils/gifGenerator.ts:85-91 | an x is drawn iff it is the position of some copy j < numCopies with `−textWidth < x < width` |
| SlideLayout.VisibleTilesBelow | src/utils/gifGenerator.ts:85-91 | every drawn copy lies left of copy k for each k ≥ numCopies |
| SlideLayout.VisibleTilesIncreasing | src/utils/gifGenerator.ts:85-91 | the drawn copies are in strictly increasing x order |
| SlideLayout.LastCopyPastEdge | src/utils/gifGenerator.ts:69-70 | the last candidate copy starts strictly right of the canvas edge |
| SlideLayout.NoVisibleCopyMissed | src/utils/gifGenerator.ts:69-91 | any copy index whose position intersects the canvas is below numCopies (and not negative), so the loop considers every visible copy |
| SlideLayout.VisibleTilesOnCanvas | src/utils/gifGenerator.ts:89 | every drawn copy intersects the canvas |
| Canvas.StrokesAt | src/utils/gifGenerator.ts:45-51 | one `fillText` per position, in order, each with the given text, y, size, colour and font |
| Canvas.StrokesAtMembers | src/utils/gifGenerator.ts:45-51 | every stroke drawn has the given text, y and size, and an x from the positions |
| Canvas.PaintBackground | src/utils/gifGenerator.ts:24-43 | the background dispatch on a symbolic canvas: clear, solid fill, gradient fill along the given axis, or nothing for a gradient without colours; stated by `PaintBackgroundCovers` |
| Canvas.PaintBackgroundCovers | src/utils/gifGenerator.ts:24-43 | clearing or filling replaces the whole canvas and its text; a gradient type without colours leaves the canvas untouched |
| GifGeneration.GifGenerator.constructor | src/utils/gifGenerator.ts:9-22 | the canvas has the configured size and is blank; no frame has been added |
| GifGeneration.GifGenerator.DrawBackground | src/utils/gifGenerator.ts:24-43 | the background dispatch, with the gradient axis (0,0)→(width,0) |
| GifGeneration.GifGenerator.DrawText | src/utils/gifGenerator.ts:45-51 | appends one stroke at (x, height/2), font size height·fontSize/100, in the text colour and font |
| GifGeneration.GifGenerator.DrawFrame | src/utils/gifGenerator.ts:77-92 | one loop body: the canvas becomes `RenderFrame` of frame i |
| GifGeneration.GifGenerator.DrawCopies | src/utils/gifGenerator.ts:85-92 | the inner loop appends exactly the strokes of the visible copies, left to right, and keeps the background |
| GifGeneration.GifGenerator.GenerateGif | src/utils/gifGenerator.ts:59-95 | appends exactly `frameCount` frames, the i-th being the canvas after rendering frame i with delay 1000/fps, and leaves the canvas as after the last frame |
| GifGeneration.RenderFrame | src/utils/gifGenerator.ts:77-92 | one iteration of the export loop: the background over the previous canvas, then the strokes of frame i's visible copies; stated by `FrameIsSelfContained`, `RenderUncovered` and `FrameTilesExact` |
| GifGeneration.CanvasAfter | src/utils/gifGenerator.ts:76-92 | the canvas after n iterations, each rendering over the previous one; stated by `ExportFramesInOrder` and `UncoveredFramesAccumulate` |
| GifGeneration.ExportFrames | src/utils/gifGenerator.ts:76-95 | the frames added by n iterations, in order, each with delay 1000/fps; stated by `ExportFramesInOrder` and `GenerateGif`'s ensures |
| GifGeneration.LayoutAt | src/utils/gifGenerator.ts:65-74 | the source's gap, unitWidth, numCopies and frameCount expressions equal the layout functions |
| GifGeneration.OffsetAt | src/utils/gifGenerator.ts:80-82 | `((i/fps)·speed) % unitWidth` is the frame offset |
| GifGeneration.DelayAt | src/utils/gifGenerator.ts:94 | every frame's delay is 1000/fps |
| GifGeneration.FrameStepAt | src/utils/gifGenerator.ts:76-95 | one more iteration renders frame i over the previous canvas and appends exactly one frame |
| GifGeneration.FrameCountCoversOnePeriod | src/utils/gifGenerator.ts:73-74 | an export has at least one frame; its frames scroll at least one period and one fewer would not |
| GifGeneration.ExportFramesInOrder | src/utils/gifGenerator.ts:76-95 | n iterations give n frames; frame i is the canvas after iteration i, with delay 1000/fps |
| GifGeneration.FrameIsSelfContained | src/utils/gifGenerator.ts:77-92 | with a covering background, a frame does not depend on the previous one: its strokes are exactly that frame's visible copies |
| GifGeneration.RenderUncovered | src/utils/gifGenerator.ts:36-43 | with the gradient type but no colours, the background is not redrawn and the new copies are drawn over the previous frame's |
| GifGeneration.UncoveredFramesAccumulate | src/utils/gifGenerator.ts:36-43 | in that case strokes pile up from frame to frame: each frame's strokes extend the previous frame's |
| GifGeneration.OffsetInPeriod | src/utils/gifGenerator.ts:80-82 | the export offset lies in [0, unitWidth), and is 0 at frame 0 |
| GifGeneration.FrameTilesExact | src/utils/gifGenerator.ts:69-91 | a frame's drawn x positions are increasing, on the canvas, each a copy j < numCopies, and include every copy that intersects the canvas |
| GifGeneration.ExportTextPlacement | src/utils/gifGenerator.ts:45-51 | every stroke of an exported frame is the configured text at y = height/2, font size height·fontSize/100, at a visible copy's x; the vertical offset is not applied |
| GifGeneration.ExportBackgroundDispatch | src/utils/gifGenerator.ts:24-43 | transparent clears, solid fills with the colour, gradient fills a horizontal (0,0)→(width,0) gradient, gradient without colours draws nothing |
| PreviewAnimation.TextY | src/components/Preview.tsx:61-64 | the text's y: the centre, minus the user offset, plus the alignment adjustment; stated by `TextYPlacement` |
| PreviewAnimation.PreviewOffset | src/components/Preview.tsx:87-88 | the offset `progress` ms after the start: `(progress·speed/1000) % unitWidth`; stated by `PreviewOffsetInPeriod`, `FirstCallbackUnshifted` and `PreviewPeriodic` |
| PreviewAnimation.PreviewFrame | src/components/Preview.tsx:84-98 | one painted preview frame: the background, then the strokes of the visible copies at that progress; stated by `PreviewTilesExact`, `PreviewTextPlacement` and `PreviewBackgroundDispatch` |
| PreviewAnimation.NextStart | src/components/Preview.tsx:80 | after a callback a start time is always set |
| PreviewAnimation.Preview.constructor | src/components/Preview.tsx:18-76 | the effect's closures capture the scene, the 128-pixel font size, the period and the copy count; no start time yet |
| PreviewAnimation.Preview.Configure | src/components/Preview.tsx:18-76 | a re-run of the effect recomputes the layout and keeps the start time, because it is held in a ref |
| PreviewAnimation.Preview.DrawBackground | src/components/Preview.tsx:33-52 | the background dispatch with the diagonal gradient axis (0,0)→(128,128) |
| PreviewAnimation.Preview.DrawText | src/components/Preview.tsx:55-67 | appends one stroke at (x, `TextY`) with font size 128·fontSize/100 |
| PreviewAnimation.Preview.Animate | src/components/Preview.tsx:79-99 | fixes the start time on the first callback and paints `PreviewFrame` at the elapsed milliseconds |
| PreviewAnimation.Preview.DrawCopies | src/components/Preview.tsx:91-98 | the loop appends exactly the strokes of the visible copies, left to right |
| PreviewAnimation.CopiesAt | src/components/Preview.tsx:76 | `ceil(128/unitWidth)+2` is the shared copy count |
| PreviewAnimation.PreviewOffsetAt | src/components/Preview.tsx:87-88 | `(progress·speed/1000) % unitWidth` is the preview offset |
| PreviewAnimation.StartTimeIsFixedOnce | src/components/Preview.tsx:80-81 | the first callback's progress is 0; a non-zero start is never replaced; once a non-zero timestamp is stored it stays |
| PreviewAnimation.ZeroStartRestarts | src/components/Preview.tsx:80 | a stored start of 0 counts as unset, so the next callback restarts the clock |
| PreviewAnimation.FirstCallbackUnshifted | src/components/Preview.tsx:87-88 | progress 0 gives offset 0 |
| PreviewAnimation.PreviewPeriodic | src/components/Preview.tsx:87-88 | `1000·unitWidth/speed` ms later the preview shows the same offset |
| PreviewAnimation.PreviewLoopCloses | src/components/Preview.tsx:87-88 | after exactly one period's time the offset is back to 0 |
| PreviewAnimation.PreviewOffsetInPeriod | src/components/Preview.tsx:87-88 | the preview offset lies in [0, unitWidth) |
| PreviewAnimation.TextYPlacement | src/components/Preview.tsx:61-64 | y is 64 − 1.28·offset plus the alignment adjustment (in {−4, 0, 1, 2}); a larger offset moves the text up |
| PreviewAnimation.PreviewFontScales | src/components/Preview.tsx:30 | the font size is 1.28·fontSize pixels, within [0, 128] for percentages in [0, 100] |
| PreviewAnimation.PreviewTilesExact | src/components/Preview.tsx:72-97 | the drawn x positions are increasing, on the canvas, each a copy i < numCopies, and include every copy that intersects the canvas |
| PreviewAnimation.PreviewTextPlacement | src/components/Preview.tsx:55-67 | every stroke of a preview frame is the text at `TextY`, at the preview font size, at a visible copy's x |
| PreviewAnimation.PreviewBackgroundDispatch | src/components/Preview.tsx:33-52 | transparent clears, solid fills, gradient is diagonal (0,0)→(128,128), gradient without colours draws nothing |
| TextAlignment.ContainsAny | src/utils/textAlignment.ts:13-16 | a regex character-class test holds iff some character of the text is in the class |
| TextAlignment.AnalyzeText | src/utils/textAlignment.ts:12-24 | each of the four flags holds iff the text contains a Hangul syllable, a Latin letter, one of `gjpqy`, one of `bdfhklt` |
| TextAlignment.GetOptimalTextBaseline | src/utils/textAlignment.ts:57-68 | the baseline is `middle` for every text |
| TextAlignment.LetterClassesAreLatin | src/utils/textAlignment.ts:15-16 | descenders and ascenders imply a Latin letter |
| TextAlignment.CalculateOptimalVerticalOffset | src/utils/textAlignment.ts:26-55 | the base plus an adjustment chosen by the script mix; stated case by case by the four lemmas below |
| TextAlignment.HangulOnlyShiftsDown | src/utils/textAlignment.ts:35-37 | Hangul without Latin letters gives base + 2 |
| TextAlignment.LatinOnlyAdjustment | src/utils/textAlignment.ts:38-51 | Latin without Hangul gives base − 4 (descenders only), + 2 (ascenders only), + 1 (neither), base (both) |
| TextAlignment.MixedOrNeitherKeepsBase | src/utils/textAlignment.ts:52-54 | both scripts, or neither, give the base unchanged |
| TextAlignment.AdjustmentRange | src/utils/textAlignment.ts:26-55 | the adjustment is in {−4, 0, 1, 2} and does not depend on the base |
| TextAlignment.DescenderExample | src/utils/textAlignment.ts:40-42 | `gjpqy` is lifted by 4 pixels |
| JsHex.ParseIntHex | src/utils/colorUtils.ts:13-15 | `parseInt(s, 16)`: leading white space, an optional sign, an optional `0x`, then the longest run of hex digits, `None` (NaN) without digits; stated by `ParseNonNegative`, `ParseNegative` and `ParseShort` |
| JsHex.ToHexString | src/utils/colorUtils.ts:65 | `n.toString(16)`: a minus sign for negatives, then the lower-case digits; stated by `ParseToHexString` and `ToHexStringSmall` |
| JsHex.HexDigitsOf | src/utils/colorUtils.ts:65 | `toString(16)` of a natural: hex digits only, a single one exactly below 16 |
| JsHex.HexDigitsValue | src/utils/colorUtils.ts:65 | the digits written read back to the number |
| JsHex.ParseToHexString | src/utils/colorUtils.ts:13-15 | `parseInt(n.toString(16), 16) == n` for every integer |
| JsHex.ParseNonNegative | src/utils/colorUtils.ts:13 | a run of hex digits (not a `0x` prefix) parses to its value |
| JsHex.ParseNegative | src/utils/colorUtils.ts:13 | a minus sign before such a run parses to the negated value |
| JsHex.ParseShort | src/utils/colorUtils.ts:13-15 | a slice of at most two characters parses, if at all, into [−15, 255] |
| JsHex.ToHexStringSmall | src/utils/colorUtils.ts:65-66 | values below 256 are written with one or two hex digits, one exactly below 16 |
| ColorUtils.Channel | src/utils/colorUtils.ts:13-15 | a channel read from a two-character slice, if a number, lies in [−15/255, 1] |
| ColorUtils.ReadRgb | src/utils/colorUtils.ts:13-15 | every `#RRGGBB` colour reads to three channels in [0, 1] |
| ColorUtils.ChannelsOf | src/utils/colorUtils.ts:13-15 | a `#RRGGBB` colour's channels are its three digit pairs over 255 |
| ColorUtils.ChannelsOfHexColor | src/utils/colorUtils.ts:77-79 | each of the three slices of a `#RRGGBB` colour reads to a non-negative channel |
| ColorUtils.ShortFormUnreadable | src/utils/colorUtils.ts:13-15 | a four-character `#RGB` colour is not read: its blue slice is empty |
| ColorUtils.RgbToHsl | src/utils/colorUtils.ts:17-35 | lightness is (max+min)/2; a grey gives hue and saturation 0 |
| ColorUtils.HexToHsl | src/utils/colorUtils.ts:12-36 | hue in [0, 360), saturation and lightness in [0, 1] |
| ColorUtils.HslRanges | src/utils/colorUtils.ts:23-35 | the ranges of the HSL body over channels in [0, 1] |
| ColorUtils.Hue2Rgb | src/utils/colorUtils.ts:44-51 | `hue2rgb`: wrap t once into [0, 1], then the four-piece curve between p and q; stated by `Hue2RgbBetween` |
| ColorUtils.HslToRgb | src/utils/colorUtils.ts:53-62 | grey when s = 0, otherwise `hue2rgb` at h/360 + 1/3, h/360, h/360 − 1/3; stated by `HslToRgbInUnit` and `GreyHasEqualChannels` |
| ColorUtils.ToHex | src/utils/colorUtils.ts:64-67 | `round(c·255)` in hex, padded with a `0` to two digits; stated by `ToHexDigits` |
| ColorUtils.HslToHex | src/utils/colorUtils.ts:41-70 | `#` and the three padded channels; stated by `HslToHexWellFormed` and `GreyHasEqualChannels` |
| ColorUtils.Hue2RgbBetween | src/utils/colorUtils.ts:44-51 | `hue2rgb` lies between its two levels |
| ColorUtils.HslToRgbInUnit | src/utils/colorUtils.ts:53-62 | the three channels lie in [0, 1] for s and l in [0, 1] |
| ColorUtils.ToHexDigits | src/utils/colorUtils.ts:64-67 | each channel becomes two lower-case hex digits whose value is `round(c·255)` in [0, 255] |
| ColorUtils.HslToHexWellFormed | src/utils/colorUtils.ts:41-70 | the output is `#` and six lower-case hex digits |
| ColorUtils.GreyHasEqualChannels | src/utils/colorUtils.ts:54-55 | saturation 0 gives three equal digit pairs of value `round(l·255)` |
| ColorUtils.Luminance | src/utils/colorUtils.ts:76-86 | the WCAG weighted sum of the linearised channels; above −0.05 for every colour that reads, so the ratio's denominators are positive (`LuminanceAboveFloor`); negative for slices such as `-f` (`NegativeSliceLuminance`), never for a `#RRGGBB` colour (`HexColorLuminance`) |
| ColorUtils.LuminanceAboveFloor | src/utils/colorUtils.ts:76-93 | every colour that reads has a luminance above −0.05, so `darkest + 0.05` is positive |
| ColorUtils.LuminanceNonNegative | src/utils/colorUtils.ts:81-85 | a colour in the unit cube has a non-negative luminance |
| ColorUtils.HexColorLuminance | src/utils/colorUtils.ts:76-86 | every `#RRGGBB` colour reads, and its luminance is not negative |
| ColorUtils.NegativeSliceLuminance | src/utils/colorUtils.ts:77-85 | a non-colour string can still read: `#-f0000` reads its red slice `-f` as −15, and its luminance is negative |
| ColorUtils.Contrast | src/utils/colorUtils.ts:88-93 | the ratio (brightest+0.05)/(darkest+0.05) is at least 1 |
| ColorUtils.ContrastRatio | src/utils/colorUtils.ts:75-94 | a ratio exists iff both colours read, and it is at least 1 |
| ColorUtils.ContrastSymmetric | src/utils/colorUtils.ts:88-93 | the ratio is symmetric, and a colour against itself gives 1 |
| ColorUtils.BlackOnWhite | src/utils/colorUtils.ts:75-94 | black on white gives 21 |
| ColorUtils.AdjustLightness | src/utils/colorUtils.ts:297 | `max(0.1, l − step)` under light text, `min(0.9, l + step)` under dark text; stated by `AdjustLightnessRange` |
| ColorUtils.AdjustColor | src/utils/colorUtils.ts:293-298 | a colour with its hue and saturation and the adjusted lightness; stated by `AdjustColorWellFormed` |
| ColorUtils.EnsureGoodContrast | src/utils/colorUtils.ts:284-319 | the whole combination rewrite; stated by the four `EnsureGoodContrast…` lemmas |
| ColorUtils.AdjustLightnessRange | src/utils/colorUtils.ts:297 | the shifted lightness is within [0.1, 0.9]; under light text it goes down and under dark text it goes up, strictly unless clamped |
| ColorUtils.EnsureGoodContrastKeeps | src/utils/colorUtils.ts:287-299 | the text colour is kept; the background is kept when the ratio is at least 4.5 |
| ColorUtils.EnsureGoodContrastMoves | src/utils/colorUtils.ts:291-299 | below 4.5 the background keeps hue and saturation, and its new lightness is exactly `max(0.1, l − 0.4)` under light text and `min(0.9, l + 0.4)` under dark text |
| ColorUtils.EnsureGoodContrastGradient | src/utils/colorUtils.ts:302-313 | both gradient stops are always shifted by 0.2 against the text lightness, even when the contrast is sufficient |
| ColorUtils.EnsureGoodContrastWellFormed | src/utils/colorUtils.ts:284-319 | the result's colours are all well-formed `#rrggbb` |
| ColorUtils.AdjustColorWellFormed | src/utils/colorUtils.ts:293-298 | a shifted colour is `#` and six lower-case hex digits |
| ImageUtils.IsImageFile | src/utils/imageUtils.ts:71-73 | true iff the MIME type starts with `image/` |
| ImageUtils.IsSupportedImageType | src/utils/imageUtils.ts:78-81 | true iff the MIME type is `image/jpeg`, `image/jpg` or `image/png` |
| ImageUtils.SupportedIsImage | src/utils/imageUtils.ts:71-81 | every supported type is an image type |
| ImageUtils.ImageButUnsupported | src/utils/imageUtils.ts:71-81 | GIF is an image but unsupported; the tests are case-sensitive |
| ImageUtils.IsValidFileSize | src/utils/imageUtils.ts:86-89 | the size is at most `maxSizeMB·1024·1024` bytes; stated by `DefaultSizeLimit` and `FileSizeMonotone` |
| ImageUtils.DefaultSizeLimit | src/utils/imageUtils.ts:86-89 | with the default limit a file passes iff it has at most 10485760 bytes |
| ImageUtils.FileSizeMonotone | src/utils/imageUtils.ts:86-89 | a smaller file, or a larger limit, still passes |
| ImageUtils.PlanCrop | src/utils/imageUtils.ts:23-38 | the crop square is the smaller side, fits both sides, starts at 0 on one axis, and is drawn over the whole targetSize canvas |
| ImageUtils.CropCentredInside | src/utils/imageUtils.ts:23-27 | the crop lies inside the image with equal margins on each axis |
| ImageUtils.CropOfSquareIsWhole | src/utils/imageUtils.ts:23-27 | a square image is used whole |
| ImageUtils.DefaultTarget | src/utils/imageUtils.ts:6 | without a target size the output is 128 by 128 |
| ColorInputs.ColorInput.constructor | src/components/SettingsPanel/ColorInput.tsx:12 | the text box starts with the given colour |
| ColorInputs.ColorInput.HandleHexChange | src/components/SettingsPanel/ColorInput.tsx:19-27 | the text is always kept; it is passed on (and becomes the value) iff it matches the pattern |
| ColorInputs.ColorInput.HandleColorPickerChange | src/components/SettingsPanel/ColorInput.tsx:29-32 | the picked colour is passed on and shown in the text box |
| ColorInputs.ColorInput.ValueChanged | src/components/SettingsPanel/ColorInput.tsx:15-17 | a changed value is copied into the text box; an unchanged one leaves it as typed |
| ColorInputs.PatternLongForm | src/components/SettingsPanel/ColorInput.tsx:23 | accepted text has length 4 or 7; the long form is exactly a colour the colour utilities read |
| ColorInputs.ShortFormAccepted | src/components/SettingsPanel/ColorInput.tsx:23-25 | `#RGB` passes the pattern, yet its channels do not read |
| ColorInputs.PatternExamples | src/components/SettingsPanel/ColorInput.tsx:23 | both lengths and both cases pass; a missing `#`, non-digits, four or seven digits do not |

## Left out

- GIF encoding is left out: the `gif.js` encoder, its workers and the promise plumbing (`src/utils/gifGenerator.ts:15-21, 97-105`). A frame is the canvas state together with its delay.
- Text measurement (`getTextWidth`, `measureText`) is left out. The measured width is an input to the export and to the preview.
- Rasterisation, fonts and anti-aliasing are left out. The canvas is symbolic.
- The preview's `requestAnimationFrame` scheduling and its cleanup (`src/components/Preview.tsx:101-112`) are left out. `Animate` is one callback, and the browser's clock is its `timestamp` parameter.
- The random colour generators (`src/utils/colorUtils.ts:99-279`) are left out. They depend on `Math.random`.
- `Math.pow(x, 2.4)` in the luminance is a parameter `pow24`. The model assumes only that it is non-negative. `BlackOnWhite` also assumes `pow24(1) = 1`.
- Floating point is left out. All arithmetic is on exact reals, so IEEE rounding of `/`, `*` and `Math.round`'s argument is not modelled.
- The positive-input preconditions `Runnable` (export) and `Drawable` (preview) are left out of the error handling. In the export, a zero period with a positive speed gives `cycleDuration = 0` and `frameCount = Math.ceil(0) = 0` (`src/utils/gifGenerator.ts:73-76`), so no frame is drawn and an empty frame list is encoded; the model requires a positive period and does not cover that empty export. A zero speed makes `frameCount` infinite, and so does a zero period in the preview, where `numCopies` becomes `Infinity` (`src/components/Preview.tsx:76, 91`); such a loop never ends, and the model does not represent it.
- ColorUtils.HexToHsl: requires a `#RRGGBB` colour. Strings whose three slices do not all parse make the source compute with `NaN`, which is not modelled. Other strings, such as `#12345z` or `#1234567`, read to finite channels in the source, and the model does not cover them here either. `ReadRgb` and `ContrastRatio` do model every string, the unreadable case as `None`.
- ColorUtils.EnsureGoodContrast: requires all three colours to be `#RRGGBB`, for the same reason.
- `ensureGoodContrast` is not shown to never lower the contrast ratio, and the source does not meet that aim. Text `#8080ff` (lightness about 0.75) on `#ffffff` has a ratio of about 3.26. The background is then darkened to `#999999`, and the ratio falls to about 1.14 (`src/utils/colorUtils.ts:291-299`). The model cannot show this input either way, because `Math.pow(x, 2.4)` is an opaque parameter.
- The export loop closes only up to one frame step. `SlideLayout.LoopClosesWithinStep` proves that the frame after the last would have offset `n·step − unitWidth`, which lies in `[0, step)`; the last frame is not followed by offset 0 exactly. It assumes a step no longer than the period.
- The colour text box's `maxLength={7}` (`src/components/SettingsPanel/ColorInput.tsx`) is left out. The pattern already rejects every text longer than seven characters, so the limit changes nothing the model states.
- There is no lemma that `hslToHex(hexToHsl(c))` gives back `c`. With rounding to 255 steps over exact reals this is true only up to the rounding, and it is not proved.
- ColorInputs.ColorInput: the `onChange` callback is modelled by its effect in the application, which sets the component's `value`. `emitted` records the calls.
- Image loading (`FileReader`, `Image`, `toDataURL`, `toBlob`) and `getImageDimensions` are left out. They are browser I/O; the crop arithmetic is modelled by `PlanCrop`.
- The React components besides `ColorInput`, the toast hook and the download link are left out. They are presentation only.
- Animation types other than `slide` are left out. They are collected by the settings panel, but no rendering code consumes them.
