/**
 * The live preview: a fixed 128 x 128 canvas redrawn on every animation
 * callback. The effect that runs on each configuration change measures the
 * text, derives the tiling and (re)starts the callback chain; each callback
 * draws the background and the visible copies at the offset reached since
 * the first callback.
 */
module PreviewAnimation {
  import opened Wrappers
  import opened Types
  import opened JsNumber
  import opened Canvas
  import opened SlideLayout
  import opened TextAlignment

  /** The preview canvas is always 128 pixels square. */
  const CanvasSize: real := 128.0

  /** What one run of the effect captures: the configs and the measured
      advance of the text. */
  datatype Scene = Scene(text: TextConfig, bg: BackgroundConfig, textWidth: real)

  /** A measured width and a positive period, which the tiling needs. */
  predicate Drawable(sc: Scene) {
    0.0 <= sc.textWidth && 0.0 < UnitWidth(sc.textWidth, CanvasSize, sc.text.gap)
  }

  function SceneUnitWidth(sc: Scene): real {
    UnitWidth(sc.textWidth, CanvasSize, sc.text.gap)
  }

  function SceneCopies(sc: Scene): nat
    requires Drawable(sc)
  {
    NumCopies(CanvasSize, SceneUnitWidth(sc))
  }

  /** The pixel font size: a percentage of the canvas height. */
  function PreviewFontPx(fontSizePct: real): real {
    CanvasSize * (fontSizePct / 100.0)
  }

  /** The text's y: the canvas centre, moved up by the user's offset (a
      percentage of the height) and nudged by the script-mix adjustment. */
  function TextY(text: string, verticalOffsetPct: real): real {
    CanvasSize / 2.0 - CanvasSize * (verticalOffsetPct / 100.0) + CalculateOptimalVerticalOffset(text, 0.0)
  }

  /** The offset `progress` milliseconds after the first callback. */
  function PreviewOffset(progress: real, speed: real, unitWidth: real): real
    requires 0.0 < unitWidth
  {
    JsRemainder((progress * speed) / 1000.0, unitWidth)
  }

  /** The x positions drawn `progress` milliseconds into the animation. */
  function PreviewTiles(sc: Scene, progress: real): seq<real>
    requires Drawable(sc)
  {
    VisibleTiles(SceneUnitWidth(sc), PreviewOffset(progress, sc.text.speed, SceneUnitWidth(sc)),
                 sc.textWidth, CanvasSize, SceneCopies(sc))
  }

  function PreviewStrokes(sc: Scene, xs: seq<real>): seq<TextStroke> {
    StrokesAt(sc.text.text, xs, TextY(sc.text.text, sc.text.verticalOffset),
              PreviewFontPx(sc.text.fontSize), sc.text.color, sc.text.font)
  }

  /** The canvas after one callback over `prev`: the background with a
      diagonal gradient axis, then the visible copies. */
  function PreviewFrame(sc: Scene, prev: Surface, progress: real): Surface
    requires Drawable(sc)
  {
    var painted := PaintBackground(prev, sc.bg, CanvasSize, CanvasSize);
    painted.(strokes := painted.strokes + PreviewStrokes(sc, PreviewTiles(sc, progress)))
  }

  /** The start time after a callback at `timestamp`: an unset start, and a
      start of exactly 0 (which the truthiness test also treats as unset),
      take the callback's timestamp. */
  function NextStart(start: Option<real>, timestamp: real): (r: Option<real>)
    ensures r.Some?
  {
    if start.None? || start.value == 0.0 then Some(timestamp) else start
  }

  class Preview {
    /** The inputs of the latest effect run, captured by its closures. */
    var scene: Scene
    /** The values the effect derives from them. */
    var fontSize: real
    var unitWidth: real
    var numCopies: nat
    /** The start-time ref: it outlives effect runs. */
    var startTime: Option<real>
    var canvas: Surface

    ghost predicate Valid()
      reads this
    {
      && Drawable(scene)
      && fontSize == PreviewFontPx(scene.text.fontSize)
      && unitWidth == SceneUnitWidth(scene)
      && numCopies == SceneCopies(scene)
    }

    /** Mounting: the refs start unset and the effect runs once. */
    constructor (text: TextConfig, bg: BackgroundConfig, textWidth: real)
      requires Drawable(Scene(text, bg, textWidth))
      ensures Valid() && scene == Scene(text, bg, textWidth)
      ensures startTime == None && canvas == Blank
    {
      scene := Scene(text, bg, textWidth);
      fontSize := 0.0;
      unitWidth := 1.0;
      numCopies := 0;
      startTime := None;
      canvas := Blank;
      new;
      Configure(text, bg, textWidth);
    }

    /**
     * The effect body, run on mount and whenever the configs change. Setting
     * the canvas size clears the canvas; the start time is a ref and is kept,
     * so the scroll continues from the same origin. `textWidth` is the
     * canvas's measurement of the text at the new font size.
     */
    method Configure(text: TextConfig, bg: BackgroundConfig, textWidth: real)
      requires Drawable(Scene(text, bg, textWidth))
      modifies this
      ensures Valid() && scene == Scene(text, bg, textWidth)
      ensures startTime == old(startTime) && canvas == Blank
    {
      canvas := Blank;
      scene := Scene(text, bg, textWidth);
      fontSize := CanvasSize * (text.fontSize / 100.0);
      var gapPixels := CanvasSize * (text.gap / 100.0);
      unitWidth := textWidth + gapPixels;
      numCopies := Ceil(CanvasSize / unitWidth) + 2;
      CopiesAt(unitWidth, numCopies);
    }

    /** The effect's background closure, with a diagonal gradient axis. */
    method DrawBackground()
      modifies this`canvas
      ensures canvas == PaintBackground(old(canvas), scene.bg, CanvasSize, CanvasSize)
    {
      match scene.bg.kind {
        case Transparent =>
          canvas := Surface(Cleared, []);
        case Solid =>
          canvas := Surface(Fill(scene.bg.color), []);
        case Gradient =>
          if scene.bg.gradientColors.Some? {
            var (c0, c1) := scene.bg.gradientColors.value;
            canvas := Surface(LinearGradient(0.0, 0.0, CanvasSize, CanvasSize, c0, c1), []);
          }
      }
    }

    /** The effect's text closure: draws one copy at `x`. */
    method DrawText(x: real)
      requires fontSize == PreviewFontPx(scene.text.fontSize)
      modifies this`canvas
      ensures canvas.base == old(canvas).base
      ensures canvas.strokes == old(canvas).strokes
        + [TextStroke(scene.text.text, x, TextY(scene.text.text, scene.text.verticalOffset),
                      PreviewFontPx(scene.text.fontSize), scene.text.color, scene.text.font)]
    {
      var baseY := CanvasSize / 2.0;
      var userOffset := CanvasSize * (scene.text.verticalOffset / 100.0);
      var dynamicOffset := CalculateOptimalVerticalOffset(scene.text.text, 0.0);
      var offsetY := baseY - userOffset + dynamicOffset;
      canvas := canvas.(strokes := canvas.strokes
        + [TextStroke(scene.text.text, x, offsetY, fontSize, scene.text.color, scene.text.font)]);
    }

    /**
     * One animation callback at `timestamp` (milliseconds). The first
     * callback fixes the start time; the offset is the distance scrolled
     * since then, taken with JavaScript's `%` modulo the period.
     */
    method Animate(timestamp: real)
      requires Valid()
      modifies this`startTime, this`canvas
      ensures Valid()
      ensures startTime == NextStart(old(startTime), timestamp)
      ensures canvas == PreviewFrame(scene, old(canvas), timestamp - startTime.value)
    {
      if startTime.None? || startTime.value == 0.0 {
        startTime := Some(timestamp);
      }
      var progress := timestamp - startTime.value;
      DrawBackground();
      var distance := (progress * scene.text.speed) / 1000.0;
      var offset := JsRemainder(distance, unitWidth);
      PreviewOffsetAt(progress, scene.text.speed, unitWidth, distance);
      DrawCopies(offset);
    }

    /** The loop of a callback: each candidate copy that intersects the
        canvas is drawn, left to right. */
    method DrawCopies(offset: real)
      requires fontSize == PreviewFontPx(scene.text.fontSize)
      modifies this`canvas
      ensures canvas == old(canvas).(strokes := old(canvas).strokes
        + PreviewStrokes(scene, VisibleTiles(unitWidth, offset, scene.textWidth, CanvasSize, numCopies)))
    {
      ghost var painted := canvas;
      var i := 0;
      while i < numCopies
        invariant 0 <= i <= numCopies
        invariant canvas.base == painted.base
        invariant canvas.strokes == painted.strokes
          + PreviewStrokes(scene, VisibleTiles(unitWidth, offset, scene.textWidth, CanvasSize, i))
      {
        var x := i as real * unitWidth - offset;
        PreviewTileStep(scene, unitWidth, offset, i, x);
        ghost var drawn := PreviewStrokes(scene, VisibleTiles(unitWidth, offset, scene.textWidth, CanvasSize, i + 1));
        if x > -scene.textWidth && x < CanvasSize {
          DrawText(x);
        }
        assert canvas.strokes == painted.strokes + drawn;
        i := i + 1;
      }
    }
  }

  // ---------------------------------------------------------------------
  // Steps of the callback.

  lemma CopiesAt(unitWidth: real, numCopies: int)
    requires 0.0 < unitWidth && numCopies == Ceil(CanvasSize / unitWidth) + 2
    ensures numCopies == NumCopies(CanvasSize, unitWidth)
  {
  }

  lemma PreviewOffsetAt(progress: real, speed: real, unitWidth: real, distance: real)
    requires 0.0 < unitWidth && distance == (progress * speed) / 1000.0
    ensures JsRemainder(distance, unitWidth) == PreviewOffset(progress, speed, unitWidth)
  {
  }

  /** Drawing copy `i` extends the strokes by that copy exactly when it is
      on the canvas. */
  lemma PreviewTileStep(sc: Scene, unitWidth: real, offset: real, i: nat, x: real)
    requires x == i as real * unitWidth - offset
    ensures PreviewStrokes(sc, VisibleTiles(unitWidth, offset, sc.textWidth, CanvasSize, i + 1))
      == PreviewStrokes(sc, VisibleTiles(unitWidth, offset, sc.textWidth, CanvasSize, i))
         + (if x > -sc.textWidth && x < CanvasSize
            then [TextStroke(sc.text.text, x, TextY(sc.text.text, sc.text.verticalOffset),
                             PreviewFontPx(sc.text.fontSize), sc.text.color, sc.text.font)]
            else [])
  {
    var xs := VisibleTiles(unitWidth, offset, sc.textWidth, CanvasSize, i);
    assert TileX(i, unitWidth, offset) == x;
    if x > -sc.textWidth && x < CanvasSize {
      assert VisibleTiles(unitWidth, offset, sc.textWidth, CanvasSize, i + 1) == xs + [x];
      var all := PreviewStrokes(sc, xs + [x]);
      assert all[..|xs|] == PreviewStrokes(sc, xs) by {
        assert (xs + [x])[..|xs|] == xs;
      }
      assert all == all[..|xs|] + [all[|xs|]];
    } else {
      assert VisibleTiles(unitWidth, offset, sc.textWidth, CanvasSize, i + 1) == xs;
    }
  }

  // ---------------------------------------------------------------------
  // Properties of the preview.

  /** Once a callback has fixed a non-zero start time, later callbacks keep
      it; the first callback always measures zero progress. */
  lemma StartTimeIsFixedOnce(start: Option<real>, t1: real, t2: real)
    ensures NextStart(start, t1).Some?
    ensures (start.None? || start == Some(0.0)) ==> t1 - NextStart(start, t1).value == 0.0
    ensures (start.Some? && start.value != 0.0) ==> NextStart(start, t1) == start
    ensures t1 != 0.0 ==> NextStart(NextStart(start, t1), t2) == NextStart(start, t1)
  {
  }

  /** A callback whose start time is 0 does not fix it: the next callback
      restarts the clock at its own timestamp. */
  lemma ZeroStartRestarts(t2: real)
    ensures NextStart(NextStart(None, 0.0), t2) == Some(t2)
  {
  }

  /** Progress zero means offset zero: the first callback is unshifted. */
  lemma FirstCallbackUnshifted(speed: real, unitWidth: real)
    requires 0.0 < unitWidth
    ensures PreviewOffset(0.0, speed, unitWidth) == 0.0
  {
    assert (0.0 * speed) / 1000.0 == 0.0;
    RemainderOfSmall(0.0, unitWidth);
  }

  /** The preview is periodic: `1000 * unitWidth / speed` milliseconds later
      the strip has scrolled one whole period and shows the same offset. */
  lemma PreviewPeriodic(progress: real, speed: real, unitWidth: real)
    requires 0.0 <= progress && 0.0 < speed && 0.0 < unitWidth
    ensures PreviewOffset(progress + 1000.0 * unitWidth / speed, speed, unitWidth)
         == PreviewOffset(progress, speed, unitWidth)
  {
    var d := (progress * speed) / 1000.0;
    assert ((progress + 1000.0 * unitWidth / speed) * speed) / 1000.0 == d + unitWidth;
    NonNegProduct(progress, speed);
    RemainderShift(d, unitWidth);
  }

  /** After exactly one period's time the loop closes at offset 0. */
  lemma PreviewLoopCloses(speed: real, unitWidth: real)
    requires 0.0 < speed && 0.0 < unitWidth
    ensures PreviewOffset(1000.0 * unitWidth / speed, speed, unitWidth) == 0.0
  {
    PreviewPeriodic(0.0, speed, unitWidth);
    FirstCallbackUnshifted(speed, unitWidth);
    assert 0.0 + 1000.0 * unitWidth / speed == 1000.0 * unitWidth / speed;
  }

  /** With time moving forward and a non-negative speed, every offset lies
      in `[0, unitWidth)`. */
  lemma PreviewOffsetInPeriod(progress: real, speed: real, unitWidth: real)
    requires 0.0 <= progress && 0.0 <= speed && 0.0 < unitWidth
    ensures 0.0 <= PreviewOffset(progress, speed, unitWidth) < unitWidth
  {
    NonNegProduct(progress, speed);
    RemainderInPeriod((progress * speed) / 1000.0, unitWidth);
  }

  /** A larger vertical offset moves the text up (smaller y), by 1.28 pixels
      per percent; without an offset the text sits at the centre plus the
      script-mix adjustment of -4, 0, 1 or 2 pixels. */
  lemma TextYPlacement(text: string, vo1: real, vo2: real)
    ensures vo1 < vo2 ==> TextY(text, vo2) < TextY(text, vo1)
    ensures TextY(text, vo1) == TextY(text, 0.0) - 1.28 * vo1
    ensures TextY(text, 0.0) - 64.0 in {-4.0, 0.0, 1.0, 2.0}
  {
    AdjustmentRange(text, 0.0);
  }

  /** The preview's font size scales with the 128-pixel canvas. */
  lemma PreviewFontScales(fontSizePct: real)
    ensures PreviewFontPx(fontSizePct) == 1.28 * fontSizePct
    ensures 0.0 <= fontSizePct ==> 0.0 <= PreviewFontPx(fontSizePct) && (fontSizePct <= 100.0 ==> PreviewFontPx(fontSizePct) <= CanvasSize)
  {
  }

  /**
   * The copies of a callback are drawn left to right, each intersects the
   * canvas, each is a copy `i * unitWidth - offset` among the candidates,
   * and with a non-negative gap and speed no copy that intersects the canvas
   * is missing.
   */
  lemma PreviewTilesExact(sc: Scene, progress: real)
    requires Drawable(sc) && 0.0 <= sc.text.gap && 0.0 <= sc.text.speed && 0.0 <= progress
    ensures var xs := PreviewTiles(sc, progress);
      var u := SceneUnitWidth(sc);
      var off := PreviewOffset(progress, sc.text.speed, u);
      && StrictlyIncreasing(xs)
      && (forall x :: x in xs ==> OnCanvas(x, sc.textWidth, CanvasSize))
      && (forall x :: x in xs ==> exists j :: 0 <= j < SceneCopies(sc) && x == TileX(j, u, off))
      && (forall j: int :: OnCanvas(TileX(j, u, off), sc.textWidth, CanvasSize) ==> TileX(j, u, off) in xs)
  {
    var u := SceneUnitWidth(sc);
    var speed := sc.text.speed;
    var off := PreviewOffset(progress, speed, u);
    var n := SceneCopies(sc);
    var xs := PreviewTiles(sc, progress);
    PreviewOffsetInPeriod(progress, speed, u);
    VisibleTilesIncreasing(u, off, sc.textWidth, CanvasSize, n);
    VisibleTilesOnCanvas(u, off, sc.textWidth, CanvasSize, n);
    forall x | x in xs
      ensures exists j :: 0 <= j < n && x == TileX(j, u, off)
    {
      VisibleTilesExactly(u, off, sc.textWidth, CanvasSize, n, x);
    }
    forall j: int | OnCanvas(TileX(j, u, off), sc.textWidth, CanvasSize)
      ensures TileX(j, u, off) in xs
    {
      NoVisibleCopyMissed(sc.textWidth, CanvasSize, sc.text.gap, off, j);
    }
  }

  /** Over a covering background, a callback shows only its own copies, each
      at the preview's y and font size. */
  lemma PreviewTextPlacement(sc: Scene, prev: Surface, progress: real)
    requires Drawable(sc) && Covers(sc.bg)
    ensures forall s :: s in PreviewFrame(sc, prev, progress).strokes ==>
      && s.y == TextY(sc.text.text, sc.text.verticalOffset)
      && s.fontPx == PreviewFontPx(sc.text.fontSize)
      && s.text == sc.text.text
      && s.x in PreviewTiles(sc, progress)
  {
    PaintBackgroundCovers(prev, sc.bg, CanvasSize, CanvasSize);
    var xs := PreviewTiles(sc, progress);
    var strokes := PreviewStrokes(sc, xs);
    assert PreviewFrame(sc, prev, progress).strokes == strokes;
    StrokesAtMembers(sc.text.text, xs, TextY(sc.text.text, sc.text.verticalOffset),
                     PreviewFontPx(sc.text.fontSize), sc.text.color, sc.text.font);
  }

  /** The diagonal gradient axis of the preview, with the other background kinds. */
  lemma PreviewBackgroundDispatch(sc: Scene, prev: Surface, progress: real)
    requires Drawable(sc)
    ensures var base := PreviewFrame(sc, prev, progress).base;
      && (sc.bg.kind == Transparent ==> base == Cleared)
      && (sc.bg.kind == Solid ==> base == Fill(sc.bg.color))
      && (sc.bg.kind == Gradient && sc.bg.gradientColors.Some? ==>
            base == LinearGradient(0.0, 0.0, 128.0, 128.0, sc.bg.gradientColors.value.0, sc.bg.gradientColors.value.1))
      && (sc.bg.kind == Gradient && sc.bg.gradientColors.None? ==> base == prev.base)
  {
  }
}
