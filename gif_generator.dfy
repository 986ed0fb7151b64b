/**
 * The GIF export of the sliding-text animation. The generator owns one
 * canvas, redraws it for each frame of the loop and appends a copy of it,
 * with its delay, to the encoder's frame buffer.
 */
module GifGeneration {
  import opened Wrappers
  import opened Types
  import opened JsNumber
  import opened Canvas
  import opened SlideLayout

  /** One frame handed to the encoder: a copy of the canvas and its delay in ms. */
  datatype Frame = Frame(image: Surface, delay: real)

  /** Everything one export reads: the configs, the measured text advance
      (the canvas text-measurement result) and the generator's canvas size. */
  datatype ExportJob = ExportJob(
    text: TextConfig,
    bg: BackgroundConfig,
    textWidth: real,
    width: nat,
    height: nat,
    fps: real)

  /** What the export needs to terminate: a positive period, speed and rate. */
  predicate Runnable(job: ExportJob) {
    && 0.0 <= job.textWidth
    && 0.0 < job.text.speed
    && 0.0 < job.fps
    && 0.0 < UnitWidth(job.textWidth, job.width as real, job.text.gap)
  }

  function JobUnitWidth(job: ExportJob): real {
    UnitWidth(job.textWidth, job.width as real, job.text.gap)
  }

  function JobCopies(job: ExportJob): nat
    requires Runnable(job)
  {
    NumCopies(job.width as real, JobUnitWidth(job))
  }

  function JobFrameCount(job: ExportJob): nat
    requires Runnable(job)
  {
    FrameCount(JobUnitWidth(job), job.text.speed, job.fps)
  }

  function ExportOffset(job: ExportJob, i: nat): real
    requires Runnable(job)
  {
    FrameOffset(i, job.fps, job.text.speed, JobUnitWidth(job))
  }

  /** The x positions of the copies drawn in frame `i`. */
  function FrameTiles(job: ExportJob, i: nat): seq<real>
    requires Runnable(job)
  {
    VisibleTiles(JobUnitWidth(job), ExportOffset(job, i), job.textWidth, job.width as real, JobCopies(job))
  }

  /** The font size in pixels: a percentage of the canvas height. */
  function FontPixels(canvasHeight: real, fontSizePct: real): real {
    canvasHeight * (fontSizePct / 100.0)
  }

  /** The delay of every frame, in milliseconds. */
  function FrameDelay(fps: real): real
    requires fps != 0.0
  {
    1000.0 / fps
  }

  /** The export draws text at half the canvas height, with a pixel size that
      is a percentage of the canvas height; no vertical offset is applied. */
  function ExportStrokes(job: ExportJob, xs: seq<real>): seq<TextStroke> {
    StrokesAt(job.text.text, xs, job.height as real / 2.0,
              FontPixels(job.height as real, job.text.fontSize), job.text.color, job.text.font)
  }

  /** The canvas after frame `i` is drawn over `prev`: the background with a
      horizontal gradient axis, then the visible copies. */
  function RenderFrame(job: ExportJob, prev: Surface, i: nat): Surface
    requires Runnable(job)
  {
    var painted := PaintBackground(prev, job.bg, job.width as real, 0.0);
    painted.(strokes := painted.strokes + ExportStrokes(job, FrameTiles(job, i)))
  }

  /** The canvas after the first `n` frames, starting from `s0`. */
  function CanvasAfter(job: ExportJob, s0: Surface, n: nat): Surface
    requires Runnable(job)
  {
    if n == 0 then s0 else RenderFrame(job, CanvasAfter(job, s0, n - 1), n - 1)
  }

  /** The frames the first `n` iterations append. */
  function ExportFrames(job: ExportJob, s0: Surface, n: nat): seq<Frame>
    requires Runnable(job)
  {
    if n == 0 then []
    else ExportFrames(job, s0, n - 1) + [Frame(CanvasAfter(job, s0, n), FrameDelay(job.fps))]
  }

  class GifGenerator {
    const width: nat
    const height: nat
    /** The shared drawing canvas, redrawn for every frame. */
    var canvas: Surface
    /** The encoder's frame buffer. */
    var frames: seq<Frame>

    constructor (config: GifConfig)
      ensures width == config.width && height == config.height
      ensures canvas == Blank && frames == []
    {
      width := config.width;
      height := config.height;
      canvas := Blank;
      frames := [];
    }

    method DrawBackground(bg: BackgroundConfig)
      modifies this`canvas
      ensures canvas == PaintBackground(old(canvas), bg, width as real, 0.0)
    {
      match bg.kind {
        case Transparent =>
          canvas := Surface(Cleared, []);
        case Solid =>
          canvas := Surface(Fill(bg.color), []);
        case Gradient =>
          if bg.gradientColors.Some? {
            var (c0, c1) := bg.gradientColors.value;
            canvas := Surface(LinearGradient(0.0, 0.0, width as real, 0.0, c0, c1), []);
          }
      }
    }

    method DrawText(text: TextConfig, x: real)
      modifies this`canvas
      ensures canvas.base == old(canvas).base
      ensures canvas.strokes == old(canvas).strokes
        + [TextStroke(text.text, x, height as real / 2.0, FontPixels(height as real, text.fontSize), text.color, text.font)]
    {
      var fontSize := height as real * (text.fontSize / 100.0);
      assert fontSize == FontPixels(height as real, text.fontSize);
      canvas := canvas.(strokes := canvas.strokes + [TextStroke(text.text, x, height as real / 2.0, fontSize, text.color, text.font)]);
    }

    /** The body of the frame loop: the background, then the copies at the
        frame's offset. */
    method DrawFrame(ghost job: ExportJob, text: TextConfig, bg: BackgroundConfig, textWidth: real,
                     fps: real, unitWidth: real, numCopies: nat, i: nat)
      requires job == ExportJob(text, bg, textWidth, width, height, fps) && Runnable(job)
      requires unitWidth == JobUnitWidth(job) && numCopies == JobCopies(job)
      modifies this`canvas
      ensures canvas == RenderFrame(job, old(canvas), i)
    {
      DrawBackground(bg);

      var currentTime := i as real / fps;
      var distance := currentTime * text.speed;
      var offset := JsRemainder(distance, unitWidth);
      OffsetAt(i, fps, text.speed, unitWidth, currentTime, distance);

      DrawCopies(job, text, textWidth, unitWidth, numCopies, offset);
    }

    /** The inner loop of a frame: each candidate copy that intersects the
        canvas is drawn, left to right. */
    method DrawCopies(ghost job: ExportJob, text: TextConfig, textWidth: real,
                      unitWidth: real, numCopies: nat, offset: real)
      requires job.text == text && job.textWidth == textWidth && job.width == width && job.height == height
      modifies this`canvas
      ensures canvas.base == old(canvas).base
      ensures canvas.strokes == old(canvas).strokes
        + ExportStrokes(job, VisibleTiles(unitWidth, offset, textWidth, width as real, numCopies))
    {
      ghost var painted := canvas;
      var j := 0;
      while j < numCopies
        invariant 0 <= j <= numCopies
        invariant canvas.base == painted.base
        invariant canvas.strokes == painted.strokes
          + ExportStrokes(job, VisibleTiles(unitWidth, offset, textWidth, width as real, j))
      {
        var x := j as real * unitWidth - offset;
        TileStep(job, unitWidth, offset, j, x);
        ghost var drawn := ExportStrokes(job, VisibleTiles(unitWidth, offset, textWidth, width as real, j + 1));
        if x > -textWidth && x < width as real {
          DrawText(text, x);
        }
        assert canvas.strokes == painted.strokes + drawn;
        j := j + 1;
      }
    }

    /**
     * Renders one loop of the sliding text and appends its frames. The
     * encoder's asynchronous render and its finished/error events are not
     * modelled; `textWidth` is the canvas's measurement of the text.
     */
    method GenerateGif(text: TextConfig, bg: BackgroundConfig, gifConfig: GifConfig, textWidth: real)
      requires Runnable(ExportJob(text, bg, textWidth, width, height, gifConfig.fps))
      modifies this`canvas, this`frames
      ensures var job := ExportJob(text, bg, textWidth, width, height, gifConfig.fps);
        && frames == old(frames) + ExportFrames(job, old(canvas), JobFrameCount(job))
        && canvas == CanvasAfter(job, old(canvas), JobFrameCount(job))
    {
      ghost var job := ExportJob(text, bg, textWidth, width, height, gifConfig.fps);
      var gapPixels := width as real * (text.gap / 100.0);
      var unitWidth := textWidth + gapPixels;
      var numCopies := Ceil(width as real / unitWidth) + 2;
      var cycleDuration := unitWidth / text.speed;
      var frameCount := Ceil(cycleDuration * gifConfig.fps);
      LayoutAt(textWidth, width as real, text.gap, text.speed, gifConfig.fps,
               gapPixels, unitWidth, numCopies, cycleDuration, frameCount);

      var i := 0;
      while i < frameCount
        invariant 0 <= i <= frameCount
        invariant canvas == CanvasAfter(job, old(canvas), i)
        invariant frames == old(frames) + ExportFrames(job, old(canvas), i)
      {
        DrawFrame(job, text, bg, textWidth, gifConfig.fps, unitWidth, numCopies, i);
        FrameStepAt(job, old(canvas), i);
        DelayAt(gifConfig.fps);
        frames := frames + [Frame(canvas, 1000.0 / gifConfig.fps)];
        i := i + 1;
      }
    }
  }

  // ---------------------------------------------------------------------
  // Steps of the export loop.

  /** The layout the export computes is the one the `SlideLayout` functions define. */
  lemma LayoutAt(textWidth: real, width: real, gap: real, speed: real, fps: real,
                 gapPixels: real, unitWidth: real, numCopies: int, cycleDuration: real, frameCount: int)
    requires 0.0 <= width && 0.0 < speed && 0.0 < fps && 0.0 < UnitWidth(textWidth, width, gap)
    requires gapPixels == width * (gap / 100.0) && unitWidth == textWidth + gapPixels
    requires numCopies == Ceil(width / unitWidth) + 2
    requires cycleDuration == unitWidth / speed && frameCount == Ceil(cycleDuration * fps)
    ensures unitWidth == UnitWidth(textWidth, width, gap)
    ensures numCopies == NumCopies(width, unitWidth)
    ensures frameCount == FrameCount(unitWidth, speed, fps)
  {
    assert cycleDuration * fps == (unitWidth / speed) * fps;
  }

  lemma OffsetAt(i: nat, fps: real, speed: real, unitWidth: real, currentTime: real, distance: real)
    requires 0.0 < fps && 0.0 < unitWidth
    requires currentTime == i as real / fps && distance == currentTime * speed
    ensures JsRemainder(distance, unitWidth) == FrameOffset(i, fps, speed, unitWidth)
  {
    assert distance == (i as real / fps) * speed;
  }

  lemma DelayAt(fps: real)
    requires fps != 0.0
    ensures 1000.0 / fps == FrameDelay(fps)
  {
  }

  /** Drawing copy `j` extends the strokes by that copy exactly when it is
      on the canvas. */
  lemma TileStep(job: ExportJob, unitWidth: real, offset: real, j: nat, x: real)
    requires x == j as real * unitWidth - offset
    ensures ExportStrokes(job, VisibleTiles(unitWidth, offset, job.textWidth, job.width as real, j + 1))
      == ExportStrokes(job, VisibleTiles(unitWidth, offset, job.textWidth, job.width as real, j))
         + (if x > -job.textWidth && x < job.width as real
            then [TextStroke(job.text.text, x, job.height as real / 2.0,
                             FontPixels(job.height as real, job.text.fontSize), job.text.color, job.text.font)]
            else [])
  {
    var xs := VisibleTiles(unitWidth, offset, job.textWidth, job.width as real, j);
    assert TileX(j, unitWidth, offset) == x;
    if x > -job.textWidth && x < job.width as real {
      assert VisibleTiles(unitWidth, offset, job.textWidth, job.width as real, j + 1) == xs + [x];
      StrokesAtSnoc(job, xs, x);
      assert ExportStrokes(job, [x])[0] == TextStroke(job.text.text, x, job.height as real / 2.0,
        FontPixels(job.height as real, job.text.fontSize), job.text.color, job.text.font);
    } else {
      assert VisibleTiles(unitWidth, offset, job.textWidth, job.width as real, j + 1) == xs;
    }
  }

  lemma StrokesAtSnoc(job: ExportJob, xs: seq<real>, x: real)
    ensures ExportStrokes(job, xs + [x]) == ExportStrokes(job, xs) + ExportStrokes(job, [x])
  {
    assert (xs + [x])[..|xs|] == xs;
  }

  /** One more iteration of the frame loop. */
  lemma FrameStepAt(job: ExportJob, s0: Surface, i: nat)
    requires Runnable(job)
    ensures CanvasAfter(job, s0, i + 1) == RenderFrame(job, CanvasAfter(job, s0, i), i)
    ensures ExportFrames(job, s0, i + 1) == ExportFrames(job, s0, i) + [Frame(CanvasAfter(job, s0, i + 1), FrameDelay(job.fps))]
  {
  }

  // ---------------------------------------------------------------------
  // Properties of the export.

  /** The loop has at least one frame, and its frames are the least number
      whose scrolled distance covers one period. */
  lemma FrameCountCoversOnePeriod(job: ExportJob)
    requires Runnable(job)
    ensures JobFrameCount(job) >= 1
    ensures (JobFrameCount(job) as real) * FrameStep(job.text.speed, job.fps) >= JobUnitWidth(job)
    ensures ((JobFrameCount(job) - 1) as real) * FrameStep(job.text.speed, job.fps) < JobUnitWidth(job)
  {
  }

  /** Exactly `frameCount` frames are appended, in index order, each holding
      the canvas as drawn for that index and the delay `1000 / fps`. */
  lemma {:induction false} ExportFramesInOrder(job: ExportJob, s0: Surface, n: nat)
    requires Runnable(job)
    ensures |ExportFrames(job, s0, n)| == n
    ensures forall i :: 0 <= i < n ==>
      ExportFrames(job, s0, n)[i] == Frame(CanvasAfter(job, s0, i + 1), FrameDelay(job.fps))
  {
    if n > 0 {
      ExportFramesInOrder(job, s0, n - 1);
    }
  }

  /** With a background that covers the canvas, each frame shows only its
      own background and its own tiles, whatever was drawn before it. */
  lemma FrameIsSelfContained(job: ExportJob, s0: Surface, i: nat)
    requires Runnable(job) && Covers(job.bg)
    ensures CanvasAfter(job, s0, i + 1) == RenderFrame(job, Blank, i)
    ensures CanvasAfter(job, s0, i + 1).strokes == ExportStrokes(job, FrameTiles(job, i))
  {
    PaintBackgroundCovers(CanvasAfter(job, s0, i), job.bg, job.width as real, 0.0);
  }

  /** A background that does not cover the canvas keeps the previous base
      and the previous strokes, and the frame's tiles go on top. */
  lemma RenderUncovered(job: ExportJob, prev: Surface, i: nat)
    requires Runnable(job) && !Covers(job.bg)
    ensures RenderFrame(job, prev, i).base == prev.base
    ensures RenderFrame(job, prev, i).strokes == prev.strokes + ExportStrokes(job, FrameTiles(job, i))
  {
    PaintBackgroundCovers(prev, job.bg, job.width as real, 0.0);
  }

  /** A gradient background without colours paints nothing, so each frame
      still shows the strokes of every frame before it. */
  lemma {:induction false} UncoveredFramesAccumulate(job: ExportJob, s0: Surface, i: nat, k: nat)
    requires Runnable(job) && !Covers(job.bg) && i <= k
    ensures CanvasAfter(job, s0, k).base == s0.base
    ensures CanvasAfter(job, s0, i).strokes <= CanvasAfter(job, s0, k).strokes
  {
    if i < k {
      UncoveredFramesAccumulate(job, s0, i, k - 1);
      var prev := CanvasAfter(job, s0, k - 1);
      RenderUncovered(job, prev, k - 1);
      assert CanvasAfter(job, s0, k) == RenderFrame(job, prev, k - 1);
    } else {
      if 0 < k {
        UncoveredFramesAccumulate(job, s0, 0, k - 1);
        RenderUncovered(job, CanvasAfter(job, s0, k - 1), k - 1);
      }
    }
  }

  /** Every offset lies in `[0, unitWidth)`, and frame 0 is not shifted. */
  lemma OffsetInPeriod(job: ExportJob, i: nat)
    requires Runnable(job)
    ensures 0.0 <= ExportOffset(job, i) < JobUnitWidth(job)
    ensures ExportOffset(job, 0) == 0.0
  {
    FrameOffsetInPeriod(i, job.fps, job.text.speed, JobUnitWidth(job));
    FirstFrameOffset(job.fps, job.text.speed, JobUnitWidth(job));
  }

  /**
   * The tiles of a frame are drawn left to right, each intersects the canvas,
   * each is a copy `j * unitWidth - offset` among the candidates, and with a
   * non-negative gap no copy that intersects the canvas is missing.
   */
  lemma FrameTilesExact(job: ExportJob, i: nat)
    requires Runnable(job) && 0.0 <= job.text.gap
    ensures var xs := FrameTiles(job, i);
      && StrictlyIncreasing(xs)
      && (forall x :: x in xs ==> OnCanvas(x, job.textWidth, job.width as real))
      && (forall x :: x in xs ==> exists j :: 0 <= j < JobCopies(job) && x == TileX(j, JobUnitWidth(job), ExportOffset(job, i)))
      && (forall j: int :: OnCanvas(TileX(j, JobUnitWidth(job), ExportOffset(job, i)), job.textWidth, job.width as real)
            ==> TileX(j, JobUnitWidth(job), ExportOffset(job, i)) in xs)
  {
    var u := JobUnitWidth(job);
    var off := ExportOffset(job, i);
    var xs := FrameTiles(job, i);
    OffsetInPeriod(job, i);
    VisibleTilesIncreasing(u, off, job.textWidth, job.width as real, JobCopies(job));
    VisibleTilesOnCanvas(u, off, job.textWidth, job.width as real, JobCopies(job));
    forall x | x in xs
      ensures exists j :: 0 <= j < JobCopies(job) && x == TileX(j, u, off)
    {
      VisibleTilesExactly(u, off, job.textWidth, job.width as real, JobCopies(job), x);
    }
    forall j: int | OnCanvas(TileX(j, u, off), job.textWidth, job.width as real)
      ensures TileX(j, u, off) in xs
    {
      NoVisibleCopyMissed(job.textWidth, job.width as real, job.text.gap, off, j);
    }
  }

  /** Every copy in an exported frame is drawn at half the canvas height with
      the height-relative font size; the user's vertical offset plays no part. */
  lemma ExportTextPlacement(job: ExportJob, s0: Surface, i: nat)
    requires Runnable(job) && Covers(job.bg)
    ensures forall s :: s in CanvasAfter(job, s0, i + 1).strokes ==>
      && s.y == job.height as real / 2.0
      && s.fontPx == FontPixels(job.height as real, job.text.fontSize)
      && s.text == job.text.text
      && s.x in FrameTiles(job, i)
  {
    FrameIsSelfContained(job, s0, i);
    StrokesAtMembers(job.text.text, FrameTiles(job, i), job.height as real / 2.0,
                     FontPixels(job.height as real, job.text.fontSize), job.text.color, job.text.font);
  }

  /** The horizontal gradient axis of the export, with the other background kinds. */
  lemma ExportBackgroundDispatch(job: ExportJob, prev: Surface, i: nat)
    requires Runnable(job)
    ensures var base := RenderFrame(job, prev, i).base;
      && (job.bg.kind == Transparent ==> base == Cleared)
      && (job.bg.kind == Solid ==> base == Fill(job.bg.color))
      && (job.bg.kind == Gradient && job.bg.gradientColors.Some? ==>
            base == LinearGradient(0.0, 0.0, job.width as real, 0.0, job.bg.gradientColors.value.0, job.bg.gradientColors.value.1))
      && (job.bg.kind == Gradient && job.bg.gradientColors.None? ==> RenderFrame(job, prev, i).base == prev.base)
  {
  }
}
