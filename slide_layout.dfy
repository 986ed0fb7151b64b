/**
 * The tiling arithmetic of the sliding-text animation, shared by the GIF
 * export and the live preview: copies of the text, one `unitWidth` apart,
 * scroll left by an offset in `[0, unitWidth)`; only copies that intersect
 * the canvas horizontally are drawn.
 */
module SlideLayout {
  import opened JsNumber

  /** Text advance plus the gap, a percentage of the canvas width. */
  function UnitWidth(textWidth: real, canvasWidth: real, gapPct: real): real {
    textWidth + canvasWidth * (gapPct / 100.0)
  }

  /** A non-negative gap makes the period at least as wide as the text. */
  lemma UnitWidthCoversText(textWidth: real, canvasWidth: real, gapPct: real)
    requires 0.0 <= canvasWidth && 0.0 <= gapPct
    ensures UnitWidth(textWidth, canvasWidth, gapPct) >= textWidth
  {
  }

  /** `Math.ceil(canvasWidth / unitWidth) + 2` candidate copies. */
  function NumCopies(canvasWidth: real, unitWidth: real): (n: nat)
    requires 0.0 <= canvasWidth && 0.0 < unitWidth
    ensures n >= 2
    ensures ((n - 2) as real) * unitWidth >= canvasWidth
  {
    var c := Ceil(canvasWidth / unitWidth);
    MulMono(canvasWidth / unitWidth, c as real, unitWidth);
    c + 2
  }

  /** Pixels the text moves between two consecutive exported frames. */
  function FrameStep(speed: real, fps: real): real
    requires 0.0 < fps
  {
    (1.0 / fps) * speed
  }

  /**
   * `Math.ceil((unitWidth / speed) * fps)`: the number of frames in one loop.
   * It is the least frame count whose scrolled distance covers one period.
   */
  function FrameCount(unitWidth: real, speed: real, fps: real): (n: nat)
    requires 0.0 < unitWidth && 0.0 < speed && 0.0 < fps
    ensures n >= 1
    ensures (n as real) * FrameStep(speed, fps) >= unitWidth
    ensures ((n - 1) as real) * FrameStep(speed, fps) < unitWidth
  {
    var cycles := (unitWidth / speed) * fps;
    var c := Ceil(cycles);
    var step := FrameStep(speed, fps);
    assert cycles * step == unitWidth;
    MulMono(cycles, c as real, step);
    MulMonoStrict((c - 1) as real, cycles, step);
    calc {
      ((c - 1) as real) * step;
    <
      cycles * step;
    ==
      unitWidth;
    }
    c
  }

  /** The offset of exported frame `i`: frame `i` is shown at `i / fps`
      seconds, when the strip has moved `time * speed` pixels, taken with
      JavaScript's `%` modulo the period. */
  function FrameOffset(i: nat, fps: real, speed: real, unitWidth: real): real
    requires 0.0 < fps && 0.0 < unitWidth
  {
    JsRemainder((i as real / fps) * speed, unitWidth)
  }

  /** Frame `i` has scrolled `i` whole steps. */
  lemma FrameDistance(speed: real, fps: real, i: nat)
    requires 0.0 < fps
    ensures (i as real / fps) * speed == (i as real) * FrameStep(speed, fps)
  {
    ScaleDiv(i as real, fps, speed);
  }

  /** Every offset lies in `[0, unitWidth)`, and frame 0 is not shifted. */
  lemma FrameOffsetInPeriod(i: nat, fps: real, speed: real, unitWidth: real)
    requires 0.0 < fps && 0.0 <= speed && 0.0 < unitWidth
    ensures 0.0 <= FrameOffset(i, fps, speed, unitWidth) < unitWidth
  {
    NonNegProduct(i as real / fps, speed);
    RemainderInPeriod((i as real / fps) * speed, unitWidth);
  }

  lemma FirstFrameOffset(fps: real, speed: real, unitWidth: real)
    requires 0.0 < fps && 0.0 < unitWidth
    ensures FrameOffset(0, fps, speed, unitWidth) == 0.0
  {
    assert (0 as real / fps) * speed == 0.0;
    RemainderOfSmall(0.0, unitWidth);
  }

  /** Until a whole period has scrolled by, the remainder leaves a frame's
      distance unchanged: the offset is exactly `i` frame steps. */
  lemma NoWrapBeforePeriod(i: nat, fps: real, speed: real, unitWidth: real)
    requires 0.0 < fps && 0.0 <= speed && 0.0 < unitWidth
    requires (i as real) * FrameStep(speed, fps) < unitWidth
    ensures FrameOffset(i, fps, speed, unitWidth) == (i as real) * FrameStep(speed, fps)
  {
    FrameDistance(speed, fps, i);
    NonNegProduct(i as real, FrameStep(speed, fps));
    RemainderOfSmall((i as real) * FrameStep(speed, fps), unitWidth);
  }

  /** Inside a loop of `n` frames whose last frame has not yet scrolled a
      whole period, no frame's offset wraps, so offsets increase strictly. */
  lemma NoWrapWithinLoop(i: nat, n: nat, fps: real, speed: real, unitWidth: real)
    requires 0.0 < fps && 0.0 < speed && 0.0 < unitWidth
    requires ((n - 1) as real) * FrameStep(speed, fps) < unitWidth && i < n
    ensures FrameOffset(i, fps, speed, unitWidth) == (i as real) * FrameStep(speed, fps)
    ensures 0 < i ==> FrameOffset(i - 1, fps, speed, unitWidth) < FrameOffset(i, fps, speed, unitWidth)
  {
    var step := FrameStep(speed, fps);
    MulMono(i as real, (n - 1) as real, step);
    NoWrapBeforePeriod(i, fps, speed, unitWidth);
    if 0 < i {
      MulMonoStrict((i - 1) as real, i as real, step);
      NoWrapBeforePeriod(i - 1, fps, speed, unitWidth);
    }
  }

  /** Within the `FrameCount` frames of one loop the offset never wraps:
      frame `i` is shifted by exactly `i` frame steps, so the offsets
      increase strictly along the loop. */
  lemma LoopOffsets(i: nat, fps: real, speed: real, unitWidth: real)
    requires 0.0 < fps && 0.0 < speed && 0.0 < unitWidth
    requires i < FrameCount(unitWidth, speed, fps)
    ensures FrameOffset(i, fps, speed, unitWidth) == (i as real) * FrameStep(speed, fps)
    ensures 0 < i ==> FrameOffset(i - 1, fps, speed, unitWidth) < FrameOffset(i, fps, speed, unitWidth)
  {
    NoWrapWithinLoop(i, FrameCount(unitWidth, speed, fps), fps, speed, unitWidth);
  }

  /** The export's loop closes up to one frame step: the frame after the
      last one would be shifted by `n * step - unitWidth`, which lies in
      `[0, step)`. (When one step is longer than the period, the loop has a
      single frame and the next offset can be anywhere in the period.) */
  lemma LoopClosesWithinStep(fps: real, speed: real, unitWidth: real)
    requires 0.0 < fps && 0.0 < speed && 0.0 < unitWidth
    requires FrameStep(speed, fps) <= unitWidth
    ensures var n := FrameCount(unitWidth, speed, fps);
      var step := FrameStep(speed, fps);
      && FrameOffset(n, fps, speed, unitWidth) == (n as real) * step - unitWidth
      && 0.0 <= FrameOffset(n, fps, speed, unitWidth) < step
  {
    var n := FrameCount(unitWidth, speed, fps);
    OffsetAfterCover(n, fps, speed, unitWidth, FrameStep(speed, fps));
  }

  /** The offset of a frame that has just covered one period. */
  lemma OffsetAfterCover(n: nat, fps: real, speed: real, unitWidth: real, step: real)
    requires 0.0 < fps && 0.0 < unitWidth && step == FrameStep(speed, fps) && step <= unitWidth
    requires (n as real) * step >= unitWidth && ((n - 1) as real) * step < unitWidth
    ensures FrameOffset(n, fps, speed, unitWidth) == (n as real) * step - unitWidth
  {
    var d := (n as real) * step;
    FrameDistance(speed, fps, n);
    assert d == ((n - 1) as real) * step + step;
    RemainderPastPeriod(d, unitWidth, step);
  }

  /** The x of copy `j` when the strip has scrolled by `offset`. */
  function TileX(j: int, unitWidth: real, offset: real): real {
    (j as real) * unitWidth - offset
  }

  /** A copy is drawn only when it can intersect the canvas. */
  predicate OnCanvas(x: real, textWidth: real, canvasWidth: real) {
    x > -textWidth && x < canvasWidth
  }

  /** The x positions drawn among the first `n` copies, in copy order. */
  function VisibleTiles(unitWidth: real, offset: real, textWidth: real, canvasWidth: real, n: nat): seq<real> {
    if n == 0 then []
    else
      var x := TileX(n - 1, unitWidth, offset);
      VisibleTiles(unitWidth, offset, textWidth, canvasWidth, n - 1)
        + (if OnCanvas(x, textWidth, canvasWidth) then [x] else [])
  }

  // ---------------------------------------------------------------------
  // Properties of the tiling.

  lemma TileXMono(i: int, j: int, unitWidth: real, offset: real)
    requires i < j && 0.0 < unitWidth
    ensures TileX(i, unitWidth, offset) + unitWidth <= TileX(j, unitWidth, offset)
  {
    MulMono((i + 1) as real, j as real, unitWidth);
  }

  /** Exactly the on-canvas copies among the first `n` are drawn. */
  lemma {:induction false} VisibleTilesExactly(unitWidth: real, offset: real, textWidth: real, canvasWidth: real, n: nat, x: real)
    ensures x in VisibleTiles(unitWidth, offset, textWidth, canvasWidth, n)
        <==> exists j :: 0 <= j < n && x == TileX(j, unitWidth, offset) && OnCanvas(x, textWidth, canvasWidth)
  {
    if n > 0 {
      VisibleTilesExactly(unitWidth, offset, textWidth, canvasWidth, n - 1, x);
      var prefix := VisibleTiles(unitWidth, offset, textWidth, canvasWidth, n - 1);
      var last := TileX(n - 1, unitWidth, offset);
      assert VisibleTiles(unitWidth, offset, textWidth, canvasWidth, n)
        == prefix + (if OnCanvas(last, textWidth, canvasWidth) then [last] else []);
      if exists j :: 0 <= j < n && x == TileX(j, unitWidth, offset) && OnCanvas(x, textWidth, canvasWidth) {
        var j :| 0 <= j < n && x == TileX(j, unitWidth, offset) && OnCanvas(x, textWidth, canvasWidth);
        if j < n - 1 {
          assert x in prefix;
        }
      }
    }
  }

  /** Every drawn copy lies before all later copies. */
  lemma {:induction false} VisibleTilesBelow(unitWidth: real, offset: real, textWidth: real, canvasWidth: real, n: nat, k: int)
    requires 0.0 < unitWidth && n <= k
    ensures forall x :: x in VisibleTiles(unitWidth, offset, textWidth, canvasWidth, n) ==> x < TileX(k, unitWidth, offset)
  {
    forall x | x in VisibleTiles(unitWidth, offset, textWidth, canvasWidth, n)
      ensures x < TileX(k, unitWidth, offset)
    {
      VisibleTilesExactly(unitWidth, offset, textWidth, canvasWidth, n, x);
      var j :| 0 <= j < n && x == TileX(j, unitWidth, offset) && OnCanvas(x, textWidth, canvasWidth);
      TileXMono(j, k, unitWidth, offset);
    }
  }

  predicate StrictlyIncreasing(xs: seq<real>) {
    forall a, b :: 0 <= a < b < |xs| ==> xs[a] < xs[b]
  }

  /** Drawn positions strictly increase, so copies are drawn left to right. */
  lemma {:induction false} VisibleTilesIncreasing(unitWidth: real, offset: real, textWidth: real, canvasWidth: real, n: nat)
    requires 0.0 < unitWidth
    ensures StrictlyIncreasing(VisibleTiles(unitWidth, offset, textWidth, canvasWidth, n))
  {
    if n > 0 {
      VisibleTilesIncreasing(unitWidth, offset, textWidth, canvasWidth, n - 1);
      VisibleTilesBelow(unitWidth, offset, textWidth, canvasWidth, n - 1, n - 1);
      var prefix := VisibleTiles(unitWidth, offset, textWidth, canvasWidth, n - 1);
      var xs := VisibleTiles(unitWidth, offset, textWidth, canvasWidth, n);
      forall a, b | 0 <= a < b < |xs| ensures xs[a] < xs[b] {
        if b >= |prefix| {
          assert b == |prefix| && xs[b] == TileX(n - 1, unitWidth, offset);
          assert xs[a] == prefix[a];
          assert prefix[a] in prefix;
          assert prefix[a] < TileX(n - 1, unitWidth, offset);
        } else {
          assert xs[a] == prefix[a] && xs[b] == prefix[b];
        }
      }
    }
  }

  /** The last candidate copy starts strictly right of the canvas. */
  lemma LastCopyPastEdge(canvasWidth: real, unitWidth: real, offset: real)
    requires 0.0 <= canvasWidth && 0.0 < unitWidth && 0.0 <= offset < unitWidth
    ensures TileX(NumCopies(canvasWidth, unitWidth) - 1, unitWidth, offset) > canvasWidth
  {
    var n := NumCopies(canvasWidth, unitWidth);
    assert ((n - 1) as real) * unitWidth == ((n - 2) as real) * unitWidth + unitWidth;
  }

  /**
   * No copy that intersects the canvas is left out: with a non-negative gap
   * and an offset in `[0, unitWidth)`, every on-canvas copy index, over all
   * integers, is among the candidates, so the drawn tiles are all of them.
   */
  lemma NoVisibleCopyMissed(textWidth: real, canvasWidth: real, gapPct: real, offset: real, j: int)
    requires 0.0 <= canvasWidth && 0.0 <= gapPct
    requires 0.0 < UnitWidth(textWidth, canvasWidth, gapPct)
    requires 0.0 <= offset < UnitWidth(textWidth, canvasWidth, gapPct)
    requires OnCanvas(TileX(j, UnitWidth(textWidth, canvasWidth, gapPct), offset), textWidth, canvasWidth)
    ensures 0 <= j < NumCopies(canvasWidth, UnitWidth(textWidth, canvasWidth, gapPct))
    ensures TileX(j, UnitWidth(textWidth, canvasWidth, gapPct), offset)
         in VisibleTiles(UnitWidth(textWidth, canvasWidth, gapPct), offset, textWidth, canvasWidth,
                         NumCopies(canvasWidth, UnitWidth(textWidth, canvasWidth, gapPct)))
  {
    var u := UnitWidth(textWidth, canvasWidth, gapPct);
    var n := NumCopies(canvasWidth, u);
    if j < 0 {
      TileXMono(j, 0, u, offset);
      assert false;
    }
    if j >= n {
      LastCopyPastEdge(canvasWidth, u, offset);
      if j > n - 1 {
        TileXMono(n - 1, j, u, offset);
      }
      assert false;
    }
    VisibleTilesExactly(u, offset, textWidth, canvasWidth, n, TileX(j, u, offset));
  }

  /** Every drawn position intersects the canvas. */
  lemma VisibleTilesOnCanvas(unitWidth: real, offset: real, textWidth: real, canvasWidth: real, n: nat)
    ensures forall x :: x in VisibleTiles(unitWidth, offset, textWidth, canvasWidth, n) ==> OnCanvas(x, textWidth, canvasWidth)
  {
    forall x | x in VisibleTiles(unitWidth, offset, textWidth, canvasWidth, n)
      ensures OnCanvas(x, textWidth, canvasWidth)
    {
      VisibleTilesExactly(unitWidth, offset, textWidth, canvasWidth, n, x);
    }
  }
}
