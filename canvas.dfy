/**
 * A symbolic 2D canvas. Pixels are not modelled: a surface is the last paint
 * that covered the whole canvas (a clear, a flat fill or a linear gradient)
 * followed by the text strokes drawn on top of it since then.
 */
module Canvas {
  import opened Wrappers
  import opened Types

  datatype Paint =
    | Cleared
    | Fill(color: string)
    | LinearGradient(x0: real, y0: real, x1: real, y1: real, from: string, to: string)

  /** One `fillText` call. */
  datatype TextStroke = TextStroke(text: string, x: real, y: real, fontPx: real, color: string, font: string)

  datatype Surface = Surface(base: Paint, strokes: seq<TextStroke>)

  /** A freshly created (or resized) canvas is fully transparent. */
  const Blank: Surface := Surface(Cleared, [])

  /**
   * The background dispatch both renderers share: transparent clears, solid
   * fills with `bg.color`, gradient fills a linear gradient from (0, 0) to
   * (gx, gy) when its two colours are present, and a gradient without colours
   * paints nothing, so the previous content stays.
   */
  function PaintBackground(s: Surface, bg: BackgroundConfig, gx: real, gy: real): Surface {
    match bg.kind
    case Transparent => Surface(Cleared, [])
    case Solid => Surface(Fill(bg.color), [])
    case Gradient =>
      match bg.gradientColors
      case Some((c0, c1)) => Surface(LinearGradient(0.0, 0.0, gx, gy, c0, c1), [])
      case None => s
  }

  /** Whether the dispatch covers the whole canvas. */
  predicate Covers(bg: BackgroundConfig) {
    bg.kind != Gradient || bg.gradientColors.Some?
  }

  /** A covering background erases every earlier stroke, whatever was drawn;
      one that does not cover leaves the surface exactly as it was. */
  lemma PaintBackgroundCovers(s: Surface, bg: BackgroundConfig, gx: real, gy: real)
    ensures Covers(bg) ==> PaintBackground(s, bg, gx, gy) == PaintBackground(Blank, bg, gx, gy)
    ensures Covers(bg) ==> PaintBackground(s, bg, gx, gy).strokes == []
    ensures !Covers(bg) ==> PaintBackground(s, bg, gx, gy) == s
  {
  }

  /** The strokes of one text drawn at each of `xs`, in order. */
  function StrokesAt(text: string, xs: seq<real>, y: real, fontPx: real, color: string, font: string): (r: seq<TextStroke>)
    ensures |r| == |xs|
    ensures forall k :: 0 <= k < |xs| ==> r[k] == TextStroke(text, xs[k], y, fontPx, color, font)
  {
    if |xs| == 0 then [] else StrokesAt(text, xs[..|xs| - 1], y, fontPx, color, font) + [TextStroke(text, xs[|xs| - 1], y, fontPx, color, font)]
  }

  /** Every stroke `StrokesAt` yields carries the given text, baseline and
      size, and stands at one of the positions. */
  lemma StrokesAtMembers(text: string, xs: seq<real>, y: real, fontPx: real, color: string, font: string)
    ensures forall s :: s in StrokesAt(text, xs, y, fontPx, color, font) ==>
      s.text == text && s.y == y && s.fontPx == fontPx && s.x in xs
  {
    var r := StrokesAt(text, xs, y, fontPx, color, font);
    forall s | s in r
      ensures s.x in xs
    {
      var k :| 0 <= k < |r| && r[k] == s;
      assert s.x == xs[k];
    }
  }
}
