/**
 * Vertical alignment of a text line by script mix: Hangul sits high in the
 * em box, Latin descenders pull the visual centre down and ascenders up, so
 * the renderer nudges the baseline by a few pixels.
 */
module TextAlignment {

  /** The four character classes the alignment tests for. */
  datatype CharClass = Hangul | Latin | Descender | Ascender

  predicate InClass(c: char, cls: CharClass) {
    match cls
    case Hangul => '\U{AC00}' <= c <= '\U{D7A3}'   // 가 .. 힣
    case Latin => 'a' <= c <= 'z' || 'A' <= c <= 'Z'
    case Descender => c in "gjpqy"
    case Ascender => c in "bdfhklt"
  }

  /** Some character of `text` is in `cls`. */
  ghost predicate Mentions(text: string, cls: CharClass) {
    exists i :: 0 <= i < |text| && InClass(text[i], cls)
  }

  /** A regular-expression test for a one-character class: scans the text. */
  function ContainsAny(text: string, cls: CharClass): (found: bool)
    ensures found <==> Mentions(text, cls)
  {
    if |text| == 0 then false
    else if InClass(text[0], cls) then true
    else
      var rest := ContainsAny(text[1..], cls);
      assert Mentions(text[1..], cls) ==> Mentions(text, cls) by {
        if Mentions(text[1..], cls) {
          var i :| 0 <= i < |text[1..]| && InClass(text[1..][i], cls);
          assert text[i + 1] == text[1..][i];
        }
      }
      assert Mentions(text, cls) ==> Mentions(text[1..], cls) by {
        if Mentions(text, cls) {
          var i :| 0 <= i < |text| && InClass(text[i], cls);
          assert i != 0 && text[1..][i - 1] == text[i];
        }
      }
      rest
  }

  datatype TextAnalysis = TextAnalysis(
    hasKorean: bool,
    hasEnglish: bool,
    hasDescenders: bool,
    hasAscenders: bool)

  function AnalyzeText(text: string): (a: TextAnalysis)
    ensures a.hasKorean <==> Mentions(text, Hangul)
    ensures a.hasEnglish <==> Mentions(text, Latin)
    ensures a.hasDescenders <==> Mentions(text, Descender)
    ensures a.hasAscenders <==> Mentions(text, Ascender)
  {
    TextAnalysis(
      ContainsAny(text, Hangul),
      ContainsAny(text, Latin),
      ContainsAny(text, Descender),
      ContainsAny(text, Ascender))
  }

  /** The base offset plus the script-mix adjustment in pixels. */
  function CalculateOptimalVerticalOffset(text: string, baseVerticalOffset: real): real {
    var a := AnalyzeText(text);
    var adjustment :=
      if a.hasKorean && !a.hasEnglish then 2.0
      else if a.hasEnglish && !a.hasKorean then
        (if a.hasDescenders && !a.hasAscenders then -4.0
         else if a.hasAscenders && !a.hasDescenders then 2.0
         else if !a.hasDescenders && !a.hasAscenders then 1.0
         else 0.0)
      else 0.0;
    baseVerticalOffset + adjustment
  }

  datatype TextBaseline = Top | Hanging | Middle | Alphabetic | Ideographic | Bottom

  /** Every branch of the source picks the same baseline. */
  function GetOptimalTextBaseline(text: string): (b: TextBaseline)
    ensures b == Middle
  {
    var a := AnalyzeText(text);
    if a.hasKorean && !a.hasEnglish then Middle
    else if a.hasEnglish && !a.hasKorean then Middle
    else Middle
  }

  // ---------------------------------------------------------------------
  // Properties of the decision table.

  /** Both letter sets are lower-case Latin letters. */
  lemma LetterClassesAreLatin(text: string)
    ensures Mentions(text, Descender) ==> Mentions(text, Latin)
    ensures Mentions(text, Ascender) ==> Mentions(text, Latin)
  {
    if Mentions(text, Descender) {
      var i :| 0 <= i < |text| && InClass(text[i], Descender);
      assert InClass(text[i], Latin);
    }
    if Mentions(text, Ascender) {
      var i :| 0 <= i < |text| && InClass(text[i], Ascender);
      assert InClass(text[i], Latin);
    }
  }

  /** Hangul without any ASCII letter is pushed down by 2. */
  lemma HangulOnlyShiftsDown(text: string, base: real)
    requires Mentions(text, Hangul) && !Mentions(text, Latin)
    ensures CalculateOptimalVerticalOffset(text, base) == base + 2.0
  {
  }

  /** The adjustment of Latin-only text, by its descenders and ascenders. */
  lemma LatinOnlyAdjustment(text: string, base: real)
    requires Mentions(text, Latin) && !Mentions(text, Hangul)
    ensures var r := CalculateOptimalVerticalOffset(text, base);
      && (Mentions(text, Descender) && !Mentions(text, Ascender) ==> r == base - 4.0)
      && (Mentions(text, Ascender) && !Mentions(text, Descender) ==> r == base + 2.0)
      && (!Mentions(text, Descender) && !Mentions(text, Ascender) ==> r == base + 1.0)
      && (Mentions(text, Descender) && Mentions(text, Ascender) ==> r == base)
  {
  }

  /** Mixed Hangul and Latin text, and text with neither (digits, symbols,
      emoji, the empty string), keeps the base offset. */
  lemma MixedOrNeitherKeepsBase(text: string, base: real)
    requires Mentions(text, Hangul) <==> Mentions(text, Latin)
    ensures CalculateOptimalVerticalOffset(text, base) == base
  {
  }

  /** The adjustment is one of -4, 0, 1 and 2 pixels, and it depends on the
      text alone: the base is added unchanged. */
  lemma AdjustmentRange(text: string, base: real)
    ensures CalculateOptimalVerticalOffset(text, base) - base in {-4.0, 0.0, 1.0, 2.0}
    ensures CalculateOptimalVerticalOffset(text, base) == base + CalculateOptimalVerticalOffset(text, 0.0)
  {
  }

  /** A descender-only Latin word, as in the documented example. */
  lemma DescenderExample()
    ensures CalculateOptimalVerticalOffset("gjpqy", 0.0) == -4.0
  {
    var t := "gjpqy";
    assert InClass(t[0], Latin) && InClass(t[0], Descender);
    assert !Mentions(t, Ascender) by {
      forall i | 0 <= i < |t| ensures !InClass(t[i], Ascender) {
      }
    }
    assert !Mentions(t, Hangul) by {
      forall i | 0 <= i < |t| ensures !InClass(t[i], Hangul) {
      }
    }
  }
}
