/**
 * The colour field of the settings panel: a colour picker and a text box
 * that share one colour. The text box keeps whatever is typed; only a
 * complete `#RGB` or `#RRGGBB` code is passed on. The component's
 * `onChange` callback is modelled by its effect in the app, which sets the
 * `value` the component is rendered with; `emitted` records the calls.
 */
module ColorInputs {
  import opened Wrappers
  import opened JsHex
  import opened ColorUtils

  /** `/^#([A-Fa-f0-9]{6}|[A-Fa-f0-9]{3})$/`: `#` and then exactly six or
      exactly three hex digits, in either case. */
  predicate IsHexPattern(s: string) {
    && (|s| == 7 || |s| == 4)
    && s[0] == '#'
    && forall i :: 1 <= i < |s| ==> IsHexDigit(s[i])
  }

  /** What the component keeps consistent: the text box either shows the
      propagated colour or holds text that was never propagated. */
  predicate Consistent(value: string, hexInput: string) {
    hexInput == value || !IsHexPattern(hexInput)
  }

  class ColorInput {
    /** The colour the component is rendered with (the `value` prop). */
    var value: string
    /** The text box (`hexInput` state). */
    var hexInput: string
    /** Every colour passed to `onChange`, oldest first. */
    var emitted: seq<string>

    /** The first render: the text box starts with the given colour. */
    constructor(initial: string)
      ensures value == initial && hexInput == initial && emitted == []
      ensures Consistent(value, hexInput)
    {
      value := initial;
      hexInput := initial;
      emitted := [];
    }

    /** `handleHexChange`: the text is always kept; it is passed on exactly
        when it matches the pattern. */
    method HandleHexChange(input: string)
      modifies this
      ensures hexInput == input
      ensures IsHexPattern(input) ==> value == input && emitted == old(emitted) + [input]
      ensures !IsHexPattern(input) ==> value == old(value) && emitted == old(emitted)
      ensures Consistent(value, hexInput)
    {
      hexInput := input;
      if IsHexPattern(input) {
        emitted := emitted + [input];
        value := input;
      }
    }

    /** `handleColorPickerChange`: the picked colour is passed on and shown
        in the text box. */
    method HandleColorPickerChange(picked: string)
      modifies this
      ensures value == picked && hexInput == picked
      ensures emitted == old(emitted) + [picked]
      ensures Consistent(value, hexInput)
    {
      emitted := emitted + [picked];
      value := picked;
      hexInput := picked;
    }

    /** A new render with `newValue`: the effect keyed on `value` copies it
        into the text box when it differs from the previous one, and does
        not run otherwise. */
    method ValueChanged(newValue: string)
      requires Consistent(value, hexInput)
      modifies this`value, this`hexInput
      ensures value == newValue
      ensures hexInput == if newValue != old(value) then newValue else old(hexInput)
      ensures Consistent(value, hexInput)
    {
      if newValue != value {
        value := newValue;
        hexInput := newValue;
      }
    }
  }

  // ---------------------------------------------------------------------
  // Properties of the pattern.

  /** Accepted text has length 7 or 4; the long form is exactly a colour
      that the colour utilities read channel by channel. */
  lemma PatternLongForm(s: string)
    ensures IsHexPattern(s) ==> |s| == 7 || |s| == 4
    ensures IsHexPattern(s) && |s| == 7 <==> IsHexColor(s)
  {
  }

  /** The short form passes the pattern, but its channels do not read:
      the colour utilities see no blue channel in `#RGB`. */
  lemma ShortFormAccepted(s: string)
    requires IsHexPattern(s) && |s| == 4
    ensures ReadRgb(s) == None
  {
    ShortFormUnreadable(s);
  }

  /** A few inputs: both lengths and both cases pass; a missing `#`, a
      non-digit, four digits or a trailing character do not. */
  lemma PatternExamples()
    ensures IsHexPattern("#A1b2C3") && IsHexPattern("#fff")
    ensures !IsHexPattern("A1b2C3") && !IsHexPattern("#ggg") && !IsHexPattern("#abcd")
    ensures !IsHexPattern("#abcdef0")
  {
    assert "#ggg"[1] == 'g';
  }
}
