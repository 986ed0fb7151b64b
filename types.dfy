/**
 * The configuration records the renderer consumes. Numbers are JavaScript
 * numbers, modelled as exact reals; colours and fonts are strings.
 */
module Types {
  import opened Wrappers

  /** The text animations a user can pick; only `Slide` is rendered. */
  datatype TextAnimationType = Slide | Typing | Rotate | Shake | Bounce | Zoom | Fade | ColorChange

  /** The image animations a user can pick. */
  datatype AnimationType = Scale | HorizontalSlide | VerticalStretch | ImageBounce | ImageRotate | Pulse

  datatype AnimationDirection = Normal | Reverse | Alternate

  /** The settings shared by every text animation; the optional per-effect
      records are consumed by no rendering code and are not carried. */
  datatype TextAnimationSettings = TextAnimationSettings(
    duration: real,            // seconds
    repeat: int,               // -1 repeats forever
    direction: AnimationDirection)

  datatype TextConfig = TextConfig(
    text: string,
    color: string,
    font: string,
    speed: real,               // pixels per second
    gap: real,                 // percent of the canvas width
    fontSize: real,            // percent of the canvas height
    verticalOffset: real,      // percent of the canvas height, positive is up
    animationType: TextAnimationType,
    animationSpeed: real,
    animationIntensity: real,  // percent
    animationSettings: TextAnimationSettings)

  datatype ImageConfig = ImageConfig(
    file: Option<string>,      // the file's MIME type when a file is chosen
    dataUrl: Option<string>,
    animationType: AnimationType,
    speed: real,
    intensity: real)           // percent

  datatype BackgroundType = Solid | Gradient | Transparent

  datatype BackgroundConfig = BackgroundConfig(
    kind: BackgroundType,
    color: string,
    gradientColors: Option<(string, string)>)

  datatype GifConfig = GifConfig(width: nat, height: nat, fps: real)
}
