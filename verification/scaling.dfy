/** The configuration record and the scale engine: which configured factor
    applies to a given scroll axis and axis source. */
module Scaling {
  import opened Wrappers

  // Axis codes of the input library's ABI.
  const AXIS_SCROLL_VERTICAL: int := 0
  const AXIS_SCROLL_HORIZONTAL: int := 1

  // Axis-source codes of the input library's ABI.
  const SOURCE_WHEEL: int := 0
  const SOURCE_FINGER: int := 1
  const SOURCE_CONTINUOUS: int := 2
  const SOURCE_WHEEL_TILT: int := 3

  /** True for the two axes the shim rescales. */
  predicate IsScrollAxis(axis: int) {
    axis == AXIS_SCROLL_VERTICAL || axis == AXIS_SCROLL_HORIZONTAL
  }

  /** The six configuration values, each already parsed; `None` stands for a
      variable that is unset or does not parse as a number. */
  datatype ParsedEnv = ParsedEnv(
    scale: Option<real>,            // SCROLL_SCALE
    scaleX: Option<real>,           // SCROLL_SCALE_X
    scaleY: Option<real>,           // SCROLL_SCALE_Y
    scaleWheel: Option<real>,       // SCROLL_SCALE_WHEEL
    scaleFinger: Option<real>,      // SCROLL_SCALE_FINGER
    scaleContinuous: Option<real>)  // SCROLL_SCALE_CONTINUOUS

  /** The frozen settings record. */
  datatype Settings = Settings(
    scale: real,
    scaleX: Option<real>,
    scaleY: Option<real>,
    scaleWheel: Option<real>,
    scaleFinger: Option<real>,
    scaleContinuous: Option<real>)

  /** Builds the settings: the base scale defaults to 1.0, every override is
      kept exactly as configured. */
  function FromEnv(e: ParsedEnv): (s: Settings)
    ensures e.scale.None? ==> s.scale == 1.0
    ensures e.scale.Some? ==> s.scale == e.scale.value
    ensures s.scaleX == e.scaleX && s.scaleY == e.scaleY
    ensures s.scaleWheel == e.scaleWheel && s.scaleFinger == e.scaleFinger
    ensures s.scaleContinuous == e.scaleContinuous
  {
    Settings(e.scale.GetOr(1.0), e.scaleX, e.scaleY, e.scaleWheel, e.scaleFinger, e.scaleContinuous)
  }

  /** The per-axis base factor: the axis's own override when it is set, the
      base scale otherwise and for every axis that is not a scroll axis. */
  function AxisBase(s: Settings, axis: int): (r: real)
    ensures axis == AXIS_SCROLL_HORIZONTAL && s.scaleX.Some? ==> r == s.scaleX.value
    ensures axis == AXIS_SCROLL_VERTICAL && s.scaleY.Some? ==> r == s.scaleY.value
    ensures axis == AXIS_SCROLL_HORIZONTAL && s.scaleX.None? ==> r == s.scale
    ensures axis == AXIS_SCROLL_VERTICAL && s.scaleY.None? ==> r == s.scale
    ensures !IsScrollAxis(axis) ==> r == s.scale
  {
    if axis == AXIS_SCROLL_HORIZONTAL then s.scaleX.GetOr(s.scale)
    else if axis == AXIS_SCROLL_VERTICAL then s.scaleY.GetOr(s.scale)
    else s.scale
  }

  /** The per-source multiplier: the matching override when set, 1.0 when it is
      unset or the source is not one of the four known ones.  Continuous and
      wheel-tilt share one override. */
  function SourceMul(s: Settings, source: int): (r: real)
    ensures source == SOURCE_WHEEL ==> r == s.scaleWheel.GetOr(1.0)
    ensures source == SOURCE_FINGER ==> r == s.scaleFinger.GetOr(1.0)
    ensures source == SOURCE_CONTINUOUS || source == SOURCE_WHEEL_TILT ==> r == s.scaleContinuous.GetOr(1.0)
    ensures !(0 <= source <= 3) ==> r == 1.0
  {
    if source == SOURCE_WHEEL then s.scaleWheel.GetOr(1.0)
    else if source == SOURCE_FINGER then s.scaleFinger.GetOr(1.0)
    else if source == SOURCE_CONTINUOUS || source == SOURCE_WHEEL_TILT then s.scaleContinuous.GetOr(1.0)
    else 1.0
  }

  /** The factor for an axis and an optional source: the axis base times the
      source multiplier, where an unknown source counts as the neutral 1.0. */
  function ComputeScale(s: Settings, axis: int, source: Option<int>): (r: real)
    ensures source.None? ==> r == AxisBase(s, axis)
    ensures source.Some? ==> r == AxisBase(s, axis) * SourceMul(s, source.value)
  {
    AxisBase(s, axis) * source.MapOr(src => SourceMul(s, src), 1.0)
  }

  /** Nothing configured: every axis and source gets the factor 1.0. */
  lemma UnconfiguredScaleIsOne(axis: int, source: Option<int>)
    ensures ComputeScale(FromEnv(ParsedEnv(None, None, None, None, None, None)), axis, source) == 1.0
  {
  }

  /** An absent source accessor is neutral: it gives the same factor as a
      source whose multiplier is 1.0, e.g. any unrecognised source code. */
  lemma AbsentSourceIsNeutral(s: Settings, axis: int, source: int)
    requires SourceMul(s, source) == 1.0
    ensures ComputeScale(s, axis, None) == ComputeScale(s, axis, Some(source))
  {
  }
}
