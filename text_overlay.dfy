/**
 * The year overlay that the particle system uses (js/textAnimation.js): a
 * cycling year with its emissions value, a reveal animation that ramps the
 * text's opacity and scale up to 1, a frame-rate gate, and the circle that
 * particles orbit around.
 *
 * Numbers are JavaScript doubles in the source; here they are exact reals,
 * so statements such as "opacity is exactly 1 after 50 frames" hold of this
 * idealisation, not of floating-point arithmetic.
 */
module TextOverlay {
  import opened Options
  import Gate
  import Years

  /** Yearly emissions (hundred million tonnes) shown under the year. */
  const EmissionsData: map<int, real> := map[
    2011 := 34.7, 2012 := 35.1, 2013 := 35.7, 2014 := 35.9,
    2015 := 35.8, 2016 := 36.2, 2017 := 36.7, 2018 := 37.1,
    2019 := 36.8, 2020 := 34.8, 2021 := 36.3, 2022 := 36.8,
    2023 := 37.2, 2024 := 37.5]

  /** Scale of the text right after construction. */
  const InitialScale: real := 0.5
  /** Scale the text restarts from whenever the year changes. */
  const RestartScale: real := 0.8
  /** Per-frame growth of opacity and scale during the reveal. */
  const OpacityStep: real := 0.02
  const ScaleStep: real := 0.01
  /** Radius of the circle particles orbit around. */
  const TextRadius: real := 100.0
  /** Minimum milliseconds between two animated frames (30 frames per second). */
  const UpdateInterval: real := 1000.0 / 30.0
  /** Number of frames the reveal takes from opacity 0 to opacity 1. */
  const RevealFrames: nat := 50

  /** A circle in canvas coordinates. */
  datatype Circle = Circle(x: real, y: real, radius: real)

  /** What one animated frame draws: the year and the emissions value looked up for it. */
  datatype Shown = Shown(year: int, emission: Option<real>)

  /**
   * The emissions value for `year`, as the table lookup in the frame reads it;
   * a year missing from the table reads as `undefined` (None). The table's
   * keys are exactly the years of the cycle.
   */
  function Emission(year: int): (v: Option<real>)
    ensures v.Some? <==> Years.InRange(year)
  {
    if year in EmissionsData then Some(EmissionsData[year]) else None
  }

  /**
   * One frame of the reveal animation applied to (opacity, scale): while a
   * step of 0.02 keeps the opacity below 1 both values grow by one step;
   * otherwise both become exactly 1.
   */
  function Ramp(opacity: real, scale: real): (r: (real, real))
    ensures r.0 <= 1.0
    ensures r.0 >= 1.0 ==> r.0 == 1.0 && r.1 == 1.0
    ensures r.0 < 1.0 <==> opacity + OpacityStep < 1.0
    ensures r.0 < 1.0 ==> r.0 - opacity == OpacityStep && r.1 - scale == ScaleStep
  {
    var o, s := opacity + OpacityStep, scale + ScaleStep;
    if o >= 1.0 then (1.0, 1.0) else (o, s)
  }

  /** (1, 1) is a fixed point: a fully revealed text stays fully revealed. */
  lemma RampFixedPoint()
    ensures Ramp(1.0, 1.0) == (1.0, 1.0)
  {
  }

  /** Opacity never decreases from frame to frame while it is at most 1. */
  lemma RampMonotone(opacity: real, scale: real)
    requires opacity <= 1.0
    ensures Ramp(opacity, scale).0 >= opacity
  {
  }

  /**
   * The states the reveal animation can be in: opacity in [0, 1]; fully
   * revealed means scale 1; while appearing, the scale has grown by half the
   * opacity from one of its two starting values.
   */
  ghost predicate RevealState(opacity: real, scale: real) {
    && 0.0 <= opacity <= 1.0
    && (opacity == 1.0 ==> scale == 1.0)
    && (opacity < 1.0 ==> scale == InitialScale + opacity / 2.0 || scale == RestartScale + opacity / 2.0)
  }

  /** A frame keeps the reveal animation among its possible states. */
  lemma RampKeepsRevealState(opacity: real, scale: real)
    requires RevealState(opacity, scale)
    ensures RevealState(Ramp(opacity, scale).0, Ramp(opacity, scale).1)
  {
  }

  /**
   * In every reachable state the scale lies in [0.5, 1.3): while appearing
   * after a year change the text briefly grows past its final scale 1.
   */
  lemma RevealStateScaleBounds(opacity: real, scale: real)
    requires RevealState(opacity, scale)
    ensures InitialScale <= scale < RestartScale + 1.0 / 2.0
  {
  }

  /** The reveal after `n` frames starting from (opacity, scale). */
  function RampFrames(n: nat, opacity: real, scale: real): (real, real) {
    if n == 0 then (opacity, scale)
    else
      var r := RampFrames(n - 1, opacity, scale);
      Ramp(r.0, r.1)
  }

  /** Starting from opacity 0, the first 49 frames raise opacity by 0.02 and scale by 0.01 each. */
  lemma {:induction false} RampFramesAppearing(n: nat, scale: real)
    requires n < RevealFrames
    ensures RampFrames(n, 0.0, scale) == (OpacityStep * n as real, scale + ScaleStep * n as real)
  {
    if n > 0 {
      RampFramesAppearing(n - 1, scale);
    }
  }

  /** Starting from opacity 0, the text is fully revealed exactly at frame 50. */
  lemma RevealCompletes(scale: real)
    ensures RampFrames(RevealFrames - 1, 0.0, scale).0 < 1.0
    ensures RampFrames(RevealFrames, 0.0, scale) == (1.0, 1.0)
  {
    RampFramesAppearing(RevealFrames - 1, scale);
  }

  class TextAnimation {
    /** Canvas size, fixed before the overlay is created. */
    const width: real
    const height: real

    var currentYear: int
    var isAnimating: bool
    var textOpacity: real
    var textScale: real
    var lastUpdate: real

    ghost predicate Valid()
      reads this
    {
      Years.InRange(currentYear) && RevealState(textOpacity, textScale)
    }

    /** Sets the initial fields and switches the animation on. */
    constructor(width: real, height: real)
      ensures Valid()
      ensures this.width == width && this.height == height
      ensures currentYear == Years.FirstYear && isAnimating
      ensures textOpacity == 0.0 && textScale == InitialScale && lastUpdate == 0.0
    {
      this.width := width;
      this.height := height;
      currentYear := Years.FirstYear;
      textOpacity := 0.0;
      textScale := InitialScale;
      lastUpdate := 0.0;
      isAnimating := true;
    }

    /**
     * One animation callback at `currentTime`: nothing happens unless the
     * animation is on and at least `UpdateInterval` has passed since the last
     * frame; otherwise the year and its emissions value are shown and the
     * reveal animation advances one step.
     */
    method Animate(currentTime: real) returns (shown: Option<Shown>)
      requires Valid()
      modifies this`lastUpdate, this`textOpacity, this`textScale
      ensures Valid()
      ensures shown.Some? == (isAnimating && Gate.FrameDue(currentTime, old(lastUpdate), UpdateInterval))
      ensures shown.None? ==>
        lastUpdate == old(lastUpdate) && textOpacity == old(textOpacity) && textScale == old(textScale)
      ensures shown.Some? ==>
        && lastUpdate == currentTime
        && (textOpacity, textScale) == Ramp(old(textOpacity), old(textScale))
        && shown.value.year == currentYear
        && shown.value.emission == Some(EmissionsData[currentYear])
      ensures textOpacity >= old(textOpacity)
    {
      if !isAnimating {
        return None;
      }
      if currentTime - lastUpdate < UpdateInterval {
        return None;
      }
      lastUpdate := currentTime;
      shown := Some(Shown(currentYear, Emission(currentYear)));
      RampKeepsRevealState(textOpacity, textScale);
      RampMonotone(textOpacity, textScale);
      textOpacity := textOpacity + OpacityStep;
      textScale := textScale + ScaleStep;
      if textOpacity >= 1.0 {
        textOpacity := 1.0;
        textScale := 1.0;
      }
    }

    /** Advances to the next year (2024 wraps to 2011) and restarts the reveal. */
    method NextYear()
      requires Valid()
      modifies this`currentYear, this`textOpacity, this`textScale
      ensures Valid()
      ensures currentYear == Years.Next(old(currentYear))
      ensures textOpacity == 0.0 && textScale == RestartScale
    {
      if currentYear < Years.LastYear {
        currentYear := currentYear + 1;
        textOpacity := 0.0;
        textScale := RestartScale;
      } else {
        currentYear := Years.FirstYear;
        textOpacity := 0.0;
        textScale := RestartScale;
      }
    }

    /** The circle particles orbit: centred on the canvas, radius 100, independent of all mutable state. */
    function GetTextCircle(): (c: Circle)
      ensures c.radius == TextRadius
      ensures 2.0 * c.x == width && 2.0 * c.y == height
    {
      Circle(width / 2.0, height / 2.0, TextRadius)
    }
  }
}
