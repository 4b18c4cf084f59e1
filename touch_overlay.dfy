/**
 * The alternate year overlay of textAnimation.js (the copy at the top of the
 * repository): a touch on the canvas advances the displayed year with the
 * same wrap-around as the main overlay, a frame shows the year and its
 * emissions string looked up with a fallback, and a gate skips frames that
 * come less than 66 ms after the previous one.
 *
 * The class has no constructor here: the source's constructor calls a
 * `startAnimation` method the class never defines, so constructing it throws
 * before the touch handler is installed. The handler and the lookup are
 * modelled on their own, on whatever state an instance holds.
 */
module TouchOverlay {
  import opened Options
  import Gate
  import Years

  /** Yearly emissions strings shown under the year. */
  const Co2Data: map<int, string> := map[
    2011 := "33.2 Gt", 2012 := "34.0 Gt", 2013 := "34.5 Gt", 2014 := "35.0 Gt",
    2015 := "36.0 Gt", 2016 := "36.5 Gt", 2017 := "37.0 Gt", 2018 := "37.5 Gt",
    2019 := "38.0 Gt", 2020 := "34.0 Gt", 2021 := "36.0 Gt", 2022 := "37.0 Gt",
    2023 := "38.0 Gt", 2024 := "39.0 Gt"]

  /** Text shown when the table has no (truthy) entry for the year: "data unavailable". */
  const Fallback: string := "數據不可用"

  /** Minimum milliseconds between two drawn frames (about 15 frames per second). */
  const FrameInterval: real := 66.0

  /** What one drawn frame shows: the year and the emissions text looked up for it. */
  datatype Frame = Frame(year: int, co2: string)

  /**
   * The lookup `co2Data[year] || fallback`: a missing key reads as
   * `undefined` and an empty string is falsy, and both give the fallback.
   * Every year of the cycle has its table string; every other year gets the
   * fallback.
   */
  function Co2Emission(year: int): (s: string)
    ensures Years.InRange(year) ==> year in Co2Data && s == Co2Data[year]
    ensures !Years.InRange(year) ==> s == Fallback
  {
    if year in Co2Data && Co2Data[year] != "" then Co2Data[year] else Fallback
  }

  /**
   * The fallback is never a table value, so the text shown tells whether the
   * year was in the table: it is the fallback exactly for years outside the
   * cycle, and it is never empty.
   */
  lemma Co2EmissionFallbackExactly(year: int)
    ensures Co2Emission(year) == Fallback <==> !Years.InRange(year)
    ensures Co2Emission(year) != ""
  {
    if Years.InRange(year) {
      var s := Co2Data[year];
      assert |s| == 7 && s[4] == ' ';
      assert Fallback[4] != ' ';
    }
  }

  class TextAnimation {
    var currentYear: int
    var textOpacity: real
    var textScale: real
    /** Time stamp of the last frame drawn. */
    var lastTime: real

    ghost predicate Valid()
      reads this
    {
      Years.InRange(currentYear)
    }

    /**
     * A touch on the canvas: the year advances by one, or from 2024 (or any
     * later year) back to 2011. Only the year changes; unlike the main
     * overlay's year change, opacity and scale are left as they are.
     */
    method OnTouchStart()
      modifies this`currentYear
      ensures old(currentYear) < Years.LastYear ==> currentYear == old(currentYear) + 1
      ensures old(currentYear) >= Years.LastYear ==> currentYear == Years.FirstYear
      ensures currentYear == Years.Next(old(currentYear))
      ensures old(Valid()) ==> Valid()
      ensures textOpacity == old(textOpacity) && textScale == old(textScale) && lastTime == old(lastTime)
    {
      currentYear := if currentYear < 2024 then currentYear + 1 else 2011;
    }

    /**
     * One animation callback at `currentTime`: less than 66 ms after the last
     * drawn frame nothing happens; otherwise the time is recorded and the
     * year is shown with its emissions text.
     */
    method Animate(currentTime: real) returns (shown: Option<Frame>)
      modifies this`lastTime
      ensures shown.Some? <==> Gate.FrameDue(currentTime, old(lastTime), FrameInterval)
      ensures shown.None? ==> lastTime == old(lastTime)
      ensures shown.Some? ==> lastTime == currentTime && shown.value == Frame(currentYear, Co2Emission(currentYear))
      ensures Valid() && shown.Some? ==> shown.value.co2 == Co2Data[currentYear]
    {
      if currentTime - lastTime < FrameInterval {
        return None;
      }
      lastTime := currentTime;
      var co2Emission := Co2Emission(currentYear);
      shown := Some(Frame(currentYear, co2Emission));
    }
  }
}
