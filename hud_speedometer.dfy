/** The speedometer view: speed text, the arc that grows with speed, and its colour
 *  (HUD/HUDSpeedometer.swift). */
module Speedometer {
  import opened Wrappers
  import opened Decimal
  import RaceCarModel

  /** The divisor the view converts kilometres per hour with. */
  const KphPerMphDivisor: real := 1.621371

  /** Where the arc of the gauge ends; it starts here too at standstill. */
  const StrokeEnd: real := 0.9

  /** `mph(fromKPH:)`: kilometres per hour divided by 1.621371 and then doubled. */
  function Mph(kph: real): real {
    (kph / KphPerMphDivisor) * 2.0
  }

  /** The inverse conversion. */
  function KphFromMph(mph: real): real {
    (mph / 2.0) * KphPerMphDivisor
  }

  /** The conversion is a bijection: each speed is recovered from its converted value. */
  lemma MphRoundTrip(kph: real, mph: real)
    ensures KphFromMph(Mph(kph)) == kph
    ensures Mph(KphFromMph(mph)) == mph
  {
  }

  /** Standing still shows 0, and a faster car always shows a larger value. */
  lemma MphIncreasing(a: real, b: real)
    ensures Mph(0.0) == 0.0
    ensures a < b ==> Mph(a) < Mph(b)
  {
  }

  /** Swift's `Int(x)`: the integer part of `x`, truncated toward zero. */
  function TruncateTowardZero(x: real): (i: int)
    ensures x >= 0.0 ==> i >= 0 && (i as real) <= x < (i as real) + 1.0
    ensures x < 0.0 ==> i <= 0 && (i as real) - 1.0 < x <= (i as real)
  {
    if x >= 0.0 then x.Floor else -((-x).Floor)
  }

  /** The speed number shown: the truncated converted speed. */
  function DisplayedSpeed(kph: real): int {
    TruncateTowardZero(Mph(kph))
  }

  /** `attributedString(forSpeedInKPH:)`: the number, a space, and the unit. */
  function SpeedText(kph: real): string {
    IntToString(DisplayedSpeed(kph)) + " " + "MPH"
  }

  /** The text ends in " MPH" and the number before it reads back as the displayed speed. */
  lemma SpeedTextReadsBack(kph: real)
    ensures var text := SpeedText(kph);
      |text| > 4 && text[|text| - 4..] == " MPH" &&
      ParseInt(text[..|text| - 4]) == Some(DisplayedSpeed(kph))
  {
    var text := SpeedText(kph);
    assert text[..|text| - 4] == IntToString(DisplayedSpeed(kph));
    IntRoundTrip(DisplayedSpeed(kph));
  }

  /** The text the view starts with, for 0 kph. */
  lemma InitialSpeedText()
    ensures SpeedText(0.0) == "0 MPH"
  {
    assert DisplayedSpeed(0.0) == 0;
    assert IntToString(0) == "0";
  }

  /** The speed as a fraction of half the car's top speed. */
  function SpeedRatio(kph: real): real {
    kph / (RaceCarModel.MaxSpeedInKilometersPerHour / 2.0)
  }

  /** Where the speed arc starts: it shrinks from the fixed end as the ratio grows; nothing limits it. */
  function StrokeStart(ratio: real): real {
    0.9 - (0.8 * ratio)
  }

  /** An RGBA colour with components as given to `NSColor(calibratedRed:green:blue:alpha:)`. */
  datatype Color = Color(red: real, green: real, blue: real, alpha: real)

  /** The arc colour: from green at standstill towards red at half the top speed. */
  function StrokeColor(ratio: real): Color {
    Color((255.0 * ratio) / 255.0, (255.0 - (255.0 * ratio)) / 255.0, 0.0, 1.0)
  }

  /** The gauge: empty at standstill (the arc starts where it ends), reaching the track's start
   *  0.1 at half the top speed, growing with speed; red is the ratio and green its complement. */
  lemma GaugeReadings(kph: real, faster: real)
    ensures SpeedRatio(0.0) == 0.0 && StrokeStart(SpeedRatio(0.0)) == StrokeEnd
    ensures SpeedRatio(RaceCarModel.MaxSpeedInKilometersPerHour / 2.0) == 1.0
    ensures StrokeStart(SpeedRatio(RaceCarModel.MaxSpeedInKilometersPerHour / 2.0)) == 0.1
    ensures kph < faster ==> StrokeStart(SpeedRatio(faster)) < StrokeStart(SpeedRatio(kph))
    ensures StrokeColor(SpeedRatio(kph)) == Color(SpeedRatio(kph), 1.0 - SpeedRatio(kph), 0.0, 1.0)
  {
  }

  /** `HUDSpeedometer`: the label text and the speed arc's start and colour. */
  class HUDSpeedometer {
    var labelText: string
    var strokeStart: real
    var strokeColor: Color

    constructor ()
      ensures labelText == SpeedText(0.0) && labelText == "0 MPH"
      ensures strokeStart == StrokeEnd && strokeColor == Color(0.0, 1.0, 0.0, 1.0)
    {
      InitialSpeedText();
      labelText := SpeedText(0.0);
      strokeStart := 0.9;
      strokeColor := Color(0.0, 1.0, 0.0, 1.0);
    }

    /** `update(withSpeedInKPH:)`. */
    method Update(kph: real)
      modifies this
      ensures labelText == SpeedText(kph)
      ensures strokeStart == StrokeStart(SpeedRatio(kph))
      ensures strokeColor == StrokeColor(SpeedRatio(kph))
    {
      labelText := SpeedText(kph);
      var speedRatio := kph / (RaceCarModel.MaxSpeedInKilometersPerHour / 2.0);
      strokeStart := 0.9 - (0.8 * speedRatio);
      strokeColor := Color((255.0 * speedRatio) / 255.0, (255.0 - (255.0 * speedRatio)) / 255.0, 0.0, 1.0);
    }
  }
}
