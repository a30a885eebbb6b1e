/** The lap counter view: a lap number and its label (HUD/HUDLapCounter.swift). */
module LapCounter {
  import opened Wrappers
  import opened Decimal

  /** The label text for a lap number: "LAP " and the number in decimal. */
  function LapLabel(lap: nat): string {
    "LAP " + NatToString(lap)
  }

  /** The lap number can be read back from its label, so different laps have different labels. */
  lemma LapLabelReadsBack(lap: nat)
    ensures |LapLabel(lap)| > 4 && LapLabel(lap)[..4] == "LAP "
    ensures ParseNat(LapLabel(lap)[4..]) == Some(lap)
  {
    assert LapLabel(lap)[4..] == NatToString(lap);
    NatRoundTrip(lap);
  }

  /** `HUDLapCounter`. */
  class HUDLapCounter {
    var lap: nat
    var labelText: string

    constructor ()
      ensures lap == 0 && labelText == "LAP 0"
    {
      lap := 0;
      labelText := "LAP " + NatToString(0);
    }

    /** `incrementLapCounter()`: one more lap, shown on the label. */
    method IncrementLapCounter()
      modifies this
      ensures lap == old(lap) + 1 && labelText == LapLabel(lap)
    {
      lap := lap + 1;
      labelText := LapLabel(lap);
    }
  }
}
