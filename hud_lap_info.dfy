/** The lap clock: current and best lap time, the best-lap announcement, and the `m:ss.mmm`
 *  text of a lap time (HUD/HUDLapInfo.swift). Times are whole milliseconds. */
module LapInfo {
  import opened Wrappers
  import opened Decimal

  /** The best time a first lap is compared against, 9999999 seconds, in milliseconds. */
  const BestLapSentinel: nat := 9_999_999_000

  /** The text both labels show before any time is known. */
  const NoTimeText: string := "-:--.---"

  // ---------------------------------------------------------------------------------------
  // Text of a lap time

  function Minutes(ms: nat): nat { ms / 60_000 }
  function Seconds(ms: nat): nat { (ms / 1000) % 60 }
  function Milliseconds(ms: nat): nat { ms % 1000 }

  /** `TimeInterval.lapTimeString`: minutes, a colon, two-digit seconds, a dot, three-digit
   *  milliseconds. */
  function LapTimeString(ms: nat): string {
    NatToString(Minutes(ms)) + ":" + PadLeft(Seconds(ms), 2) + "." + PadLeft(Milliseconds(ms), 3)
  }

  /** The three fields are what the source computes from the time in seconds `t = ms / 1000`:
   *  whole minutes of `t`, whole seconds of `t` mod 60, and whole thousandths of the fractional
   *  part of `t`; seconds lie in [0, 59] and milliseconds in [0, 999]. */
  lemma LapTimeFieldsFromSeconds(ms: nat)
    ensures var t := ms as real / 1000.0;
      var wholeMinutes := (t / 60.0).Floor;
      Minutes(ms) == wholeMinutes &&
      Seconds(ms) == (t - 60.0 * (wholeMinutes as real)).Floor &&
      Milliseconds(ms) == ((t - (t.Floor as real)) * 1000.0).Floor
    ensures Seconds(ms) < 60 && Milliseconds(ms) < 1000
  {
    var t := ms as real / 1000.0;
    var q, r := ms / 60_000, ms % 60_000;
    assert ms == 60_000 * q + r;
    assert t / 60.0 == (q as real) + (r as real) / 60_000.0;
    assert (t / 60.0).Floor == q;
    assert t - 60.0 * (q as real) == (r as real) / 1000.0;
    assert r / 1000 == (ms / 1000) % 60;
    assert ((r as real) / 1000.0).Floor == r / 1000;
    var s, f := ms / 1000, ms % 1000;
    assert t == (s as real) + (f as real) / 1000.0;
    assert t.Floor == s;
    assert (t - (s as real)) * 1000.0 == f as real;
  }

  /** Reads `m:ss.mmm` back into milliseconds. */
  function ParseLapTime(text: string): Option<nat> {
    if |text| < 8 then None
    else
      var n := |text|;
      var minutes, seconds, millis := ParseNat(text[..n - 7]), ParseNat(text[n - 6..n - 4]), ParseNat(text[n - 3..]);
      if text[n - 7] == ':' && text[n - 4] == '.' && minutes.Some? && seconds.Some? && millis.Some? && seconds.value < 60
      then Some(minutes.value * 60_000 + seconds.value * 1000 + millis.value)
      else None
  }

  /** The three fields put back together give the time. */
  lemma FieldsRecombine(ms: nat)
    ensures Minutes(ms) * 60_000 + Seconds(ms) * 1000 + Milliseconds(ms) == ms
  {
    var s := ms / 1000;
    assert ms == s * 1000 + ms % 1000;
    assert s == (s / 60) * 60 + s % 60;
    assert s / 60 == ms / 60_000;
  }

  /** The reader takes a text apart at the colon and the dot, from the right. */
  lemma ParseLapTimePieces(m: string, s: string, f: string, minutes: nat, seconds: nat, millis: nat)
    requires |s| == 2 && |f| == 3
    requires ParseNat(m) == Some(minutes) && ParseNat(s) == Some(seconds) && ParseNat(f) == Some(millis)
    requires seconds < 60
    ensures ParseLapTime(m + ":" + s + "." + f) == Some(minutes * 60_000 + seconds * 1000 + millis)
  {
    var text := m + ":" + s + "." + f;
    var n := |text|;
    assert n == |m| + 7 && |m| >= 1;
    assert text[..n - 7] == m;
    assert text[n - 7] == ':' && text[n - 4] == '.';
    assert text[n - 6..n - 4] == s;
    assert text[n - 3..] == f;
  }

  /** A text built from minutes, seconds below 60 and milliseconds below 1000 reads back as the
   *  time those fields make up. */
  lemma FieldsReadBack(minutes: nat, seconds: nat, millis: nat)
    requires seconds < 60 && millis < 1000
    ensures ParseLapTime(NatToString(minutes) + ":" + PadLeft(seconds, 2) + "." + PadLeft(millis, 3))
            == Some(minutes * 60_000 + seconds * 1000 + millis)
  {
    assert Pow10(2) == 100 && Pow10(3) == 1000;
    NatToStringLength(seconds, 2);
    NatToStringLength(millis, 3);
    NatRoundTrip(minutes);
    PadLeftRoundTrip(seconds, 2);
    PadLeftRoundTrip(millis, 3);
    ParseLapTimePieces(NatToString(minutes), PadLeft(seconds, 2), PadLeft(millis, 3), minutes, seconds, millis);
  }

  /** The text of a lap time reads back as that time: no two lap times share a text. */
  lemma LapTimeRoundTrip(ms: nat)
    ensures ParseLapTime(LapTimeString(ms)) == Some(ms)
  {
    FieldsReadBack(Minutes(ms), Seconds(ms), Milliseconds(ms));
    FieldsRecombine(ms);
  }

  /** 65.432 s is shown as "1:05.432". */
  lemma LapTimeStringExample()
    ensures LapTimeString(65_432) == "1:05.432"
  {
    assert Minutes(65_432) == 1 && Seconds(65_432) == 5 && Milliseconds(65_432) == 432;
    assert NatToString(1) == "1";
    assert NatToString(5) == "5";
    assert PadLeft(5, 2) == "05";
    assert NatToString(4) == "4";
    assert NatToString(43) == "43";
    assert NatToString(432) == "432";
    assert PadLeft(432, 3) == "432";
  }

  /** Zero is shown as "0:00.000". */
  lemma LapTimeStringZero()
    ensures LapTimeString(0) == "0:00.000"
  {
    assert Minutes(0) == 0 && Seconds(0) == 0 && Milliseconds(0) == 0;
    assert NatToString(0) == "0";
    assert seq(1, _ => '0') == "0" && seq(2, _ => '0') == "00";
    assert PadLeft(0, 2) == "00";
    assert PadLeft(0, 3) == "000";
  }

  // ---------------------------------------------------------------------------------------
  // Lap record

  /** The two times the lap clock keeps; both start absent. */
  datatype LapRecord = LapRecord(current: Option<nat>, best: Option<nat>)

  const InitialRecord := LapRecord(None, None)

  /** Whether the lap just ended beats the best, an absent current time reading as 0 and an absent
   *  best as the sentinel. */
  predicate Improves(r: LapRecord) {
    r.current.GetOr(0) < r.best.GetOr(BestLapSentinel)
  }

  /** `startNewLapTime()`: the best time after a lap ends, and the current time reset to 0. A lap
   *  that beats the best becomes the best; before the first lap there is no lap, and the best
   *  becomes the sentinel. */
  function StartNewLap(r: LapRecord): LapRecord {
    var best := if !Improves(r) then r.best
                else if r.current.Some? then r.current
                else Some(BestLapSentinel);
    LapRecord(Some(0), best)
  }

  /** The best-lap text `startNewLapTime()` announces to its delegate and shows, if any. */
  function Announcement(r: LapRecord): Option<string> {
    if Improves(r) && r.current.Some? then Some(LapTimeString(r.current.value)) else None
  }

  /** The lap timer's block: one more millisecond. */
  function TimerTick(r: LapRecord): LapRecord {
    r.(current := Some(r.current.GetOr(0) + 1))
  }

  function TimerTicks(r: LapRecord, n: nat): LapRecord {
    if n == 0 then r else TimerTick(TimerTicks(r, n - 1))
  }

  /** The first call has no lap to compare: the best becomes the sentinel and nothing is announced. */
  lemma FirstLapStartsClock()
    ensures StartNewLap(InitialRecord) == LapRecord(Some(0), Some(BestLapSentinel))
    ensures Announcement(InitialRecord) == None
  {
  }

  /** A strictly faster lap becomes the best and is announced with its text; any other lap leaves
   *  the best as it was and announces nothing. Either way the current time restarts at 0. */
  lemma LapOutcome(r: LapRecord, t: nat)
    requires r.current == Some(t) && r.best.Some?
    ensures t < r.best.value ==>
      StartNewLap(r).best == Some(t) && Announcement(r) == Some(LapTimeString(t))
    ensures t >= r.best.value ==> StartNewLap(r).best == r.best && Announcement(r) == None
    ensures StartNewLap(r).current == Some(0)
  {
  }

  /** Every timer tick adds exactly one millisecond; `n` ticks add `n`. */
  lemma {:induction false} TicksAdd(r: LapRecord, n: nat)
    requires r.current.Some?
    ensures TimerTicks(r, n).current == Some(r.current.value + n)
    ensures TimerTicks(r, n).best == r.best
  {
    if n > 0 {
      TicksAdd(r, n - 1);
    }
  }

  /** Once a lap is timing, the best time never increases. */
  lemma BestNeverIncreases(r: LapRecord)
    requires r.current.Some? && r.best.Some?
    ensures StartNewLap(r).best.Some? && StartNewLap(r).best.value <= r.best.value
  {
  }

  /** One lap of `t` milliseconds: the timer runs `t` ticks, then the lap ends. */
  function CompleteLap(r: LapRecord, t: nat): LapRecord {
    StartNewLap(TimerTicks(r, t))
  }

  function CompleteLaps(r: LapRecord, laps: seq<nat>): LapRecord
    decreases |laps|
  {
    if laps == [] then r else CompleteLaps(CompleteLap(r, laps[0]), laps[1..])
  }

  function Min(a: nat, b: nat): nat { if a <= b then a else b }

  /** The smallest lap time of a non-empty sequence. */
  function Fastest(laps: seq<nat>): (m: nat)
    requires |laps| > 0
    ensures m in laps && forall i :: 0 <= i < |laps| ==> m <= laps[i]
  {
    if |laps| == 1 then laps[0] else Min(laps[0], Fastest(laps[1..]))
  }

  /** Completing laps from a started clock keeps the best at the minimum of the old best and the
   *  lap times. */
  lemma {:induction false} CompleteLapsBest(r: LapRecord, laps: seq<nat>)
    requires r.current == Some(0) && r.best.Some?
    ensures CompleteLaps(r, laps).current == Some(0)
    ensures CompleteLaps(r, laps).best == Some(if laps == [] then r.best.value else Min(r.best.value, Fastest(laps)))
    decreases |laps|
  {
    if laps != [] {
      TicksAdd(r, laps[0]);
      var next := CompleteLap(r, laps[0]);
      CompleteLapsBest(next, laps[1..]);
    }
  }

  /** Best-lap tracking: after the clock's first start and laps t1..tn, each under the sentinel,
   *  the best time is the fastest of them. */
  lemma BestIsFastestLap(laps: seq<nat>)
    requires |laps| > 0
    requires forall i :: 0 <= i < |laps| ==> laps[i] < BestLapSentinel
    ensures CompleteLaps(StartNewLap(InitialRecord), laps).best == Some(Fastest(laps))
  {
    CompleteLapsBest(StartNewLap(InitialRecord), laps);
  }

  // ---------------------------------------------------------------------------------------
  // The view

  /** `HUDLapInfo`: the lap clock with its two labels and the best-lap texts sent to its
   *  delegate. */
  class HUDLapInfo {
    var currentLapTime: Option<nat>
    var bestLapTime: Option<nat>
    var currentLapTimeLabel: string
    var bestLapTimeLabel: string
    /** Every `didFinishBestLap(withLapTimeString:)` call made on the delegate, in order. */
    var announcements: seq<string>

    function Record(): LapRecord
      reads this
    {
      LapRecord(currentLapTime, bestLapTime)
    }

    constructor ()
      ensures Record() == InitialRecord && announcements == []
      ensures currentLapTimeLabel == NoTimeText && bestLapTimeLabel == NoTimeText
    {
      currentLapTime := None;
      bestLapTime := None;
      currentLapTimeLabel := NoTimeText;
      bestLapTimeLabel := NoTimeText;
      announcements := [];
    }

    /** `startNewLapTime()`: ends the running lap and starts the next at 0. */
    method StartNewLapTime()
      modifies this`currentLapTime, this`bestLapTime, this`bestLapTimeLabel, this`announcements
      ensures Record() == StartNewLap(old(Record()))
      ensures Announcement(old(Record())).Some? ==>
        announcements == old(announcements) + [Announcement(old(Record())).value] &&
        bestLapTimeLabel == Announcement(old(Record())).value
      ensures Announcement(old(Record())).None? ==>
        announcements == old(announcements) && bestLapTimeLabel == old(bestLapTimeLabel)
    {
      if currentLapTime.GetOr(0) < bestLapTime.GetOr(BestLapSentinel) {
        bestLapTime := currentLapTime;
        if bestLapTime.Some? {
          var text := LapTimeString(bestLapTime.value);
          announcements := announcements + [text];
          bestLapTimeLabel := text;
        } else {
          bestLapTime := Some(BestLapSentinel);
        }
      }
      currentLapTime := Some(0);
    }

    /** The lap timer's block: one more millisecond, shown on the current label. */
    method TimerFired()
      modifies this`currentLapTime, this`currentLapTimeLabel
      ensures Record() == TimerTick(old(Record()))
      ensures currentLapTimeLabel == LapTimeString(currentLapTime.value)
    {
      currentLapTime := Some(currentLapTime.GetOr(0) + 1);
      currentLapTimeLabel := LapTimeString(currentLapTime.value);
    }
  }
}
