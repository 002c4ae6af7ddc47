/**
 * The export progress overlay: the remaining-time estimate, the `mm:ss`
 * clock it is shown with, and which parts of the overlay render.
 */
module ExportOverlay {
  import opened Wrappers
  import Js
  import Text

  /** `startTime` (a `Date.now()` reading, in ms) and `estimatedTimeLeft` (ms). */
  datatype Eta = Eta(startTime: Option<int>, estimate: Option<real>)

  const Cleared: Eta := Eta(None, None)

  /** `!startTime`: no start recorded, or a start of 0. */
  predicate NoStart(s: Eta) {
    s.startTime.None? || s.startTime.value == 0
  }

  /** An estimate, when there is one, is not negative. */
  predicate EstimateValid(s: Eta) {
    s.estimate.None? || s.estimate.value >= 0.0
  }

  /**
   * The remaining time after `elapsed` ms at `progress` percent: the total
   * the rate extrapolates to, minus what has passed, and never below 0. At
   * an infinite percentage the total is 0.
   */
  function Remaining(elapsed: int, progress: Js.Number): (ms: real)
    requires progress.Positive()
    ensures ms >= 0.0
    ensures progress.Finite? ==> ms == Js.Max(0.0, elapsed as real * 100.0 / progress.value - elapsed as real)
    ensures progress.PosInfinity? ==> ms == Js.Max(0.0, -(elapsed as real))
  {
    match progress
    case Finite(p) => Js.Max(0.0, elapsed as real / (p / 100.0) - elapsed as real)
    case PosInfinity => Js.Max(0.0, 0.0 - elapsed as real)
  }

  /**
   * The estimate effect, run with the clock reading `now` whenever
   * visibility, progress or the start time changed. The first positive
   * sample while visible only records the start; hiding clears both.
   */
  function EtaEffect(s: Eta, visible: bool, progress: Js.Number, now: int): (r: Eta)
    ensures visible && progress.Positive() && NoStart(s) ==> r == Eta(Some(now), s.estimate)
    ensures visible && progress.Positive() && !NoStart(s) ==>
      r == Eta(s.startTime, Some(Remaining(now - s.startTime.value, progress)))
    ensures !visible ==> r == Cleared
    ensures visible && !progress.Positive() ==> r == s
    ensures EstimateValid(s) ==> EstimateValid(r)
  {
    if visible && progress.Positive() then
      if NoStart(s) then Eta(Some(now), s.estimate)
      else Eta(s.startTime, Some(Remaining(now - s.startTime.value, progress)))
    else if !visible then Cleared
    else s
  }

  /** With time moving forward, further progress never raises the estimate for the same reading. */
  lemma MoreProgressLessTime(elapsed: nat, p: real, q: real)
    requires 0.0 < p <= q
    ensures Remaining(elapsed, Js.Finite(q)) <= Remaining(elapsed, Js.Finite(p))
  {
    var e := elapsed as real;
    assert e * 100.0 / q <= e * 100.0 / p by {
      assert (e * 100.0 / q) * q == e * 100.0;
      assert (e * 100.0 / p) * p == e * 100.0;
      DivideMonotone(e * 100.0, p, q);
    }
  }

  lemma DivideMonotone(a: real, p: real, q: real)
    requires a >= 0.0 && 0.0 < p <= q
    ensures a / q <= a / p
  {
    var x, y := a / q, a / p;
    assert x * q == a && y * p == a;
    assert x * (q - p) >= 0.0;
  }

  /** At 100 % nothing remains. */
  lemma DoneMeansNothingLeft(elapsed: nat)
    ensures Remaining(elapsed, Js.Finite(100.0)) == 0.0
  {
  }

  const Placeholder: string := "--:--"

  /** The numeral of a non-negative integer, padded to at least two digits. */
  function Padded(n: nat): string {
    Text.PadStart2(Text.Decimal(n))
  }

  /** Whole seconds as `mm:ss`: padded minutes, a colon, padded seconds. */
  function Clock(secs: nat): string {
    Padded(secs / 60) + ":" + Padded(secs % 60)
  }

  /** `Math.floor(milliseconds / 1000)` for a positive duration. */
  function WholeSeconds(ms: real): (secs: nat)
    requires ms > 0.0
    ensures secs as real <= ms / 1000.0 < secs as real + 1.0
  {
    Js.Floor(ms / 1000.0)
  }

  /**
   * `formatTime(milliseconds)` on the overlay: the placeholder for a missing,
   * zero or negative value, otherwise whole minutes and seconds.
   */
  function FormatTime(ms: Option<real>): (s: string)
    ensures ms.None? || ms.value <= 0.0 ==> s == Placeholder
    ensures ms.Some? && ms.value > 0.0 ==> s == Clock(WholeSeconds(ms.value))
  {
    if ms.None? || ms.value == 0.0 || ms.value < 0.0 then Placeholder
    else Clock(WholeSeconds(ms.value))
  }

  /** Reads an `m…m:ss` clock back to seconds: digits, a colon, two digits. */
  function ParseClock(s: string): Option<nat> {
    if |s| < 4 || s[|s| - 3] != ':' then None
    else
      var m, ss := s[..|s| - 3], s[|s| - 2..];
      if Text.AllDigits(m) && Text.AllDigits(ss) then Some(Text.ParseDecimal(m) * 60 + Text.ParseDecimal(ss))
      else None
  }

  lemma AtMostTwoDigits(n: nat)
    requires n < 100
    ensures |Text.Decimal(n)| <= 2
  {
    if n >= 10 {
      assert |Text.Decimal(n / 10)| == 1;
    }
  }

  lemma ParseClockJoin(a: string, b: string, s: string, m: nat, r: nat, total: nat)
    requires Text.AllDigits(a) && Text.AllDigits(b) && |a| >= 1 && |b| == 2
    requires Text.ParseDecimal(a) == m && Text.ParseDecimal(b) == r && total == m * 60 + r
    requires s == a + ":" + b
    ensures ParseClock(s) == Some(total)
  {
    assert s[..|s| - 3] == a;
    assert s[|s| - 2..] == b;
    assert s[|s| - 3] == ':';
  }

  /** A positive duration formats to a clock that reads back as its whole seconds, with seconds below 60. */
  lemma FormatTimeRoundTrip(ms: real)
    requires ms > 0.0
    ensures ParseClock(FormatTime(Some(ms))) == Some(WholeSeconds(ms))
    ensures var s := FormatTime(Some(ms)); |s| >= 5 && s[|s| - 3] == ':'
  {
    ClockOfSeconds(WholeSeconds(ms));
  }

  lemma ClockOfSeconds(secs: nat)
    ensures ParseClock(Clock(secs)) == Some(secs)
    ensures |Clock(secs)| >= 5 && Clock(secs)[|Clock(secs)| - 3] == ':'
  {
    var m, r := secs / 60, secs % 60;
    assert m * 60 + r == secs;
    ClockParts(m, r, secs, Clock(secs));
  }

  /** A clock built from minutes and seconds below 100 reads back as their total. */
  lemma ClockParts(m: nat, r: nat, total: nat, s: string)
    requires r < 100 && total == m * 60 + r && s == Padded(m) + ":" + Padded(r)
    ensures ParseClock(s) == Some(total)
    ensures |s| >= 5 && s[|s| - 3] == ':'
  {
    var a, b := Padded(m), Padded(r);
    Text.PaddedDecimalValue(m);
    Text.PaddedDecimalValue(r);
    AtMostTwoDigits(r);
    assert a == Text.PadStart2(Text.Decimal(m)) && b == Text.PadStart2(Text.Decimal(r));
    assert Text.ParseDecimal(a) == m && Text.ParseDecimal(b) == r;
    assert |b| == 2;
    ParseClockJoin(a, b, s, m, r, total);
  }

  lemma WrapInjective(x: string, y: string)
    requires "~" + x + " remaining" == "~" + y + " remaining"
    ensures x == y
  {
    var w := "~" + x + " remaining";
    assert |x| == |y|;
    assert x == w[1..1 + |x|];
    assert y == ("~" + y + " remaining")[1..1 + |y|];
  }

  /** The remaining-time label: "Calculating..." until there is a non-zero estimate. */
  function TimeLabel(estimate: Option<real>): (text: string)
    ensures estimate.None? || estimate.value == 0.0 ==> text == "Calculating..."
    ensures estimate.Some? && estimate.value != 0.0 ==> text == "~" + FormatTime(estimate) + " remaining"
  {
    if estimate.None? || estimate.value == 0.0 then "Calculating..." else "~" + FormatTime(estimate) + " remaining"
  }

  /** A valid estimate never shows the placeholder clock. */
  lemma TimeLabelNeverPlaceholder(s: Eta)
    requires EstimateValid(s)
    ensures TimeLabel(s.estimate) != "~" + Placeholder + " remaining"
  {
    if s.estimate.Some? && s.estimate.value != 0.0 {
      var ms := s.estimate.value;
      FormatTimeRoundTrip(ms);
      assert ParseClock(Placeholder) == None;
      if TimeLabel(s.estimate) == "~" + Placeholder + " remaining" {
        WrapInjective(FormatTime(s.estimate), Placeholder);
      }
    }
  }

  /** The percentage label: `Math.round(progress)`. */
  function PercentLabel(progress: Js.Number): (n: Js.Number)
    ensures progress.Finite? ==> n.Finite? && progress.value - 0.5 < n.value <= progress.value + 0.5
    ensures !progress.Finite? ==> n == progress
  {
    Js.RoundNumber(progress)
  }

  /** The export options the overlay is given while processing. */
  datatype Details = Details(
    startTime: real, duration: real,
    fadeIn: real, fadeOut: real, audioFadeIn: real, audioFadeOut: real,
    silenceAtStart: real, blackScreenAtStart: real,
    exportQuality: string, exportSize: real)

  /** The rows the details section renders. */
  datatype Rows = Rows(clip: bool, videoFades: bool, audioFades: bool, silence: bool, black: bool, qualityAndSize: bool)

  /** What renders: nothing when hidden, otherwise the rows the options and export type call for. */
  function Render(visible: bool, exportType: string, options: Option<Details>): (r: Option<Rows>)
    ensures r.Some? <==> visible
    ensures r.Some? && options.None? ==> r.value == Rows(false, false, false, false, false, false)
    ensures r.Some? && options.Some? ==>
      var o := options.value;
      && r.value.clip
      && (r.value.videoFades <==> o.fadeIn > 0.0 || o.fadeOut > 0.0)
      && (r.value.audioFades <==> o.audioFadeIn > 0.0 || o.audioFadeOut > 0.0)
      && (r.value.silence <==> o.silenceAtStart > 0.0)
      && (r.value.black <==> o.blackScreenAtStart > 0.0)
      && (r.value.qualityAndSize <==> exportType == "video")
  {
    if !visible then None
    else match options
      case None => Some(Rows(false, false, false, false, false, false))
      case Some(o) => Some(Rows(
        true,
        o.fadeIn > 0.0 || o.fadeOut > 0.0,
        o.audioFadeIn > 0.0 || o.audioFadeOut > 0.0,
        o.silenceAtStart > 0.0,
        o.blackScreenAtStart > 0.0,
        exportType == "video"))
  }
}
