/**
 The linear pace of a usage window (internal/agentusage/pace.go), over the reals.
 `untilReset` is the time from now to the reset in seconds.
 */
module UsagePace {
  import opened Common

  datatype Stage = OnTrack | SlightlyAhead | Ahead | FarAhead | SlightlyBehind | Behind | FarBehind

  datatype Pace = Pace(
    stage: Stage, delta: real, expected: real, actual: real, eta: Option<real>, lastsUntilReset: bool)

  function Clamp(v: real, lo: real, hi: real): real {
    if v < lo then lo else if v > hi then hi else v
  }

  function PaceStage(delta: real): Stage {
    var abs := if delta < 0.0 then -delta else delta;
    if abs <= 2.0 then OnTrack
    else if abs <= 6.0 then (if delta >= 0.0 then SlightlyAhead else SlightlyBehind)
    else if abs <= 12.0 then (if delta >= 0.0 then Ahead else Behind)
    else (if delta >= 0.0 then FarAhead else FarBehind)
  }

  function ComputePace(usedPercent: real, windowMinutes: int, untilReset: Option<real>): Option<Pace> {
    if untilReset.None? || windowMinutes <= 0 then None else
      var duration := windowMinutes as real * 60.0;
      var left := untilReset.value;
      if left <= 0.0 || left > duration then None else
        var elapsed := Clamp(duration - left, 0.0, duration);
        var expected := Clamp(elapsed / duration * 100.0, 0.0, 100.0);
        var actual := Clamp(usedPercent, 0.0, 100.0);
        if elapsed == 0.0 && actual > 0.0 then None else
          var delta := actual - expected;
          var pace := Pace(PaceStage(delta), delta, expected, actual, None, false);
          if elapsed > 0.0 && actual > 0.0 then
            var candidate := (100.0 - actual) / (actual / elapsed);
            Some(if candidate >= left then pace.(lastsUntilReset := true) else pace.(eta := Some(candidate)))
          else if elapsed > 0.0 then Some(pace.(lastsUntilReset := true))
          else Some(pace)
  }

  /** Usage `after` further seconds at the rate of the elapsed part of the window. */
  function Extrapolated(actual: real, elapsed: real, after: real): real
    requires elapsed > 0.0
  {
    actual + actual / elapsed * after
  }

  lemma ScaleBoth(x: real, y: real, k: real)
    requires k > 0.0
    ensures x < y <==> x * k < y * k
  {
  }

  lemma ExpectedInRange(elapsed: real, duration: real)
    requires 0.0 <= elapsed <= duration && duration > 0.0
    ensures 0.0 <= elapsed / duration * 100.0 <= 100.0
  {
    var q := elapsed / duration;
    assert q * duration == elapsed;
    if q > 1.0 { ScaleBoth(1.0, q, duration); }
    if q < 0.0 { ScaleBoth(q, 0.0, duration); }
  }

  /** Actual usage is below the expected share exactly when it extrapolates to below 100 at the reset. */
  lemma BelowExpectedMeansBelowHundred(actual: real, elapsed: real, left: real)
    requires elapsed > 0.0 && left > 0.0
    ensures actual < elapsed / (elapsed + left) * 100.0 <==> Extrapolated(actual, elapsed, left) < 100.0
    ensures actual == elapsed / (elapsed + left) * 100.0 <==> Extrapolated(actual, elapsed, left) == 100.0
  {
    var duration, q, rate := elapsed + left, elapsed / (elapsed + left), actual / elapsed;
    assert q * duration == elapsed && rate * elapsed == actual;
    assert (q * 100.0) * duration == 100.0 * elapsed;
    assert Extrapolated(actual, elapsed, left) * elapsed == actual * duration by {
      assert (rate * left) * elapsed == (rate * elapsed) * left;
    }
    ScaleBoth(actual, q * 100.0, duration);
    ScaleBoth(q * 100.0, actual, duration);
    ScaleBoth(Extrapolated(actual, elapsed, left), 100.0, elapsed);
    ScaleBoth(100.0, Extrapolated(actual, elapsed, left), elapsed);
  }

  /** Usage reaches exactly 100 at the time the estimate names, and the estimate orders times by usage. */
  lemma EstimateIsExact(actual: real, elapsed: real, left: real)
    requires elapsed > 0.0 && actual > 0.0
    ensures var candidate := (100.0 - actual) / (actual / elapsed);
      && Extrapolated(actual, elapsed, candidate) == 100.0
      && (candidate < left <==> Extrapolated(actual, elapsed, left) > 100.0)
  {
    var rate := actual / elapsed;
    assert rate * elapsed == actual;
    ScaleBoth(0.0, rate, elapsed);
    var candidate := (100.0 - actual) / rate;
    assert candidate * rate == 100.0 - actual;
    ScaleBoth(candidate, left, rate);
  }

  /**
   When time has elapsed: the window lasts until its reset exactly when usage is not
   above pace; otherwise the estimate lies before the reset and usage reaches exactly
   100 there.
   */
  lemma PaceIsLinear(usedPercent: real, windowMinutes: int, left: real)
    requires windowMinutes > 0 && 0.0 < left < windowMinutes as real * 60.0
    ensures var r := ComputePace(usedPercent, windowMinutes, Some(left));
      var elapsed := windowMinutes as real * 60.0 - left;
      && r.Some?
      && r.value.actual == Clamp(usedPercent, 0.0, 100.0)
      && (r.value.lastsUntilReset <==> r.value.delta <= 0.0)
      && (r.value.eta.Some? <==> r.value.delta > 0.0)
      && (r.value.eta.Some? ==>
            && 0.0 <= r.value.eta.value < left
            && Extrapolated(r.value.actual, elapsed, r.value.eta.value) == 100.0)
  {
    var duration, actual := windowMinutes as real * 60.0, Clamp(usedPercent, 0.0, 100.0);
    var elapsed := duration - left;
    ExpectedInRange(elapsed, duration);
    if actual > 0.0 {
      EstimateIsExact(actual, elapsed, left);
      BelowExpectedMeansBelowHundred(actual, elapsed, left);
      var rate := actual / elapsed;
      assert rate * elapsed == actual;
      ScaleBoth(0.0, rate, elapsed);
      var candidate := (100.0 - actual) / rate;
      assert candidate >= 0.0 by { if candidate < 0.0 { ScaleBoth(candidate, 0.0, rate); } }
    }
  }

  /** No assessment exists exactly outside the window, or when usage precedes any elapsed time. */
  lemma PaceIsAbsent(usedPercent: real, windowMinutes: int, untilReset: Option<real>)
    ensures ComputePace(usedPercent, windowMinutes, untilReset).None? <==>
      || untilReset.None? || windowMinutes <= 0
      || untilReset.value <= 0.0 || untilReset.value > windowMinutes as real * 60.0
      || (untilReset.value == windowMinutes as real * 60.0 && usedPercent > 0.0)
  {
    if untilReset.Some? && windowMinutes > 0 && 0.0 < untilReset.value <= windowMinutes as real * 60.0 {
      ExpectedInRange(windowMinutes as real * 60.0 - untilReset.value, windowMinutes as real * 60.0);
    }
  }

  /** The loop's weekly headroom gate: positive headroom is linear extrapolation staying strictly below 100. */
  lemma HeadroomMeansBelowHundred(usedPercent: real, windowMinutes: int, left: real)
    requires windowMinutes > 0 && 0.0 < left < windowMinutes as real * 60.0
    ensures var pace := ComputePace(usedPercent, windowMinutes, Some(left)).value;
      pace.expected - pace.actual > 0.0 <==>
      Extrapolated(pace.actual, windowMinutes as real * 60.0 - left, left) < 100.0
  {
    PaceIsLinear(usedPercent, windowMinutes, left);
    var duration := windowMinutes as real * 60.0;
    ExpectedInRange(duration - left, duration);
    BelowExpectedMeansBelowHundred(Clamp(usedPercent, 0.0, 100.0), duration - left, left);
  }
}
