/**
 * Calibrated scan settings and the scan-width tests shared by the detectors and
 * the refinement planner (linien-gateway/app/auto_lock_scan.py). All voltages are
 * sweep volts, modelled as exact reals.
 */
module AutoLockSettings {
  import opened Common

  datatype ScanSettings = ScanSettings(
    signalType: string,
    allowSingleSide: bool,
    halfRange: real,
    errorMin: real,
    symmetryMin: real,
    singleErrorMin: real,
    minAmplitude: real,
    smoothWindowPts: int,
    minSignalScanFraction: real,
    maxCenterStepSignalWidths: real)

  /** Feature half-width in samples, clamped to [2, half a trace]. */
  function HalfRangeToPoints(halfRange: real, n: int, amplitude: real): int {
    if n < 8 then 2
    else
      var a := Abs(amplitude);
      if a <= 0.000000001 then MaxInt(2, MinInt(24, n / 16))
      else
        var pointsPerVolt := (n - 1) as real / (2.0 * a);
        MaxInt(2, MinInt(RoundedPoints(halfRange, pointsPerVolt), n / 2 - 1))
  }

  function RoundedPoints(halfRange: real, pointsPerVolt: real): int {
    RoundHalfEven(Scaled(Max(0.0, halfRange), pointsPerVolt))
  }

  function Scaled(x: real, perUnit: real): real {
    x * perUnit
  }

  /** Calibrated feature half-width in samples of this sweep. */
  function FeatureResolutionSamples(s: ScanSettings, n: int, amplitude: real): real {
    var span := 2.0 * Abs(amplitude);
    if n < 2 || span <= 0.000000000001 then 0.0 else s.halfRange * (n - 1) as real / span
  }

  predicate SpacingIsMeasurable(s: ScanSettings, n: int, amplitude: real) {
    s.halfRange <= 0.0 ||
    2 * HalfRangeToPoints(s.halfRange, n, amplitude) >= MaxInt(1, s.smoothWindowPts)
  }

  /** Is the scan so wide that the move onto the target is one long leap? */
  predicate ScanTooWideToLock(s: ScanSettings, amplitude: real, sideband: Option<real>, tracePoints: Option<int>) {
    && s.minSignalScanFraction > 0.0
    && s.signalType == "pdh"
    && 2.0 * Abs(amplitude) > 0.000000000001
    && match sideband
       case None => tracePoints.Some? && !SpacingIsMeasurable(s, tracePoints.value, amplitude)
       case Some(offset) => 2.0 * Abs(offset) < s.minSignalScanFraction * (2.0 * Abs(amplitude))
  }

  function MaxLockableAmplitude(s: ScanSettings, sideband: Option<real>): Option<real> {
    if s.minSignalScanFraction <= 0.0 || sideband.None? then None
    else Some(Abs(sideband.value) / s.minSignalScanFraction)
  }

  /**
   * The amplitude returned by MaxLockableAmplitude is exactly the threshold of
   * ScanTooWideToLock for a PDH signal of known spacing, on every scan with a span
   * above the 1e-12 V cut-off. (Below the cut-off a scan is never too wide.)
   */
  lemma TooWideIffAboveMaxLockable(s: ScanSettings, amplitude: real, offset: real, tracePoints: Option<int>)
    requires s.signalType == "pdh" && s.minSignalScanFraction > 0.0
    ensures MaxLockableAmplitude(s, Some(offset)).Some?
    ensures ScanTooWideToLock(s, amplitude, Some(offset), tracePoints) <==>
            2.0 * Abs(amplitude) > 0.000000000001 &&
            Abs(amplitude) > MaxLockableAmplitude(s, Some(offset)).value
  {
    var f, w := s.minSignalScanFraction, Abs(offset);
    DivisionThreshold(w, f, Abs(amplitude));
  }

  lemma DivisionThreshold(w: real, f: real, a: real)
    requires f > 0.0
    ensures w < f * a <==> w / f < a
  {
    var q := w / f;
    assert w == f * q;
    if q < a { assert f * (a - q) > 0.0; } else { assert f * (q - a) >= 0.0; }
  }

  /** Sweep voltage of a (fractional) trace index. */
  function IndexToVoltage(index: real, n: int, center: real, amplitude: real): real {
    if n <= 1 then center
    else
      var minimum := center - amplitude;
      var maximum := center + amplitude;
      var fraction := index / (n - 1) as real;
      minimum + fraction * (maximum - minimum)
  }

  /** Whatever index a detector picks, its voltage lies inside the window scanned. */
  lemma IndexVoltageInWindow(index: real, n: int, center: real, amplitude: real)
    requires n > 1 ==> 0.0 <= index <= (n - 1) as real
    requires 0.0 <= amplitude
    ensures Abs(IndexToVoltage(index, n, center, amplitude) - center) <= amplitude
  {
    if n > 1 {
      var m := (n - 1) as real;
      var fraction := index / m;
      assert fraction * m == index;
      FractionInUnit(fraction, m);
      assert IndexToVoltage(index, n, center, amplitude) - center == fraction * (2.0 * amplitude) - amplitude;
      assert 0.0 <= fraction * (2.0 * amplitude) <= 2.0 * amplitude by {
        assert (1.0 - fraction) * (2.0 * amplitude) >= 0.0;
      }
    }
  }

  /** The scale itself: the first sample is at the lower edge of the scan, the last at the upper, the others evenly between. */
  lemma VoltageScale(index: real, n: int, center: real, amplitude: real)
    requires n > 1
    ensures (IndexToVoltage(index, n, center, amplitude) - (center - amplitude)) * (n - 1) as real == index * (2.0 * amplitude)
  {
    var m := (n - 1) as real;
    var fraction := index / m;
    assert fraction * m == index;
    assert IndexToVoltage(index, n, center, amplitude) - (center - amplitude) == fraction * (2.0 * amplitude);
    assert fraction * (2.0 * amplitude) * m == fraction * m * (2.0 * amplitude);
  }

  /** The half-width in samples is within half a sample of the half-width in volts, except where it is clamped. */
  lemma HalfRangeInSamples(halfRange: real, n: int, amplitude: real)
    requires n >= 8 && amplitude > 0.000000001 && halfRange >= 0.0
    ensures var p, width := HalfRangeToPoints(halfRange, n, amplitude), halfRange * (n - 1) as real;
            && 2 <= p <= n / 2 - 1
            && (p < n / 2 - 1 ==> width <= (p as real + 0.5) * (2.0 * amplitude))
            && (p > 2 ==> width >= (p as real - 0.5) * (2.0 * amplitude))
  {
    var span := 2.0 * amplitude;
    var perVolt := (n - 1) as real / span;
    var x := Scaled(halfRange, perVolt);
    assert perVolt * span == (n - 1) as real;
    assert x * span == halfRange * (perVolt * span);
    assert Max(0.0, halfRange) == halfRange && Abs(amplitude) == amplitude;
    var k := RoundedPoints(halfRange, perVolt);
    assert k == RoundHalfEven(x);
    ProductSign((k as real + 0.5) - x, span);
    ProductSign(x - (k as real - 0.5), span);
    if k < 2 {
      ProductSign(2.5 - x, span);
    }
    if k > n / 2 - 1 {
      ProductSign(x - ((n / 2 - 1) as real - 0.5), span);
    }
  }

  lemma FractionInUnit(fraction: real, m: real)
    requires m > 0.0 && 0.0 <= fraction * m <= m
    ensures 0.0 <= fraction <= 1.0
  {
    ProductSign(fraction, m);
    ProductSign(1.0 - fraction, m);
  }

  lemma ProductSign(x: real, m: real)
    requires m > 0.0
    ensures x * m >= 0.0 <==> x >= 0.0
  {
  }
}
