/** The reliability-versus-time curve: samples at t = 0, 10, 20, ... while
    t <= timeRange, each carrying exp(-totalFailureRate * t). The exponential is
    a parameter, so nothing is assumed about it unless a lemma says so. */
module Curve {

  datatype CurvePoint = CurvePoint(time: int, reliability: real)

  /** Distance between two consecutive sample times. */
  const TimeStep: int := 10

  /** The time range used when none is given. */
  const DefaultTimeRange: int := 500

  /** R(t) = exp(-lambda * t): the probability of surviving to time t under a
      constant failure rate lambda, for the exponential `exp` given. */
  function ReliabilityAt(exp: real -> real, total: real, t: real): real {
    exp(-total * t)
  }

  /** The samples the loop produces from time `t` onwards. */
  function SamplesFrom(exp: real -> real, total: real, t: int, timeRange: int): (r: seq<CurvePoint>)
    ensures |r| == if t > timeRange then 0 else (timeRange - t) / TimeStep + 1
    ensures forall i :: 0 <= i < |r| ==> r[i].time == t + TimeStep * i
    ensures forall i :: 0 <= i < |r| ==> r[i].reliability == ReliabilityAt(exp, total, r[i].time as real)
    decreases timeRange - t
  {
    if t > timeRange then []
    else [CurvePoint(t, ReliabilityAt(exp, total, t as real))] + SamplesFrom(exp, total, t + TimeStep, timeRange)
  }

  /** `generateCurveData(totalFailureRate, timeRange)`. */
  function GenerateCurveData(exp: real -> real, total: real, timeRange: int): (r: seq<CurvePoint>)
    ensures timeRange < 0 ==> r == []
    ensures timeRange >= 0 ==> |r| == timeRange / TimeStep + 1 && r[0].time == 0
    ensures forall i :: 0 <= i < |r| ==> r[i].time == TimeStep * i
    ensures forall i :: 0 <= i < |r| ==> 0 <= r[i].time <= timeRange
    ensures forall i, j :: 0 <= i < j < |r| ==> r[i].time < r[j].time
    ensures TimeStep * |r| > timeRange
    ensures forall i :: 0 <= i < |r| ==> r[i].reliability == ReliabilityAt(exp, total, r[i].time as real)
  {
    SamplesFrom(exp, total, 0, timeRange)
  }

  /** A time appears on the curve exactly when it is a multiple of the step
      between 0 and the time range. */
  lemma CurveCoversGrid(exp: real -> real, total: real, timeRange: int, t: int)
    ensures (exists i :: 0 <= i < |GenerateCurveData(exp, total, timeRange)|
                         && GenerateCurveData(exp, total, timeRange)[i].time == t)
        <==> 0 <= t <= timeRange && t % TimeStep == 0
  {
    var r := GenerateCurveData(exp, total, timeRange);
    if 0 <= t <= timeRange && t % TimeStep == 0 {
      var i := t / TimeStep;
      assert r[i].time == t;
    }
  }

  /** The default curve has 51 samples, from 0 to 500. */
  lemma DefaultCurveShape(exp: real -> real, total: real)
    ensures |GenerateCurveData(exp, total, DefaultTimeRange)| == 51
    ensures GenerateCurveData(exp, total, DefaultTimeRange)[50].time == 500
  {
  }

  /** For a positive failure rate and a strictly increasing exponential with
      exp(0) == 1, the curve starts at 1 and strictly decreases. */
  lemma CurveDecreasing(exp: real -> real, total: real, timeRange: int)
    requires forall x, y :: x < y ==> exp(x) < exp(y)
    requires exp(0.0) == 1.0
    requires total > 0.0 && timeRange >= 0
    ensures GenerateCurveData(exp, total, timeRange)[0].reliability == 1.0
    ensures forall i, j :: 0 <= i < j < |GenerateCurveData(exp, total, timeRange)| ==>
              GenerateCurveData(exp, total, timeRange)[i].reliability
              > GenerateCurveData(exp, total, timeRange)[j].reliability
  {
    var r := GenerateCurveData(exp, total, timeRange);
    assert -total * (r[0].time as real) == 0.0;
    forall i, j | 0 <= i < j < |r|
      ensures r[i].reliability > r[j].reliability
    {
      var ti, tj := r[i].time as real, r[j].time as real;
      assert ti < tj;
      assert total * ti < total * tj;
      assert -total * tj < -total * ti;
    }
  }
}
