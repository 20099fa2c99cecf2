/**
 * The saturation bounds attached to the divorce series before a logistic
 * growth fit: the cap is 1.2 times the series maximum, the floor is 0.
 * An empty series has no maximum, and pandas returns NaN for it.
 */
module ForecastPrep {

  import opened Numbers

  datatype Saturation = Saturation(cap: Num, floor: int)

  /** The cap's headroom factor over the largest observation. */
  const Headroom: real := 1.2

  function Largest(ys: seq<real>): (m: real)
    requires ys != []
    ensures exists i :: 0 <= i < |ys| && ys[i] == m
    ensures forall i :: 0 <= i < |ys| ==> ys[i] <= m
  {
    if |ys| == 1 then ys[0]
    else
      var rest := Largest(ys[1..]);
      assert forall i :: 1 <= i < |ys| ==> ys[i] == ys[1..][i - 1];
      if ys[0] >= rest then ys[0] else rest
  }

  function SaturationBounds(ys: seq<real>): (b: Saturation)
    ensures b.floor == 0
    ensures b.cap.NaN? <==> ys == []
    ensures !b.cap.Infinity?
    ensures b.cap.Finite? ==>
      && (exists i :: 0 <= i < |ys| && b.cap.value == ys[i] * Headroom)
      && forall i :: 0 <= i < |ys| ==> ys[i] * Headroom <= b.cap.value
  {
    if ys == [] then Saturation(NaN, 0) else Saturation(Finite(Largest(ys) * Headroom), 0)
  }

  /** For a series of non-negative counts the cap is at or above every observation. */
  lemma CapAboveSeries(ys: seq<real>)
    requires forall i :: 0 <= i < |ys| ==> ys[i] >= 0.0
    ensures SaturationBounds(ys).cap.Finite? ==>
      forall i :: 0 <= i < |ys| ==> SaturationBounds(ys).floor as real <= ys[i] <= SaturationBounds(ys).cap.value
  {
    var b := SaturationBounds(ys);
    if ys != [] {
      forall i | 0 <= i < |ys| ensures ys[i] <= b.cap.value {
        assert ys[i] * Headroom <= b.cap.value;
        assert ys[i] <= ys[i] * Headroom;
      }
    }
  }
}
