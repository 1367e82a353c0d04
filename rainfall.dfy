/** The rainfall forecaster and drought-risk scorer of ai/rainfall_predictor.py. */
module Rainfall {
  import opened Observations

  /** `round(x, 2)` on an exact real: the nearest multiple of 0.01, halves to even. */
  function Round2(x: real): (r: real)
    ensures (r * 100.0).Floor as real == r * 100.0
    ensures -0.005 <= r - x <= 0.005
    ensures x >= 0.0 ==> r >= 0.0
  {
    var y := x * 100.0;
    var f := y.Floor;
    var frac := y - f as real;
    var k := if frac > 0.5 || (frac == 0.5 && f % 2 != 0) then f + 1 else f;
    assert x >= 0.0 ==> k >= 0;
    assert (k as real / 100.0) * 100.0 == k as real;
    k as real / 100.0
  }

  /** Rounding keeps order. */
  lemma Round2Monotone(x: real, y: real)
    requires x <= y
    ensures Round2(x) <= Round2(y)
  {
    var fx, fy := (x * 100.0).Floor, (y * 100.0).Floor;
    assert x * 100.0 <= y * 100.0;
    assert fx <= fy;
  }

  /** A value that is already a whole number of hundredths is left as it is. */
  lemma Round2OfCents(k: int)
    ensures Round2(k as real / 100.0) == k as real / 100.0
  {
    assert (k as real / 100.0) * 100.0 == k as real;
  }

  // ---------------------------------------------------------------------
  // Risk scorer
  // ---------------------------------------------------------------------

  /** `sum(1 for rain in predicted if rain < threshold)`. */
  function CountBelow(s: seq<real>, threshold: real): (c: nat)
    ensures c <= |s|
  {
    if s == [] then 0 else (if s[0] < threshold then 1 else 0) + CountBelow(s[1..], threshold)
  }

  /** The positions of `s` whose value is below the threshold. */
  function BelowIndices(s: seq<real>, threshold: real): set<int> {
    set k | 0 <= k < |s| && s[k] < threshold
  }

  /** Counting distributes over concatenation. */
  lemma {:induction false} CountBelowAppend(a: seq<real>, b: seq<real>, threshold: real)
    ensures CountBelow(a + b, threshold) == CountBelow(a, threshold) + CountBelow(b, threshold)
  {
    if a != [] {
      assert (a + b)[1..] == a[1..] + b;
      CountBelowAppend(a[1..], b, threshold);
    } else {
      assert a + b == b;
    }
  }

  /** The count is the number of positions whose value is below the threshold. */
  lemma {:induction false} CountBelowCountsIndices(s: seq<real>, threshold: real)
    ensures CountBelow(s, threshold) == |BelowIndices(s, threshold)|
  {
    if s == [] {
      assert BelowIndices(s, threshold) == {};
    } else {
      var p, x := s[..|s| - 1], s[|s| - 1];
      assert s == p + [x];
      CountBelowAppend(p, [x], threshold);
      CountBelowCountsIndices(p, threshold);
      var e := if x < threshold then {|p|} else {};
      assert BelowIndices(s, threshold) == BelowIndices(p, threshold) + e;
      assert BelowIndices(p, threshold) * e == {};
    }
  }

  /** Every value is below the threshold exactly when all of them are counted. */
  lemma {:induction false} CountBelowAll(s: seq<real>, threshold: real)
    ensures CountBelow(s, threshold) == |s| <==> forall k :: 0 <= k < |s| ==> s[k] < threshold
  {
    if s != [] {
      CountBelowAll(s[1..], threshold);
      assert forall k :: 1 <= k < |s| ==> s[k] == s[1..][k - 1];
    }
  }

  /** No value is below the threshold exactly when none is counted. */
  lemma {:induction false} CountBelowNone(s: seq<real>, threshold: real)
    ensures CountBelow(s, threshold) == 0 <==> forall k :: 0 <= k < |s| ==> s[k] >= threshold
  {
    if s != [] {
      CountBelowNone(s[1..], threshold);
      assert forall k :: 1 <= k < |s| ==> s[k] == s[1..][k - 1];
    }
  }

  lemma FractionBounds(c: nat, n: nat)
    requires 0 < n && c <= n
    ensures 0.0 <= c as real / n as real <= 1.0
    ensures c == n ==> c as real / n as real == 1.0
  {
  }

  lemma FractionMonotone(a: nat, b: nat, n: nat)
    requires 0 < n && a <= b
    ensures a as real / n as real <= b as real / n as real
  {
    assert b as real / n as real - a as real / n as real == (b - a) as real / n as real;
  }

  /** calculate_drought_risk: the percentage of values below the threshold, rounded. */
  function CalculateDroughtRisk(predictedRainfall: seq<real>, threshold: real): (risk: real)
    ensures predictedRainfall == [] ==> risk == 0.0
    ensures 0.0 <= risk <= 100.0
    ensures predictedRainfall != [] ==>
      -0.005 <= risk - (CountBelow(predictedRainfall, threshold) as real / |predictedRainfall| as real) * 100.0 <= 0.005
    ensures predictedRainfall != [] && (forall k :: 0 <= k < |predictedRainfall| ==> predictedRainfall[k] < threshold)
      ==> risk == 100.0
    ensures (forall k :: 0 <= k < |predictedRainfall| ==> predictedRainfall[k] >= threshold) ==> risk == 0.0
  {
    if predictedRainfall == [] then 0.0
    else
      var n := |predictedRainfall|;
      var c := CountBelow(predictedRainfall, threshold);
      var p := (c as real / n as real) * 100.0;
      assert 0.0 <= p <= 100.0 && (c == n ==> p == 100.0) by {
        FractionBounds(c, n);
      }
      Round2Monotone(0.0, p);
      Round2Monotone(p, 100.0);
      Round2OfCents(0);
      Round2OfCents(10000);
      CountBelowAll(predictedRainfall, threshold);
      CountBelowNone(predictedRainfall, threshold);
      Round2(p)
  }

  /** More days below the threshold never lower the risk. */
  lemma DroughtRiskMonotone(a: seq<real>, b: seq<real>, threshold: real)
    requires |a| == |b|
    requires CountBelow(a, threshold) <= CountBelow(b, threshold)
    ensures CalculateDroughtRisk(a, threshold) <= CalculateDroughtRisk(b, threshold)
  {
    if a != [] {
      var n := |a|;
      var ca, cb := CountBelow(a, threshold), CountBelow(b, threshold);
      FractionMonotone(ca, cb, n);
      var pa, pb := (ca as real / n as real) * 100.0, (cb as real / n as real) * 100.0;
      assert pa <= pb;
      Round2Monotone(pa, pb);
      assert CalculateDroughtRisk(a, threshold) == Round2(pa);
      assert CalculateDroughtRisk(b, threshold) == Round2(pb);
    }
  }

  /** Three of five forecast days below the threshold give a risk of 60%. */
  lemma ThreeOfFiveIsSixty()
    ensures CalculateDroughtRisk([1.0, 2.0, 7.5, 3.0, 12.0], 5.0) == 60.0
  {
    var s := [1.0, 2.0, 7.5, 3.0, 12.0];
    assert CountBelow(s, 5.0) == 3 by {
      assert s[1..] == [2.0, 7.5, 3.0, 12.0];
      assert s[1..][1..] == [7.5, 3.0, 12.0];
      assert s[1..][1..][1..] == [3.0, 12.0];
      assert s[1..][1..][1..][1..] == [12.0];
      assert s[1..][1..][1..][1..][1..] == [];
    }
    Round2OfCents(6000);
  }

  // ---------------------------------------------------------------------
  // Forecaster
  // ---------------------------------------------------------------------

  /** The fitted regression, seen only through its prediction function. */
  datatype Regression = Unfitted | Fitted(predict: (real, real) -> real)

  /** The simulated conditions of one day. */
  datatype Conditions = Conditions(temp: real, moist: real)

  function Max(a: real, b: real): real {
    if a >= b then a else b
  }

  /** `np.clip(x, lo, hi)`. */
  function Clip(x: real, lo: real, hi: real): (r: real)
    requires lo <= hi
    ensures lo <= r <= hi
    ensures lo <= x <= hi ==> r == x
    ensures x < lo ==> r == lo
    ensures x > hi ==> r == hi
    ensures forall y :: lo <= y <= hi ==> Dist(r, x) <= Dist(y, x)
  {
    if x < lo then lo else if x > hi then hi else x
  }

  /** The distance between two readings. */
  function Dist(a: real, b: real): real {
    if a >= b then a - b else b - a
  }

  /** `max(0, model.predict([[temp, moist]])[0])`: the model's rain, never negative. */
  function PredictedRain(predict: (real, real) -> real, c: Conditions): (r: real)
    ensures r >= 0.0 && r >= predict(c.temp, c.moist)
    ensures r == 0.0 || r == predict(c.temp, c.moist)
  {
    Max(0.0, predict(c.temp, c.moist))
  }

  /** One simulated day: perturb the temperature, then move the moisture by half
      the unrounded predicted rain, less half the new temperature's excess over
      25 degrees, and clip it to [10, 80]. */
  function NextConditions(predict: (real, real) -> real, c: Conditions, delta: real): (r: Conditions)
    ensures r.temp == c.temp + delta
    ensures 10.0 <= r.moist <= 80.0
    ensures var m := c.moist + PredictedRain(predict, c) * 0.5 - (r.temp - 25.0) * 0.5;
      (10.0 <= m <= 80.0 ==> r.moist == m) && (m < 10.0 ==> r.moist == 10.0) && (m > 80.0 ==> r.moist == 80.0)
  {
    var rain := PredictedRain(predict, c);
    var temp := c.temp + delta;
    Conditions(temp, Clip(c.moist + rain * 0.5 - (temp - 25.0) * 0.5, 10.0, 80.0))
  }

  /** The conditions at the start of each simulated day, and after the last one. */
  function Trajectory(predict: (real, real) -> real, c: Conditions, deltas: seq<real>): (r: seq<Conditions>)
    ensures |r| == |deltas| + 1 && r[0] == c
    decreases |deltas|
  {
    if deltas == [] then [c]
    else [c] + Trajectory(predict, NextConditions(predict, c, deltas[0]), deltas[1..])
  }

  /** The forecast: each day's rounded, non-negative predicted rain. */
  function Forecast(predict: (real, real) -> real, c: Conditions, deltas: seq<real>): (r: seq<real>)
    ensures |r| == |deltas|
    ensures forall k :: 0 <= k < |r| ==> r[k] >= 0.0
    decreases |deltas|
  {
    if deltas == [] then []
    else [Round2(PredictedRain(predict, c))] + Forecast(predict, NextConditions(predict, c, deltas[0]), deltas[1..])
  }

  /** After every simulated step the moisture lies in [10, 80]. */
  lemma {:induction false} TrajectoryMoistureBounded(predict: (real, real) -> real, c: Conditions, deltas: seq<real>)
    ensures var t := Trajectory(predict, c, deltas);
      forall k :: 1 <= k < |t| ==> 10.0 <= t[k].moist <= 80.0
    decreases |deltas|
  {
    if deltas != [] {
      var next := NextConditions(predict, c, deltas[0]);
      TrajectoryMoistureBounded(predict, next, deltas[1..]);
      var t := Trajectory(predict, c, deltas);
      assert forall k :: 1 <= k < |t| ==> t[k] == Trajectory(predict, next, deltas[1..])[k - 1];
    }
  }

  /** Day `k` of the forecast is the rounded prediction at the `k`-th state of
      the trajectory; the next state takes the perturbed temperature and the
      moisture moved by the unrounded prediction and that new temperature. */
  lemma {:induction false} ForecastFollowsTrajectory(predict: (real, real) -> real, c: Conditions,
                                                     deltas: seq<real>, k: nat)
    requires k < |deltas|
    ensures var t := Trajectory(predict, c, deltas);
      Forecast(predict, c, deltas)[k] == Round2(PredictedRain(predict, t[k])) &&
      t[k + 1].temp == t[k].temp + deltas[k] &&
      t[k + 1].moist == Clip(t[k].moist + PredictedRain(predict, t[k]) * 0.5 - (t[k + 1].temp - 25.0) * 0.5, 10.0, 80.0)
    decreases k
  {
    if k > 0 {
      ForecastFollowsTrajectory(predict, NextConditions(predict, c, deltas[0]), deltas[1..], k - 1);
    }
  }

  /** The training inputs: temperature and soil moisture of every row. */
  function Features(df: seq<Observation>): (x: seq<(real, real)>)
    ensures |x| == |df|
    ensures forall i :: 0 <= i < |df| ==> x[i] == (df[i].temperature, df[i].soilMoisture)
  {
    seq(|df|, i requires 0 <= i < |df| => (df[i].temperature, df[i].soilMoisture))
  }

  /** The training targets: the rainfall of every row. */
  function Targets(df: seq<Observation>): (y: seq<real>)
    ensures |y| == |df|
    ensures forall i :: 0 <= i < |df| ==> y[i] == df[i].rainfall
  {
    seq(|df|, i requires 0 <= i < |df| => df[i].rainfall)
  }

  /** The forecaster: a regression model and whether it has been fitted. */
  class RainfallPredictor {
    var model: Regression
    var isTrained: bool

    /** A trained predictor always has a fitted model. */
    ghost predicate Valid()
      reads this
    {
      isTrained ==> model.Fitted?
    }

    constructor ()
      ensures Valid() && !isTrained && model == Unfitted
    {
      model := Unfitted;
      isTrained := false;
    }

    /** train: fits the model on every row (all farmers pooled); `fit` stands for
        the least-squares fit, which this model does not look into. */
    method Train(df: seq<Observation>, fit: (seq<(real, real)>, seq<real>) -> ((real, real) -> real))
      modifies this
      ensures Valid() && isTrained
      ensures model == Fitted(fit(Features(df), Targets(df)))
    {
      model := Fitted(fit(Features(df), Targets(df)));
      isTrained := true;
    }

    /** predict_next_days: before training, nothing; afterwards `days` values
        from the closed-loop simulation, `deltas[i]` being day i's random
        temperature change. */
    method PredictNextDays(currentTemp: real, currentMoisture: real, deltas: seq<real>, days: int := 5)
      returns (predictions: seq<real>)
      requires Valid()
      requires isTrained ==> days <= |deltas|
      ensures !isTrained ==> predictions == []
      ensures isTrained ==> |predictions| == (if days < 0 then 0 else days)
      ensures isTrained ==> predictions == Forecast(model.predict, Conditions(currentTemp, currentMoisture),
                                                    deltas[..if days < 0 then 0 else days])
      ensures forall k :: 0 <= k < |predictions| ==> predictions[k] >= 0.0
    {
      if !isTrained {
        return [];
      }
      var n := if days < 0 then 0 else days;
      var predict := model.predict;
      ghost var start := Conditions(currentTemp, currentMoisture);
      predictions := [];
      var temp := currentTemp;
      var moist := currentMoisture;
      var i := 0;
      while i < days
        invariant 0 <= i <= n
        invariant |predictions| == i
        invariant predictions + Forecast(predict, Conditions(temp, moist), deltas[i..n])
               == Forecast(predict, start, deltas[..n])
      {
        ghost var c := Conditions(temp, moist);
        assert deltas[i..n][0] == deltas[i] && deltas[i..n][1..] == deltas[i + 1..n];
        assert Forecast(predict, c, deltas[i..n])
            == [Round2(PredictedRain(predict, c))] + Forecast(predict, NextConditions(predict, c, deltas[i]), deltas[i + 1..n]);
        var predRain := predict(temp, moist);
        predRain := Max(0.0, predRain);
        assert predRain == PredictedRain(predict, c);
        predictions := predictions + [Round2(predRain)];
        temp := temp + deltas[i];
        moist := moist + predRain * 0.5 - (temp - 25.0) * 0.5;
        moist := Clip(moist, 10.0, 80.0);
        assert Conditions(temp, moist) == NextConditions(predict, c, deltas[i]);
        i := i + 1;
      }
      assert deltas[n..n] == [];
    }
  }
}
