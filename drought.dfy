/** The drought classifier of core/drought_logic.py: a soil-moisture check on the
    latest day, then a scan of the trailing dry streak over the last
    `consecutive_days` rows. */
module Drought {
  import opened Observations

  /** The verdict `(is_drought, reason)`, with the reason kept as its cause. */
  datatype Verdict =
    | NoData
    | MoistureBreach(moisture: real, threshold: real)
    | DryStreak(rainThreshold: real, days: int)
    | Normal
  {
    predicate IsDrought() {
      MoistureBreach? || DryStreak?
    }

    /** The reason text; `showReal` stands for Python's rendering of a float.
        The two non-drought texts are fixed, and a drought's text is never one
        of them, so the reason alone tells whether there is a drought. */
    function Reason(showReal: real -> string): (r: string)
      ensures NoData? ==> r == "No data"
      ensures Normal? ==> r == "Normal conditions"
      ensures IsDrought() <==> r != "No data" && r != "Normal conditions"
    {
      match this
      case NoData => "No data"
      case MoistureBreach(m, t) =>
        "Soil moisture (" + showReal(m) + "%) below critical level (" + showReal(t) + "%)"
      case DryStreak(r, n) =>
        "Rainfall below threshold (" + showReal(r) + "mm) for " + IntToString(n) + " consecutive days"
      case Normal => "Normal conditions"
    }
  }

  /** The answers `(False, "No data")` and `(False, "Normal conditions")` of
      check_drought, and that its two other verdicts report a drought. */
  lemma VerdictTuples(showReal: real -> string, m: real, t: real, r: real, n: int)
    ensures !NoData.IsDrought() && NoData.Reason(showReal) == "No data"
    ensures !Normal.IsDrought() && Normal.Reason(showReal) == "Normal conditions"
    ensures MoistureBreach(m, t).IsDrought() && DryStreak(r, n).IsDrought()
  {
  }

  function DigitsOf(n: nat): string
    decreases n
  {
    var d := ['0', '1', '2', '3', '4', '5', '6', '7', '8', '9'][n % 10];
    if n < 10 then [d] else DigitsOf(n / 10) + [d]
  }

  function IntToString(n: int): string {
    if n < 0 then "-" + DigitsOf(-n) else DigitsOf(n)
  }

  function Min(a: int, b: int): int {
    if a <= b then a else b
  }

  /** `Series.tail(n)`: the last `n` items, or for negative `n` all but the first `-n`. */
  function Tail<T>(s: seq<T>, n: int): (r: seq<T>)
    ensures |r| <= |s|
    ensures forall k :: 0 <= k < |r| ==> r[k] == s[|s| - |r| + k]
    ensures n >= 0 ==> |r| == Min(n, |s|)
    ensures n < 0 ==> |r| == |s| - Min(-n, |s|)
  {
    if n >= 0 then s[|s| - Min(n, |s|)..] else s[Min(-n, |s|)..]
  }

  /** Number of `true` values at the end of `s`. */
  function TrailingRun(s: seq<bool>): (r: nat)
    ensures r <= |s|
  {
    if s == [] || !s[|s| - 1] then 0 else TrailingRun(s[..|s| - 1]) + 1
  }

  /** Appending a `true` extends the run; appending a `false` ends it. */
  lemma TrailingRunSnoc(s: seq<bool>, b: bool)
    ensures TrailingRun(s + [b]) == if b then TrailingRun(s) + 1 else 0
  {
    assert (s + [b])[..|s|] == s;
  }

  /** `TrailingRun` is the length of the maximal all-`true` suffix. */
  lemma {:induction false} TrailingRunIsMaximalSuffix(s: seq<bool>)
    ensures TrailingRun(s) <= |s|
    ensures forall k :: |s| - TrailingRun(s) <= k < |s| ==> s[k]
    ensures TrailingRun(s) < |s| ==> !s[|s| - 1 - TrailingRun(s)]
  {
    if s != [] && s[|s| - 1] {
      var p := s[..|s| - 1];
      TrailingRunIsMaximalSuffix(p);
      assert forall k :: 0 <= k < |p| ==> p[k] == s[k];
    }
  }

  /** The run covers the whole sequence exactly when every item is `true`. */
  lemma TrailingRunFull(s: seq<bool>)
    ensures TrailingRun(s) == |s| <==> forall k :: 0 <= k < |s| ==> s[k]
  {
    TrailingRunIsMaximalSuffix(s);
  }

  /** The last `n` rows of `rows` exist and all had rain below `rainThreshold`. */
  predicate DryWindow(rows: seq<Observation>, rainThreshold: real, n: int) {
    n <= 0 || (n <= |rows| && forall k :: |rows| - n <= k < |rows| ==> rows[k].rainfall < rainThreshold)
  }

  /** The `is_dry` column: one flag per row, set when its rain is below the threshold. */
  function DryFlags(rows: seq<Observation>, rainThreshold: real): (r: seq<bool>)
    ensures |r| == |rows|
    ensures forall k :: 0 <= k < |rows| ==> r[k] == (rows[k].rainfall < rainThreshold)
  {
    seq(|rows|, k requires 0 <= k < |rows| => rows[k].rainfall < rainThreshold)
  }

  /** The streak over the tail of the `is_dry` column reaches `n` exactly when
      the last `n` rows are all dry. */
  lemma WindowStreakMatchesDryWindow(rows: seq<Observation>, rainThreshold: real, n: int)
    ensures var isDry := DryFlags(rows, rainThreshold); TrailingRun(Tail(isDry, n)) >= n <==> DryWindow(rows, rainThreshold, n)
  {
    var isDry := DryFlags(rows, rainThreshold);
    var window := Tail(isDry, n);
    TrailingRunFull(window);
    TrailingRunIsMaximalSuffix(window);
    if n > 0 {
      if DryWindow(rows, rainThreshold, n) {
        assert |window| == n;
        assert forall k :: 0 <= k < |window| ==> window[k];
      }
    }
  }

  /** The counter left by the scan is the trailing run of dry rows inside the
      last `n` rows: at most `min(n, row count)`, every row it covers is dry,
      and the row just before it, if inside the window, is wet. */
  lemma {:induction false} DryStreakIsTrailingDryRun(rows: seq<Observation>, rainThreshold: real, n: int)
    ensures var window := Tail(DryFlags(rows, rainThreshold), n);
      var streak := TrailingRun(window);
      streak <= |window| && (n >= 0 ==> streak <= Min(n, |rows|)) &&
      (forall k :: 0 <= k < |rows| && |rows| - streak <= k ==> rows[k].rainfall < rainThreshold) &&
      (streak < |window| ==> rows[|rows| - 1 - streak].rainfall >= rainThreshold)
  {
    var isDry := DryFlags(rows, rainThreshold);
    var window := Tail(isDry, n);
    TrailingRunIsMaximalSuffix(window);
  }

  /** The classification, stated without the streak counter. */
  function Classify(df: seq<Observation>, farmerId: string, rainThreshold: real,
                    moistureThreshold: real, consecutiveDays: int): Verdict
  {
    var rows := History(df, farmerId);
    if rows == [] then NoData
    else if rows[|rows| - 1].soilMoisture < moistureThreshold then
      MoistureBreach(rows[|rows| - 1].soilMoisture, moistureThreshold)
    else if DryWindow(rows, rainThreshold, consecutiveDays) then
      DryStreak(rainThreshold, consecutiveDays)
    else Normal
  }

  /** Once the latest moisture is fine, only the dry window decides. */
  lemma ClassifyWhenMoistureFine(df: seq<Observation>, farmerId: string, rainThreshold: real,
                                 moistureThreshold: real, consecutiveDays: int)
    requires var h := History(df, farmerId); h != [] && h[|h| - 1].soilMoisture >= moistureThreshold
    ensures Classify(df, farmerId, rainThreshold, moistureThreshold, consecutiveDays)
         == if DryWindow(History(df, farmerId), rainThreshold, consecutiveDays)
            then DryStreak(rainThreshold, consecutiveDays) else Normal
  {
  }

  /** The streak loop: adds one on a dry day and resets on a wet one, so it
      ends with the length of the trailing run of dry days. */
  method ScanDryStreak(window: seq<bool>) returns (dryStreak: int)
    ensures dryStreak == TrailingRun(window)
    ensures 0 <= dryStreak <= |window|
    ensures forall k :: |window| - dryStreak <= k < |window| ==> window[k]
    ensures dryStreak < |window| ==> !window[|window| - 1 - dryStreak]
  {
    dryStreak := 0;
    for i := 0 to |window|
      invariant dryStreak == TrailingRun(window[..i])
    {
      assert window[..i + 1] == window[..i] + [window[i]];
      TrailingRunSnoc(window[..i], window[i]);
      if window[i] {
        dryStreak := dryStreak + 1;
      } else {
        dryStreak := 0;
      }
    }
    assert window[..|window|] == window;
    TrailingRunIsMaximalSuffix(window);
  }

  /** check_drought: filters and sorts the farmer's rows, checks the latest
      moisture, then counts the dry streak over the tail of the `is_dry` column. */
  method CheckDrought(df: seq<Observation>, farmerId: string, rainThreshold: real,
                      moistureThreshold: real, consecutiveDays: int := 5)
    returns (v: Verdict)
    ensures v == Classify(df, farmerId, rainThreshold, moistureThreshold, consecutiveDays)
  {
    var rows := History(df, farmerId);
    if rows == [] {
      return NoData;
    }
    var latestMoisture := rows[|rows| - 1].soilMoisture;
    if latestMoisture < moistureThreshold {
      return MoistureBreach(latestMoisture, moistureThreshold);
    }
    ClassifyWhenMoistureFine(df, farmerId, rainThreshold, moistureThreshold, consecutiveDays);
    var isDry := DryFlags(rows, rainThreshold);
    var window := Tail(isDry, consecutiveDays);
    var dryStreak := ScanDryStreak(window);
    WindowStreakMatchesDryWindow(rows, rainThreshold, consecutiveDays);
    if dryStreak >= consecutiveDays {
      return DryStreak(rainThreshold, consecutiveDays);
    }
    return Normal;
  }

  /** "No data" is returned exactly when no observation belongs to the farmer. */
  lemma NoDataIffNoRows(df: seq<Observation>, farmerId: string, rainThreshold: real,
                        moistureThreshold: real, consecutiveDays: int)
    ensures Classify(df, farmerId, rainThreshold, moistureThreshold, consecutiveDays) == NoData
        <==> forall o :: o in df ==> o.farmerId != farmerId
  {
    FarmerRowsEmpty(df, farmerId);
  }

  /** A latest reading below the critical moisture is a drought, whatever the
      rainfall, and is reported as a moisture breach, never as a dry streak. */
  lemma MoistureBreachComesFirst(df: seq<Observation>, farmerId: string, rainThreshold: real,
                                 moistureThreshold: real, consecutiveDays: int)
    requires var h := History(df, farmerId); h != [] && h[|h| - 1].soilMoisture < moistureThreshold
    ensures var v := Classify(df, farmerId, rainThreshold, moistureThreshold, consecutiveDays);
      v.IsDrought() && v == MoistureBreach(History(df, farmerId)[|History(df, farmerId)| - 1].soilMoisture, moistureThreshold)
  {
  }

  /** With moisture fine and a window of at least one day, the verdict is a
      drought exactly when the last `consecutiveDays` rows exist and are all dry. */
  lemma DryStreakIffWindowDry(df: seq<Observation>, farmerId: string, rainThreshold: real,
                              moistureThreshold: real, consecutiveDays: int)
    requires consecutiveDays >= 1
    requires var h := History(df, farmerId); h != [] && h[|h| - 1].soilMoisture >= moistureThreshold
    ensures var h := History(df, farmerId);
      var v := Classify(df, farmerId, rainThreshold, moistureThreshold, consecutiveDays);
      (v.IsDrought() <==>
        (consecutiveDays <= |h| &&
         forall k :: |h| - consecutiveDays <= k < |h| ==> h[k].rainfall < rainThreshold)) &&
      (v.IsDrought() ==> v == DryStreak(rainThreshold, consecutiveDays)) &&
      (!v.IsDrought() ==> v == Normal)
  {
  }

  /** One wet day among the last `consecutiveDays` rows gives "Normal
      conditions", whatever the rows before it were. */
  lemma WetDayInWindowIsNormal(df: seq<Observation>, farmerId: string, rainThreshold: real,
                               moistureThreshold: real, consecutiveDays: int, k: int)
    requires var h := History(df, farmerId); h != [] && h[|h| - 1].soilMoisture >= moistureThreshold
    requires var h := History(df, farmerId);
      |h| - consecutiveDays <= k < |h| && 0 <= k && h[k].rainfall >= rainThreshold
    ensures Classify(df, farmerId, rainThreshold, moistureThreshold, consecutiveDays) == Normal
  {
  }

  /** Fewer rows than `consecutiveDays` (and moisture fine) is always normal. */
  lemma ShortHistoryIsNormal(df: seq<Observation>, farmerId: string, rainThreshold: real,
                             moistureThreshold: real, consecutiveDays: int)
    requires var h := History(df, farmerId); h != [] && h[|h| - 1].soilMoisture >= moistureThreshold
    requires |FarmerRows(df, farmerId)| < consecutiveDays
    ensures Classify(df, farmerId, rainThreshold, moistureThreshold, consecutiveDays) == Normal
  {
  }

  /** A window of zero or fewer days is always a drought once the farmer has
      rows: the streak, never negative, always reaches it. */
  lemma NonPositiveWindowIsDrought(df: seq<Observation>, farmerId: string, rainThreshold: real,
                                   moistureThreshold: real, consecutiveDays: int)
    requires consecutiveDays <= 0
    requires exists o :: o in df && o.farmerId == farmerId
    ensures Classify(df, farmerId, rainThreshold, moistureThreshold, consecutiveDays).IsDrought()
  {
    FarmerRowsEmpty(df, farmerId);
  }

  /** Observations of other farmers, wherever they stand, do not change the verdict. */
  lemma OtherFarmersIrrelevant(a: seq<Observation>, o: Observation, b: seq<Observation>,
                               farmerId: string, rainThreshold: real,
                               moistureThreshold: real, consecutiveDays: int)
    requires o.farmerId != farmerId
    ensures Classify(a + [o] + b, farmerId, rainThreshold, moistureThreshold, consecutiveDays)
         == Classify(a + b, farmerId, rainThreshold, moistureThreshold, consecutiveDays)
  {
    assert FarmerRows([o], farmerId) == [] by {
      assert [o][1..] == [];
    }
    FarmerRowsAppend(a, [o], farmerId);
    assert FarmerRows(a + [o], farmerId) == FarmerRows(a, farmerId);
    FarmerRowsAppend(a + [o], b, farmerId);
    FarmerRowsAppend(a, b, farmerId);
    assert FarmerRows(a + [o] + b, farmerId) == FarmerRows(a + b, farmerId);
  }
}
