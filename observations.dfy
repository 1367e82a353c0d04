/** Daily weather and soil observations, and the per-farmer, date-ordered slice
    of them that the drought classifier reads (core/drought_logic.py, line 9). */
module Observations {

  /** One farmer's reading for one day. `date` is a day number: only its order matters. */
  datatype Observation = Observation(
    date: int,
    farmerId: string,
    rainfall: real,
    temperature: real,
    soilMoisture: real)

  /** The rows of `df` that belong to farmer `id`, in their original order
      (the boolean mask `df['Farmer ID'] == farmer_id`). */
  function FarmerRows(df: seq<Observation>, id: string): (r: seq<Observation>)
    ensures |r| <= |df|
  {
    if df == [] then []
    else if df[0].farmerId == id then [df[0]] + FarmerRows(df[1..], id)
    else FarmerRows(df[1..], id)
  }

  /** Each observation of farmer `id` is kept as often as it occurs; no other is kept. */
  lemma {:induction false} FarmerRowsCount(df: seq<Observation>, id: string, o: Observation)
    ensures multiset(FarmerRows(df, id))[o] == if o.farmerId == id then multiset(df)[o] else 0
  {
    if df != [] {
      assert df == [df[0]] + df[1..];
      FarmerRowsCount(df[1..], id, o);
    }
  }

  /** Filtering distributes over concatenation. */
  lemma {:induction false} FarmerRowsAppend(a: seq<Observation>, b: seq<Observation>, id: string)
    ensures FarmerRows(a + b, id) == FarmerRows(a, id) + FarmerRows(b, id)
  {
    if a != [] {
      var ab := a + b;
      assert ab[0] == a[0] && ab[1..] == a[1..] + b;
      FarmerRowsAppend(a[1..], b, id);
      if a[0].farmerId == id {
        calc {
          FarmerRows(ab, id);
          [a[0]] + FarmerRows(a[1..] + b, id);
          [a[0]] + (FarmerRows(a[1..], id) + FarmerRows(b, id));
          ([a[0]] + FarmerRows(a[1..], id)) + FarmerRows(b, id);
        }
      }
    } else {
      assert a + b == b;
    }
  }

  /** A farmer has rows exactly when some observation carries their id. */
  lemma FarmerRowsEmpty(df: seq<Observation>, id: string)
    ensures FarmerRows(df, id) == [] <==> forall o :: o in df ==> o.farmerId != id
  {
    if FarmerRows(df, id) == [] {
      forall o | o in df ensures o.farmerId != id {
        FarmerRowsCount(df, id, o);
        assert multiset(df)[o] > 0;
      }
    } else {
      var o := FarmerRows(df, id)[0];
      FarmerRowsCount(df, id, o);
      assert multiset(FarmerRows(df, id))[o] > 0;
    }
  }

  /** The date of row `i`; the quantifier below triggers on it alone, so that
      sortedness is not instantiated for every row a proof mentions. */
  function DateAt(s: seq<Observation>, i: int): int
    requires 0 <= i < |s|
  {
    s[i].date
  }

  predicate SortedByDate(s: seq<Observation>) {
    forall i, j :: 0 <= i < j < |s| ==> DateAt(s, i) <= DateAt(s, j)
  }

  /** A row no later than every row of a sorted sequence may be put in front of it. */
  lemma SortedCons(x: Observation, r: seq<Observation>)
    requires SortedByDate(r)
    requires forall k :: 0 <= k < |r| ==> x.date <= r[k].date
    ensures SortedByDate([x] + r)
  {
    var xr := [x] + r;
    forall i, j | 0 <= i < j < |xr| ensures DateAt(xr, i) <= DateAt(xr, j) {
      assert xr[j] == r[j - 1];
      if i > 0 {
        assert xr[i] == r[i - 1];
        assert DateAt(r, i - 1) <= DateAt(r, j - 1);
      }
    }
  }

  /** In a sorted sequence the first row is no later than any other. */
  lemma SortedHeadFirst(s: seq<Observation>)
    requires SortedByDate(s) && s != []
    ensures SortedByDate(s[1..])
    ensures forall k :: 0 <= k < |s| ==> s[0].date <= s[k].date
  {
    forall k | 0 <= k < |s| ensures s[0].date <= s[k].date {
      if k > 0 { assert DateAt(s, 0) <= DateAt(s, k); }
    }
    var t := s[1..];
    forall i, j | 0 <= i < j < |t| ensures DateAt(t, i) <= DateAt(t, j) {
      assert DateAt(s, i + 1) <= DateAt(s, j + 1);
    }
  }

  /** Inserts `o` before the first row that is not earlier than it. */
  function InsertByDate(o: Observation, s: seq<Observation>): (r: seq<Observation>)
    requires SortedByDate(s)
    ensures SortedByDate(r)
    ensures |r| == |s| + 1
    ensures forall k :: 0 <= k < |r| ==> r[k] == o || r[k] in s
    ensures multiset(r) == multiset(s) + multiset{o}
  {
    if s == [] then [o]
    else
      SortedHeadFirst(s);
      if o.date <= s[0].date then
        SortedCons(o, s);
        [o] + s
      else
        assert s == [s[0]] + s[1..];
        var rest := InsertByDate(o, s[1..]);
        SortedCons(s[0], rest);
        [s[0]] + rest
  }

  /** `sort_values('Date')`: the rows in ascending date order. */
  function SortByDate(s: seq<Observation>): (r: seq<Observation>)
    ensures SortedByDate(r)
    ensures |r| == |s|
    ensures multiset(r) == multiset(s)
  {
    if s == [] then []
    else
      assert s == [s[0]] + s[1..];
      InsertByDate(s[0], SortByDate(s[1..]))
  }

  /** The farmer's rows, filtered and in date order. */
  function History(df: seq<Observation>, id: string): (r: seq<Observation>)
    ensures SortedByDate(r)
    ensures multiset(r) == multiset(FarmerRows(df, id))
  {
    SortByDate(FarmerRows(df, id))
  }

  /** The last row of a farmer's history is one of their observations, and no
      observation of theirs has a later date ("the latest day's reading"). */
  lemma {:induction false} LatestHasGreatestDate(df: seq<Observation>, id: string)
    requires exists o :: o in df && o.farmerId == id
    ensures var h := History(df, id);
      h != [] && h[|h| - 1] in df && h[|h| - 1].farmerId == id &&
      forall o :: o in df && o.farmerId == id ==> o.date <= h[|h| - 1].date
  {
    var h := History(df, id);
    var w :| w in df && w.farmerId == id;
    FarmerRowsCount(df, id, w);
    assert multiset(h)[w] > 0;
    var last := h[|h| - 1];
    assert multiset(h)[last] > 0;
    FarmerRowsCount(df, id, last);
    forall o | o in df && o.farmerId == id
      ensures o.date <= last.date
    {
      FarmerRowsCount(df, id, o);
      assert multiset(h)[o] > 0;
      var j :| 0 <= j < |h| && h[j] == o;
      assert j == |h| - 1 || DateAt(h, j) <= DateAt(h, |h| - 1);
    }
  }
}
