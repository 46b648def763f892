/** Imputation and ordering (main.py lines 36-42). */
module Cleaning {
  import opened Wrappers
  import opened Dates
  import opened Records
  import opened Stats
  import Sorting

  /** `Series.fillna(v)`: every missing cell takes `v`. When `v` is itself NaN
      (`None`) nothing changes. */
  function FillMissing(col: seq<Option<real>>, v: Option<real>): (r: seq<Option<real>>)
    ensures |r| == |col|
    ensures forall i :: 0 <= i < |col| ==> r[i] == (if col[i].Some? then col[i] else v)
  {
    seq(|col|, i requires 0 <= i < |col| => if col[i].Some? then col[i] else v)
  }

  /** Lines 36-38. The temp mean and the humidity median are taken once, from
      the columns as loaded; missing rainfall becomes 0. */
  function Impute(rows: seq<Record>): (r: seq<Record>)
    ensures |r| == |rows|
    ensures Temps(r) == FillMissing(Temps(rows), Mean(Temps(rows)))
    ensures Humidities(r) == FillMissing(Humidities(rows), Median(Humidities(rows)))
    ensures Rainfalls(r) == FillMissing(Rainfalls(rows), Some(0.0))
    ensures forall i :: 0 <= i < |rows| ==> r[i].date == rows[i].date
  {
    var temp := Mean(Temps(rows));
    var humidity := Median(Humidities(rows));
    seq(|rows|, i requires 0 <= i < |rows| =>
      Record(rows[i].date,
             if rows[i].temp.Some? then rows[i].temp else temp,
             if rows[i].rainfall.Some? then rows[i].rainfall else Some(0.0),
             if rows[i].humidity.Some? then rows[i].humidity else humidity))
  }

  /** Present readings are kept; each missing temp becomes the mean of the
      temps present before filling, each missing humidity their median, and
      each missing rainfall exactly 0. */
  lemma ImputeCellwise(rows: seq<Record>, i: int)
    requires 0 <= i < |rows|
    ensures rows[i].temp.Some? ==> Impute(rows)[i].temp == rows[i].temp
    ensures rows[i].humidity.Some? ==> Impute(rows)[i].humidity == rows[i].humidity
    ensures rows[i].rainfall.Some? ==> Impute(rows)[i].rainfall == rows[i].rainfall
    ensures rows[i].temp.None? ==> Impute(rows)[i].temp == Mean(Temps(rows))
    ensures rows[i].humidity.None? ==> Impute(rows)[i].humidity == Median(Humidities(rows))
    ensures rows[i].rainfall.None? ==> Impute(rows)[i].rainfall == Some(0.0)
  {
    var r := Impute(rows);
    assert Temps(r)[i] == r[i].temp && Humidities(r)[i] == r[i].humidity && Rainfalls(r)[i] == r[i].rainfall;
  }

  /** No reading is left missing exactly when the table is empty or both the
      temp and the humidity column had a present value: pandas' mean and
      median of an all-missing column are NaN, and filling with NaN leaves
      the column missing. Rainfall is always completed. */
  lemma ImputeCompleteIff(rows: seq<Record>)
    ensures Complete(Impute(rows)) <==>
      rows == [] || (Present(Temps(rows)) != [] && Present(Humidities(rows)) != [])
  {
    var r := Impute(rows);
    if rows != [] && Present(Temps(rows)) == [] {
      assert Temps(rows)[0] == rows[0].temp;
      assert Temps(r)[0] == r[0].temp;
    } else if rows != [] && Present(Humidities(rows)) == [] {
      assert Humidities(rows)[0] == rows[0].humidity;
      assert Humidities(r)[0] == r[0].humidity;
    } else if rows != [] {
      forall i | 0 <= i < |rows| ensures r[i].temp.Some? && r[i].rainfall.Some? && r[i].humidity.Some? {
        ImputeCellwise(rows, i);
      }
    }
  }

  /** Two days, the second with no temp, rainfall or humidity reading: the
      gaps take the first day's temp and humidity and a rainfall of 0. */
  lemma ImputeTwoDays()
    ensures var rows := [Record(Date(2023, 1, 1), Some(10.0), Some(2.5), Some(50.0)),
                         Record(Date(2023, 1, 2), None, None, None)];
      Impute(rows) == [Record(Date(2023, 1, 1), Some(10.0), Some(2.5), Some(50.0)),
                       Record(Date(2023, 1, 2), Some(10.0), Some(0.0), Some(50.0))]
  {
    var rows := [Record(Date(2023, 1, 1), Some(10.0), Some(2.5), Some(50.0)),
                 Record(Date(2023, 1, 2), None, None, None)];
    assert Temps(rows) == [Some(10.0), None];
    assert Humidities(rows) == [Some(50.0), None];
    SingleValueStatistics(Temps(rows), 10.0);
    SingleValueStatistics(Humidities(rows), 50.0);
  }

  /** Imputing an imputed table changes nothing: a column filled with a
      value is complete, and a column "filled" with NaN is unchanged and still
      has NaN as its statistic. */
  lemma ImputeIdempotent(rows: seq<Record>)
    ensures Impute(Impute(rows)) == Impute(rows)
  {
    var r := Impute(rows);
    var rr := Impute(r);
    FillTwice(Temps(rows), Mean(Temps(rows)));
    FillTwice(Humidities(rows), Median(Humidities(rows)));
    FillTwice(Rainfalls(rows), Some(0.0));
    if Mean(Temps(rows)).None? {
      assert Temps(r) == Temps(rows);
    }
    if Median(Humidities(rows)).None? {
      assert Humidities(r) == Humidities(rows);
    }
    SameColumnsSameRows(rr, r);
  }

  /** Filling a filled column again with any value changes nothing when the
      first fill value was present; filling with NaN is the identity. */
  lemma FillTwice(col: seq<Option<real>>, v: Option<real>)
    ensures v.None? ==> FillMissing(col, v) == col
    ensures v.Some? ==> forall w :: FillMissing(FillMissing(col, v), w) == FillMissing(col, v)
  {
  }

  /** Rows agree when their dates and their three reading columns agree. */
  lemma SameColumnsSameRows(a: seq<Record>, b: seq<Record>)
    requires |a| == |b| && forall i :: 0 <= i < |a| ==> a[i].date == b[i].date
    requires Temps(a) == Temps(b) && Rainfalls(a) == Rainfalls(b) && Humidities(a) == Humidities(b)
    ensures a == b
  {
    forall i | 0 <= i < |a| ensures a[i] == b[i] {
      assert Temps(a)[i] == Temps(b)[i];
      assert Rainfalls(a)[i] == Rainfalls(b)[i];
      assert Humidities(a)[i] == Humidities(b)[i];
    }
  }

  // ---- the filled temp column keeps its mean ----

  /** The number of missing cells of a column. */
  function Missing(col: seq<Option<real>>): (k: nat)
    ensures k + |Present(col)| == |col|
  {
    if col == [] then 0
    else
      assert col == [col[0]] + col[1..];
      (if col[0].None? then 1 else 0) + Missing(col[1..])
  }

  /** `k` copies of `m` added up. */
  function Repeated(k: nat, m: real): real {
    if k == 0 then 0.0 else m + Repeated(k - 1, m)
  }

  lemma {:induction false} RepeatedIsProduct(k: nat, m: real, times: real)
    requires times == k as real
    ensures Repeated(k, m) == times * m
  {
    if k > 0 {
      RepeatedIsProduct(k - 1, m, times - 1.0);
      OneMore(times - 1.0, m);
    }
  }

  lemma OneMore(k: real, m: real)
    ensures (k + 1.0) * m == k * m + m
  {
  }

  /** Filling adds one copy of the fill value per missing cell. */
  lemma {:induction false} PresentAfterFill(col: seq<Option<real>>, m: real)
    ensures |Present(FillMissing(col, Some(m)))| == |col|
    ensures Sum(Present(FillMissing(col, Some(m)))) == Sum(Present(col)) + Repeated(Missing(col), m)
  {
    if col == [] {
      assert FillMissing(col, Some(m)) == [];
    } else {
      var f := FillMissing(col, Some(m));
      var rest := FillMissing(col[1..], Some(m));
      assert rest == f[1..];
      PresentAfterFill(col[1..], m);
      var v := f[0].value;
      assert Present(f) == [v] + Present(rest);
      SumCons(v, Present(rest));
      if col[0].Some? {
        assert Present(col) == [v] + Present(col[1..]);
        SumCons(v, Present(col[1..]));
      } else {
        assert Present(col) == Present(col[1..]);
      }
    }
  }

  lemma FilledMeanArithmetic(total: real, p: real, n: real, d: real, m: real, added: real)
    requires 0.0 < p <= n && d == n - p && m == total / p
    requires added == d * m
    ensures (total + added) / n == m
  {
    assert total == p * m;
    assert total + added == n * m;
  }

  /** Filling the missing temps with the mean of the present ones leaves the
      column mean unchanged: the fill value is taken from the original
      column, and adding copies of a mean does not move it. */
  lemma ImputeKeepsTempMean(rows: seq<Record>)
    requires Present(Temps(rows)) != []
    ensures Mean(Temps(Impute(rows))) == Mean(Temps(rows))
  {
    FillWithMeanKeepsMean(Temps(rows));
  }

  lemma FillWithMeanKeepsMean(col: seq<Option<real>>)
    requires Present(col) != []
    ensures Mean(FillMissing(col, Mean(col))) == Mean(col)
  {
    var xs := Present(col);
    var total, p, n := Sum(xs), |xs| as real, |col| as real;
    var m := total / p;
    var f := Present(FillMissing(col, Some(m)));
    var added := Repeated(Missing(col), m);
    assert Sum(f) == total + added && |f| as real == n by {
      PresentAfterFill(col, m);
    }
    var d := n - p;
    assert added == d * m by {
      RepeatedIsProduct(Missing(col), m, d);
    }
    FilledMeanArithmetic(total, p, n, d, m, added);
  }

  /** After imputation the rainfall total is the total of the rainfall
      present before, and the rainfall mean over all rows is that total
      divided by the row count. */
  lemma ImputeRainfallTotal(rows: seq<Record>)
    ensures Total(Rainfalls(Impute(rows))) == Total(Rainfalls(rows))
    ensures rows != [] ==> Mean(Rainfalls(Impute(rows))) == Some(Total(Rainfalls(rows)) / (|rows| as real))
  {
    ZeroFill(Rainfalls(rows));
  }

  lemma ZeroFill(col: seq<Option<real>>)
    ensures Total(FillMissing(col, Some(0.0))) == Total(col)
    ensures |Present(FillMissing(col, Some(0.0)))| == |col|
  {
    PresentAfterFill(col, 0.0);
    RepeatedIsProduct(Missing(col), 0.0, Missing(col) as real);
  }

  // ---- ordering by date (lines 41-42) ----

  predicate ByDate(a: Record, b: Record) {
    DateLe(a.date, b.date)
  }

  lemma ByDateTotalPreorder()
    ensures Sorting.TotalPreorder(ByDate)
  {
  }

  /** `sort_values("date")`: the rows in non-decreasing date order, a
      permutation of the input. The default sort kind is not stable, so the
      order of rows sharing a date is not promised. */
  function SortByDate(rows: seq<Record>): (r: seq<Record>)
    ensures |r| == |rows| && multiset(r) == multiset(rows)
    ensures forall i, j :: 0 <= i < j < |r| ==> DateLe(r[i].date, r[j].date)
  {
    ByDateTotalPreorder();
    Sorting.SortSorted(rows, ByDate);
    Sorting.SortPermutes(rows, ByDate);
    Sorting.Sort(rows, ByDate)
  }
}
