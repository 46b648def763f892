/** Grouping and aggregation (main.py lines 54-67, 85, 117-148): rows are
    partitioned by a key, and each bucket is reduced to a summary. pandas'
    `resample("M")` and `resample("Y")` are modelled as grouping by
    (year, month) and by year. */
module Grouping {
  import opened Wrappers
  import opened Dates
  import opened Records
  import opened Stats
  import opened Seasons

  // ---- the derived key columns (lines 117, 137, 148) ----

  /** A row of the table once `month` and `season` are added. */
  datatype KeyedRecord = KeyedRecord(rec: Record, month: int, season: string)

  /** `df["month"] = df.index.month` then `df["season"] = df["month"].apply(get_season)`. */
  function AddKeys(rows: seq<Record>): (r: seq<KeyedRecord>)
    ensures |r| == |rows|
    ensures forall i :: 0 <= i < |rows| ==>
      r[i].rec == rows[i] && r[i].month == rows[i].date.month && r[i].season == GetSeason(r[i].month)
  {
    seq(|rows|, i requires 0 <= i < |rows| =>
      KeyedRecord(rows[i], rows[i].date.month, GetSeason(rows[i].date.month)))
  }

  /** `df.drop(columns=["month", "season"])` before export. */
  function DropKeys(keyed: seq<KeyedRecord>): (r: seq<Record>)
    ensures |r| == |keyed|
    ensures forall i :: 0 <= i < |keyed| ==> r[i] == keyed[i].rec
  {
    seq(|keyed|, i requires 0 <= i < |keyed| => keyed[i].rec)
  }

  /** The exported table is the cleaned table: adding the key columns and
      dropping them again gives back the same rows in the same order. */
  lemma ExportDropsOnlyKeys(rows: seq<Record>)
    ensures DropKeys(AddKeys(rows)) == rows
  {
    var r := DropKeys(AddKeys(rows));
    assert forall i :: 0 <= i < |rows| ==> r[i] == AddKeys(rows)[i].rec;
  }

  function RecOf(kr: KeyedRecord): Record { kr.rec }
  function MonthColumn(kr: KeyedRecord): int { kr.month }
  function SeasonColumn(kr: KeyedRecord): string { kr.season }
  function Itself(r: Record): Record { r }
  function YearMonthOf(r: Record): (int, int) { (r.date.year, r.date.month) }
  function YearOf(r: Record): int { r.date.year }

  // ---- per-bucket summary ----

  /** The aggregate row of one bucket: temp mean, max and min, rainfall sum
      and humidity mean, each over the present values of the bucket. */
  datatype Summary = Summary(tempMean: Option<real>, tempMax: Option<real>, tempMin: Option<real>,
                             rainfall: real, humidityMean: Option<real>)

  /** `agg({"temp": ["mean", "max", "min"], "rainfall": "sum", "humidity": "mean"})`
      on one bucket. The three temp statistics are present together, and
      then the mean lies between the minimum and the maximum. */
  function Summarize(bucket: seq<Record>): (s: Summary)
    ensures s.tempMean.Some? <==> Present(Temps(bucket)) != []
    ensures s.tempMax.Some? == s.tempMean.Some? && s.tempMin.Some? == s.tempMean.Some?
    ensures s.tempMean.Some? ==> s.tempMin.value <= s.tempMean.value <= s.tempMax.value
    ensures s.humidityMean.Some? <==> Present(Humidities(bucket)) != []
    ensures s.rainfall == Total(Rainfalls(bucket))
    ensures s.tempMean == Mean(Temps(bucket)) && s.tempMax == Max(Temps(bucket))
      && s.tempMin == Min(Temps(bucket)) && s.humidityMean == Mean(Humidities(bucket))
  {
    var temps := Temps(bucket);
    TempStatisticsOrdered(temps);
    Summary(Mean(temps), Max(temps), Min(temps), Total(Rainfalls(bucket)), Mean(Humidities(bucket)))
  }

  lemma TempStatisticsOrdered(temps: seq<Option<real>>)
    ensures Present(temps) != [] ==> Min(temps).value <= Mean(temps).value <= Max(temps).value
  {
    if Present(temps) != [] {
      MeanBetweenMinAndMax(temps);
    }
  }

  // ---- buckets ----

  /** The rows whose key is `k`, in table order. */
  function Filter<T, K(==)>(s: seq<T>, key: T -> K, k: K): (b: seq<T>)
    ensures |b| <= |s|
  {
    if s == [] then [] else (if key(s[0]) == k then [s[0]] else []) + Filter(s[1..], key, k)
  }

  /** A row is in the bucket of `k` exactly when it is a row of the table
      whose key is `k`: every row is in the bucket of its own key and in no
      other. */
  lemma {:induction false} FilterMembers<T, K>(s: seq<T>, key: T -> K, k: K)
    ensures forall x :: x in Filter(s, key, k) <==> x in s && key(x) == k
  {
    if s != [] {
      FilterMembers(s[1..], key, k);
      assert s == [s[0]] + s[1..];
    }
  }

  /** The keys that occur in the table. */
  function KeySet<T, K>(s: seq<T>, key: T -> K): (ks: set<K>)
    ensures forall i :: 0 <= i < |s| ==> key(s[i]) in ks
  {
    set i | 0 <= i < |s| :: key(s[i])
  }

  function RecordsOf<T>(s: seq<T>, rec: T -> Record): (r: seq<Record>)
    ensures |r| == |s|
  {
    seq(|s|, i requires 0 <= i < |s| => rec(s[i]))
  }

  /** `groupby(key).agg(...)`: one summary per key that occurs, computed from
      the rows with that key. */
  function GroupBy<T, K(==)>(s: seq<T>, key: T -> K, rec: T -> Record): (g: map<K, Summary>)
    ensures g.Keys == KeySet(s, key)
    ensures forall k :: k in g ==> g[k] == Summarize(RecordsOf(Filter(s, key, k), rec))
    ensures forall k :: k in g && g[k].tempMean.Some? ==>
      g[k].tempMin.Some? && g[k].tempMax.Some? && g[k].tempMin.value <= g[k].tempMean.value <= g[k].tempMax.value
  {
    map k | k in KeySet(s, key) :: Summarize(RecordsOf(Filter(s, key, k), rec))
  }

  /** Every bucket of a grouping is non-empty: buckets exist only for keys
      that occur. */
  lemma BucketsNonEmpty<T, K>(s: seq<T>, key: T -> K, k: K)
    requires k in KeySet(s, key)
    ensures Filter(s, key, k) != []
  {
    var x :| x in s && key(x) == k;
    FilterMembers(s, key, k);
    assert x in Filter(s, key, k);
  }

  // ---- sum of the parts ----

  ghost predicate Distinct<K>(ks: seq<K>) {
    forall i, j :: 0 <= i < j < |ks| ==> ks[i] != ks[j]
  }

  function SumBy<T>(s: seq<T>, w: T -> real): real {
    if s == [] then 0.0 else w(s[0]) + SumBy(s[1..], w)
  }

  /** The weights of the buckets `ks`, added up. */
  function BucketSums<T, K(==)>(s: seq<T>, key: T -> K, ks: seq<K>, w: T -> real): real {
    if ks == [] then 0.0 else SumBy(Filter(s, key, ks[0]), w) + BucketSums(s, key, ks[1..], w)
  }

  /** The multiset union of the buckets `ks`. */
  function BucketUnion<T, K(==)>(s: seq<T>, key: T -> K, ks: seq<K>): multiset<T> {
    if ks == [] then multiset{} else multiset(Filter(s, key, ks[0])) + BucketUnion(s, key, ks[1..])
  }

  lemma {:induction false} BucketSumsCons<T, K>(x: T, s: seq<T>, key: T -> K, ks: seq<K>, w: T -> real)
    requires Distinct(ks)
    ensures BucketSums([x] + s, key, ks, w) == (if key(x) in ks then w(x) else 0.0) + BucketSums(s, key, ks, w)
  {
    if ks != [] {
      assert ([x] + s)[1..] == s;
      BucketSumsCons(x, s, key, ks[1..], w);
      var b := Filter(s, key, ks[0]);
      if key(x) == ks[0] {
        assert key(x) !in ks[1..];
        assert Filter([x] + s, key, ks[0]) == [x] + b;
        assert ([x] + b)[1..] == b;
      } else {
        assert Filter([x] + s, key, ks[0]) == b;
      }
    }
  }

  lemma {:induction false} BucketUnionCons<T, K>(x: T, s: seq<T>, key: T -> K, ks: seq<K>)
    requires Distinct(ks)
    ensures BucketUnion([x] + s, key, ks) == (if key(x) in ks then multiset{x} else multiset{}) + BucketUnion(s, key, ks)
  {
    if ks != [] {
      assert ([x] + s)[1..] == s;
      BucketUnionCons(x, s, key, ks[1..]);
      if key(x) == ks[0] {
        assert key(x) !in ks[1..];
        assert Filter([x] + s, key, ks[0]) == [x] + Filter(s, key, ks[0]);
      } else {
        assert Filter([x] + s, key, ks[0]) == Filter(s, key, ks[0]);
      }
    }
  }

  /** Sum of the parts: when `ks` lists every key of the table once, the
      bucket weights add up to the weight of the whole table. */
  lemma {:induction false} PartitionSum<T, K>(s: seq<T>, key: T -> K, ks: seq<K>, w: T -> real)
    requires Distinct(ks)
    requires forall i :: 0 <= i < |s| ==> key(s[i]) in ks
    ensures BucketSums(s, key, ks, w) == SumBy(s, w)
  {
    if s == [] {
      EmptyBuckets(key, ks, w);
    } else {
      assert s == [s[0]] + s[1..];
      PartitionSum(s[1..], key, ks, w);
      BucketSumsCons(s[0], s[1..], key, ks, w);
    }
  }

  lemma {:induction false} EmptyBuckets<T, K>(key: T -> K, ks: seq<K>, w: T -> real)
    ensures BucketSums([], key, ks, w) == 0.0
    ensures BucketUnion([], key, ks) == multiset{}
  {
    if ks != [] {
      EmptyBuckets(key, ks[1..], w);
    }
  }

  /** Partition: when `ks` lists every key of the table once, the buckets
      together hold every row exactly as often as the table does. */
  lemma {:induction false} PartitionRows<T, K>(s: seq<T>, key: T -> K, ks: seq<K>)
    requires Distinct(ks)
    requires forall i :: 0 <= i < |s| ==> key(s[i]) in ks
    ensures BucketUnion(s, key, ks) == multiset(s)
  {
    if s == [] {
      EmptyBuckets(key, ks, (x: T) => 0.0);
    } else {
      assert s == [s[0]] + s[1..];
      PartitionRows(s[1..], key, ks);
      BucketUnionCons(s[0], s[1..], key, ks);
    }
  }

  /** The bucket sizes of the keys `ks`, added up. */
  function BucketCounts<T, K(==)>(s: seq<T>, key: T -> K, ks: seq<K>): int {
    if ks == [] then 0 else |Filter(s, key, ks[0])| + BucketCounts(s, key, ks[1..])
  }

  /** Every row is counted in exactly one bucket: over a duplicate-free
      listing of the keys, the bucket sizes add up to the row count. */
  lemma BucketCountsAddUp<T, K>(s: seq<T>, key: T -> K, ks: seq<K>)
    requires Distinct(ks)
    requires forall i :: 0 <= i < |s| ==> key(s[i]) in ks
    ensures BucketCounts(s, key, ks) == |s|
  {
    PartitionRows(s, key, ks);
    UnionSize(s, key, ks);
  }

  lemma {:induction false} UnionSize<T, K>(s: seq<T>, key: T -> K, ks: seq<K>)
    ensures |BucketUnion(s, key, ks)| == BucketCounts(s, key, ks)
  {
    if ks != [] {
      UnionSize(s, key, ks[1..]);
    }
  }

  // ---- the laws on a grouping ----

  /** The rainfall sums of the groups `ks`, added up. */
  function GroupRainfall<K>(g: map<K, Summary>, ks: seq<K>): real
    requires forall k :: k in ks ==> k in g
  {
    if ks == [] then 0.0 else g[ks[0]].rainfall + GroupRainfall(g, ks[1..])
  }

  function RainWeight<T>(rec: T -> Record): T -> real {
    (t: T) => rec(t).rainfall.GetOr(0.0)
  }

  lemma {:induction false} TotalRainfallIsSumBy<T>(s: seq<T>, rec: T -> Record)
    ensures Total(Rainfalls(RecordsOf(s, rec))) == SumBy(s, RainWeight(rec))
  {
    var col := Rainfalls(RecordsOf(s, rec));
    if s != [] {
      TotalRainfallIsSumBy(s[1..], rec);
      assert col[1..] == Rainfalls(RecordsOf(s[1..], rec));
      assert col == [col[0]] + col[1..];
      if col[0].Some? {
        assert Present(col) == [col[0].value] + Present(col[1..]);
        SumCons(col[0].value, Present(col[1..]));
      } else {
        assert Present(col) == Present(col[1..]);
      }
    }
  }

  lemma {:induction false} GroupRainfallIsBucketSums<T, K>(s: seq<T>, key: T -> K, rec: T -> Record, ks: seq<K>)
    requires forall k :: k in ks ==> k in KeySet(s, key)
    ensures GroupRainfall(GroupBy(s, key, rec), ks) == BucketSums(s, key, ks, RainWeight(rec))
  {
    if ks != [] {
      GroupRainfallIsBucketSums(s, key, rec, ks[1..]);
      TotalRainfallIsSumBy(Filter(s, key, ks[0]), rec);
    }
  }

  /** Sum of the parts for a grouping: over any duplicate-free listing of
      its keys, the groups' rainfall sums add up to the table's rainfall
      sum. */
  lemma GroupRainfallAddsUp<T, K>(s: seq<T>, key: T -> K, rec: T -> Record, ks: seq<K>)
    requires Distinct(ks)
    requires forall k :: k in ks ==> k in KeySet(s, key)
    requires forall i :: 0 <= i < |s| ==> key(s[i]) in ks
    ensures GroupRainfall(GroupBy(s, key, rec), ks) == Total(Rainfalls(RecordsOf(s, rec)))
  {
    GroupRainfallIsBucketSums(s, key, rec, ks);
    PartitionSum(s, key, ks, RainWeight(rec));
    TotalRainfallIsSumBy(s, rec);
  }

  // ---- the groupings of the script ----

  lemma NoRecordChange(rows: seq<Record>)
    ensures RecordsOf(rows, Itself) == rows
  {
    var r := RecordsOf(rows, Itself);
    assert forall i :: 0 <= i < |rows| ==> r[i] == Itself(rows[i]);
  }

  /** Line 119: statistics by calendar month, across years. */
  function ByMonth(keyed: seq<KeyedRecord>): (g: map<int, Summary>)
    ensures g.Keys == KeySet(keyed, MonthColumn)
  {
    GroupBy(keyed, MonthColumn, RecOf)
  }

  /** Line 139: statistics by season. Only the four labels can be keys. */
  function BySeason(keyed: seq<KeyedRecord>): (g: map<string, Summary>)
    requires forall i :: 0 <= i < |keyed| ==> keyed[i].season in Labels
    ensures g.Keys <= Labels
  {
    GroupBy(keyed, SeasonColumn, RecOf)
  }

  /** Seasons are unions of months: every row of the bucket of calendar
      month `m` is in the bucket of season `GetSeason(m)`. */
  lemma MonthBucketInSeasonBucket(rows: seq<Record>, m: int)
    ensures forall kr :: kr in Filter(AddKeys(rows), MonthColumn, m) ==>
      kr in Filter(AddKeys(rows), SeasonColumn, GetSeason(m))
  {
    var keyed := AddKeys(rows);
    FilterMembers(keyed, MonthColumn, m);
    FilterMembers(keyed, SeasonColumn, GetSeason(m));
    forall kr | kr in keyed ensures kr.season == GetSeason(kr.month) {
      var i :| 0 <= i < |keyed| && keyed[i] == kr;
    }
  }

  /** Line 54: `resample("M")`, as a grouping by (year, month). */
  function Monthly(rows: seq<Record>): (g: map<(int, int), Summary>)
    ensures g.Keys == KeySet(rows, YearMonthOf)
  {
    GroupBy(rows, YearMonthOf, Itself)
  }

  /** Line 63: `resample("Y")`, as a grouping by year. */
  function Yearly(rows: seq<Record>): (g: map<int, Summary>)
    ensures g.Keys == KeySet(rows, YearOf)
  {
    GroupBy(rows, YearOf, Itself)
  }

  /** Line 85: the monthly rainfall totals charted. */
  function MonthlyRain(rows: seq<Record>): (m: map<(int, int), real>)
    ensures m.Keys == KeySet(rows, YearMonthOf)
    ensures forall k :: k in m ==> m[k] == Total(Rainfalls(Filter(rows, YearMonthOf, k)))
  {
    var g := Monthly(rows);
    forall k | k in g ensures RecordsOf(Filter(rows, YearMonthOf, k), Itself) == Filter(rows, YearMonthOf, k) {
      NoRecordChange(Filter(rows, YearMonthOf, k));
    }
    map k | k in g :: g[k].rainfall
  }
}
