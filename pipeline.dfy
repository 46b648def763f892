/** The script as one batch run (main.py lines 8-148): each stage rebinds
    the working table `df`, in the script's order. Console output, charts and
    file writing are not part of this model. */
module Pipeline {
  import opened Wrappers
  import opened Records
  import opened Stats
  import opened Loading
  import opened Cleaning
  import opened Grouping
  import opened Seasons

  /** The scalar statistics of lines 45-48 and 71 (standard deviations are
      not modelled). NumPy does not skip NaN, so a statistic is `None` as
      soon as one value of its column is missing. */
  datatype Overview = Overview(tempMean: Option<real>, tempMin: Option<real>, tempMax: Option<real>,
                               rainMean: Option<real>)

  datatype RunError = LoadFailed(error: LoadError) | EmptyTable

  /** NumPy's mean, min and max of a column: defined when no value is missing. */
  function NumpyMean(col: seq<Option<real>>): (m: Option<real>)
    requires col != []
    ensures m.Some? <==> |Present(col)| == |col|
    ensures m.Some? ==> m == Mean(col)
  {
    if |Present(col)| == |col| then Mean(col) else None
  }

  function NumpyMin(col: seq<Option<real>>): (m: Option<real>)
    requires col != []
    ensures m.Some? <==> |Present(col)| == |col|
    ensures m.Some? ==> m == Min(col)
  {
    if |Present(col)| == |col| then Min(col) else None
  }

  function NumpyMax(col: seq<Option<real>>): (m: Option<real>)
    requires col != []
    ensures m.Some? <==> |Present(col)| == |col|
    ensures m.Some? ==> m == Max(col)
  {
    if |Present(col)| == |col| then Max(col) else None
  }

  /** Lines 45-48 and 71 on a non-empty table. `np.min` of an empty array
      raises, so an empty table is an error. The temp mean lies between the
      temp minimum and maximum. */
  function Describe(rows: seq<Record>): (r: Result<Overview, RunError>)
    ensures r.Err? <==> rows == []
    ensures r.Ok? ==> r.value == Overview(NumpyMean(Temps(rows)), NumpyMin(Temps(rows)),
                                          NumpyMax(Temps(rows)), NumpyMean(Rainfalls(rows)))
    ensures r.Ok? ==> r.value.tempMean.Some? <==> Missing(Temps(rows)) == 0
    ensures r.Ok? ==> r.value.rainMean.Some? <==> Missing(Rainfalls(rows)) == 0
  {
    if rows == [] then Err(EmptyTable)
    else
      var temps := Temps(rows);
      Ok(Overview(NumpyMean(temps), NumpyMin(temps), NumpyMax(temps), NumpyMean(Rainfalls(rows))))
  }

  /** On a table without missing temperatures, the overview's temp mean lies
      between its minimum and maximum. */
  lemma DescribeOrdered(rows: seq<Record>)
    requires rows != [] && Missing(Temps(rows)) == 0
    ensures Describe(rows).Ok?
    ensures var o := Describe(rows).value;
      o.tempMean.Some? && o.tempMin.Some? && o.tempMax.Some? &&
      o.tempMin.value <= o.tempMean.value <= o.tempMax.value
  {
    MeanBetweenMinAndMax(Temps(rows));
  }

  /** After imputation the overview is defined whenever some temperature was
      read, and the rain mean is the rain total spread over all days. */
  lemma DescribeAfterImpute(rows: seq<Record>)
    requires rows != [] && Present(Temps(rows)) != []
    ensures var o := Describe(Impute(rows));
      o.Ok? && o.value.tempMean.Some? && o.value.tempMin.Some? && o.value.tempMax.Some? &&
      o.value.rainMean == Some(Total(Rainfalls(rows)) / |rows| as real)
  {
    var r := Impute(rows);
    forall i | 0 <= i < |rows| ensures r[i].temp.Some? && r[i].rainfall.Some? {
      ImputeCellwise(rows, i);
    }
    NoneMissing(Temps(r));
    NoneMissing(Rainfalls(r));
    ImputeRainfallTotal(rows);
  }

  /** A column whose every entry is present has nothing missing. */
  lemma {:induction false} NoneMissing(col: seq<Option<real>>)
    requires forall i :: 0 <= i < |col| ==> col[i].Some?
    ensures Missing(col) == 0
  {
    if col != [] {
      NoneMissing(col[1..]);
    }
  }

  /** Everything the run computes. */
  datatype Outputs = Outputs(
    cleaned: seq<Record>,
    overview: Overview,
    monthly: map<(int, int), Summary>,
    yearly: map<int, Summary>,
    monthlyRain: map<(int, int), real>,
    byMonth: map<int, Summary>,
    bySeason: map<string, Summary>,
    exported: seq<Record>)

  /** Lines 36-148 on the loaded table: impute, sort, describe, summarise
      and export. An empty table stops at `np.min`; otherwise the cleaned
      table is the loaded rows imputed and then sorted by date, every summary
      is computed from that table, and the exported table is that table
      again. */
  method Analyse(loaded: seq<Record>) returns (out: Result<Outputs, RunError>)
    ensures out.Err? <==> loaded == []
    ensures out.Err? ==> out.error == EmptyTable
    ensures out.Ok? ==>
      && out.value.cleaned == SortByDate(Impute(loaded))
      && |out.value.cleaned| == |loaded|
      && Describe(out.value.cleaned) == Ok(out.value.overview)
      && out.value.monthly == Monthly(out.value.cleaned)
      && out.value.yearly == Yearly(out.value.cleaned)
      && out.value.monthlyRain == MonthlyRain(out.value.cleaned)
      && out.value.byMonth == ByMonth(AddKeys(out.value.cleaned))
      && out.value.bySeason == BySeason(AddKeys(out.value.cleaned))
      && out.value.bySeason.Keys <= Labels
      && out.value.exported == out.value.cleaned
  {
    var df := loaded;
    // lines 36-38
    df := Impute(df);
    // lines 41-42
    df := SortByDate(df);
    // lines 45-49, 71-72
    var overview := Describe(df);
    if overview.Err? {
      return Err(EmptyTable);
    }
    // lines 54-67, 85
    var monthly := Monthly(df);
    var yearly := Yearly(df);
    var monthlyRain := MonthlyRain(df);
    // lines 117-143
    var keyed := AddKeys(df);
    var byMonth := ByMonth(keyed);
    var bySeason := BySeason(keyed);
    // line 148
    var exported := DropKeys(keyed);
    ExportDropsOnlyKeys(df);
    out := Ok(Outputs(df, overview.value, monthly, yearly, monthlyRain, byMonth, bySeason, exported));
  }

  /** The whole run: load (lines 8-33), then analyse. A load failure stops
      the run with that error; a non-empty load always produces outputs. */
  method Run(raw: Frame) returns (out: Result<Outputs, RunError>)
    requires Rectangular(raw)
    ensures LoadTable(raw).Err? ==> out == Err(LoadFailed(LoadTable(raw).error))
    ensures LoadTable(raw).Ok? && LoadTable(raw).value == [] ==> out == Err(EmptyTable)
    ensures LoadTable(raw).Ok? && LoadTable(raw).value != [] ==> out.Ok?
    ensures out.Ok? ==>
      && LoadTable(raw).Ok?
      && out.value.cleaned == SortByDate(Impute(LoadTable(raw).value))
      && |out.value.cleaned| == |raw.rows| > 0
      && Describe(out.value.cleaned) == Ok(out.value.overview)
      && out.value.monthly == Monthly(out.value.cleaned)
      && out.value.yearly == Yearly(out.value.cleaned)
      && out.value.monthlyRain == MonthlyRain(out.value.cleaned)
      && out.value.byMonth == ByMonth(AddKeys(out.value.cleaned))
      && out.value.bySeason == BySeason(AddKeys(out.value.cleaned))
      && out.value.bySeason.Keys <= Labels
      && out.value.exported == out.value.cleaned
  {
    var loaded := LoadTable(raw);
    if loaded.Err? {
      return Err(LoadFailed(loaded.error));
    }
    out := Analyse(loaded.value);
  }
}
