/** The cleaned weather table: one record per row, with the four columns the
    script keeps (main.py line 32). A missing reading (NaN) is `None`. */
module Records {
  import opened Wrappers
  import opened Dates

  datatype Record = Record(date: Date, temp: Option<real>, rainfall: Option<real>, humidity: Option<real>)

  function Temps(rows: seq<Record>): (col: seq<Option<real>>)
    ensures |col| == |rows| && forall i :: 0 <= i < |rows| ==> col[i] == rows[i].temp
  {
    seq(|rows|, i requires 0 <= i < |rows| => rows[i].temp)
  }

  function Rainfalls(rows: seq<Record>): (col: seq<Option<real>>)
    ensures |col| == |rows| && forall i :: 0 <= i < |rows| ==> col[i] == rows[i].rainfall
  {
    seq(|rows|, i requires 0 <= i < |rows| => rows[i].rainfall)
  }

  function Humidities(rows: seq<Record>): (col: seq<Option<real>>)
    ensures |col| == |rows| && forall i :: 0 <= i < |rows| ==> col[i] == rows[i].humidity
  {
    seq(|rows|, i requires 0 <= i < |rows| => rows[i].humidity)
  }

  /** No reading of any row is missing. */
  predicate Complete(rows: seq<Record>) {
    forall i :: 0 <= i < |rows| ==>
      rows[i].temp.Some? && rows[i].rainfall.Some? && rows[i].humidity.Some?
  }
}
