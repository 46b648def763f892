/** Load and normalize (main.py lines 8-33): drop a stray leading index
    column, rename the source columns, take the parsed dates and project the
    table onto date, temp, rainfall and humidity. Reading the CSV file and
    parsing date strings are not part of this model: a frame arrives with its
    header and its cells already typed. */
module Loading {
  import opened Wrappers
  import opened Dates
  import opened Records

  /** One cell of the loaded table. `Blank` is an empty (NaN) cell. */
  datatype Cell = Blank | Number(x: real) | Day(d: Date) | Text(s: string)

  /** A loaded table: a header and rows of cells. */
  datatype Frame = Frame(columns: seq<string>, rows: seq<seq<Cell>>)

  /** The exceptions the script would raise while loading. */
  datatype LoadError =
    | NoColumns                         // `df.columns[0]` on a table with no column
    | MissingColumn(name: string)       // `df["date"]` when there is no date column
    | UnparsableDate(row: nat)          // `pd.to_datetime` fails on a cell
    | MissingColumns(names: seq<string>) // `df[cols]` when some of cols are absent
    | NotNumeric(name: string, row: nat) // a reading cell that is not a number

  /** Every row has one cell per column. */
  predicate Rectangular(f: Frame) {
    forall i :: 0 <= i < |f.rows| ==> |f.rows[i]| == |f.columns|
  }

  // ---- the stray index column (lines 10-12) ----

  function LowerChar(c: char): char {
    if 'A' <= c <= 'Z' then (c as int - 'A' as int + 'a' as int) as char else c
  }

  /** `str.lower()` on ASCII letters. */
  function Lower(s: string): (r: string)
    ensures |r| == |s| && forall i :: 0 <= i < |s| ==> r[i] == LowerChar(s[i])
  {
    seq(|s|, i requires 0 <= i < |s| => LowerChar(s[i]))
  }

  const Unnamed: string := "unnamed"

  /** `name.lower().startswith("unnamed") or name == ""`: a case-insensitive
      prefix match. A header is a stray index column exactly when it is empty
      or its first seven characters spell "unnamed" with each letter in
      either case. */
  predicate IsIndexColumnName(name: string)
    ensures IsIndexColumnName(name) <==>
      name == ""
      || (|name| >= 7 && forall i :: 0 <= i < 7 ==> name[i] == "unnamed"[i] || name[i] == "UNNAMED"[i])
  {
    if |name| >= |Unnamed| then
      LoweredPrefixIff(name);
      Lower(name)[..|Unnamed|] == Unnamed || name == ""
    else name == ""
  }

  /** Lowering the first seven characters gives "unnamed" exactly when each
      of them is the letter of "unnamed" in lower or upper case. */
  lemma LoweredPrefixIff(name: string)
    requires |name| >= 7
    ensures Lower(name)[..7] == Unnamed <==>
      forall i :: 0 <= i < 7 ==> name[i] == "unnamed"[i] || name[i] == "UNNAMED"[i]
  {
    var p := Lower(name)[..7];
    if p == Unnamed {
      forall i | 0 <= i < 7 ensures name[i] == "unnamed"[i] || name[i] == "UNNAMED"[i] {
        assert p[i] == LowerChar(name[i]);
      }
    }
    if forall i :: 0 <= i < 7 ==> name[i] == "unnamed"[i] || name[i] == "UNNAMED"[i] {
      forall i | 0 <= i < 7 ensures p[i] == Unnamed[i] {
        assert p[i] == LowerChar(name[i]);
      }
    }
  }

  /** Lines 11-12: if the first header names a stray index column, that column
      is removed from the header and from every row; otherwise the frame is
      unchanged. A frame with no column fails at `df.columns[0]`. */
  function DropIndexColumn(f: Frame): (r: Result<Frame, LoadError>)
    requires Rectangular(f)
    ensures r.Err? <==> f.columns == []
    ensures r.Err? ==> r.error == NoColumns
    ensures r.Ok? ==> Rectangular(r.value) && |r.value.rows| == |f.rows|
    ensures r.Ok? && IsIndexColumnName(f.columns[0]) ==>
      && [f.columns[0]] + r.value.columns == f.columns
      && forall i :: 0 <= i < |f.rows| ==> [f.rows[i][0]] + r.value.rows[i] == f.rows[i]
    ensures r.Ok? && !IsIndexColumnName(f.columns[0]) ==> r.value == f
  {
    if f.columns == [] then Err(NoColumns)
    else if IsIndexColumnName(f.columns[0]) then
      Ok(Frame(f.columns[1..], seq(|f.rows|, i requires 0 <= i < |f.rows| => f.rows[i][1..])))
    else Ok(f)
  }

  // ---- renaming (lines 23-26) ----

  function RenameColumn(name: string): string {
    if name == "DATE" then "date" else if name == "precip" then "rainfall" else name
  }

  /** `df.rename(columns={"DATE": "date", "precip": "rainfall"})`: only the
      header changes; a name the mapping does not mention stays as it is. */
  function Rename(f: Frame): (r: Frame)
    ensures r.rows == f.rows && |r.columns| == |f.columns|
    ensures forall i :: 0 <= i < |f.columns| ==>
      (f.columns[i] == "DATE" ==> r.columns[i] == "date")
      && (f.columns[i] == "precip" ==> r.columns[i] == "rainfall")
      && (f.columns[i] != "DATE" && f.columns[i] != "precip" ==> r.columns[i] == f.columns[i])
  {
    Frame(seq(|f.columns|, i requires 0 <= i < |f.columns| => RenameColumn(f.columns[i])), f.rows)
  }

  // ---- projection (lines 29-33) ----

  /** Position of the first column with the given name. */
  function IndexOf(columns: seq<string>, name: string): (k: nat)
    requires name in columns
    ensures k < |columns| && columns[k] == name
    ensures forall j :: 0 <= j < k ==> columns[j] != name
  {
    if columns[0] == name then 0 else 1 + IndexOf(columns[1..], name)
  }

  const Kept: seq<string> := ["date", "temp", "rainfall", "humidity"]

  /** The names of `cols` that the header lacks, in the order of `cols`. */
  function Absent(columns: seq<string>, cols: seq<string>): (ms: seq<string>)
    ensures forall c :: c in ms <==> c in cols && c !in columns
  {
    if cols == [] then []
    else (if cols[0] in columns then [] else [cols[0]]) + Absent(columns, cols[1..])
  }

  /** A numeric cell: a number, or a blank that pandas reads as NaN. */
  predicate IsReading(c: Cell) {
    c.Number? || c.Blank?
  }

  /** The reading of a numeric cell; the cell can be recovered from it. */
  function Reading(c: Cell): (v: Option<real>)
    requires IsReading(c)
    ensures CellFor(v) == c
  {
    if c.Number? then Some(c.x) else None
  }

  /** The first row, from `from` on, whose cell in column `k` satisfies
      neither the date test (when `date` is set) nor the reading test. */
  function FirstBadRow(rows: seq<seq<Cell>>, k: nat, date: bool, from: nat): (r: Option<nat>)
    requires forall i :: 0 <= i < |rows| ==> k < |rows[i]|
    requires from <= |rows|
    ensures r.Some? ==> from <= r.value < |rows| && !Good(rows[r.value][k], date)
    ensures r.Some? ==> forall i :: from <= i < r.value ==> Good(rows[i][k], date)
    ensures r.None? ==> forall i :: from <= i < |rows| ==> Good(rows[i][k], date)
    decreases |rows| - from
  {
    if from == |rows| then None
    else if !Good(rows[from][k], date) then Some(from)
    else FirstBadRow(rows, k, date, from + 1)
  }

  predicate Good(c: Cell, date: bool) {
    if date then c.Day? else IsReading(c)
  }

  /** Lines 29-33 on a renamed frame. `df["date"]` fails first when there is
      no date column; then a date cell that is not a date fails parsing; then
      `df[cols]` fails naming every kept column that is absent; a reading
      column holding a non-numeric cell is refused. Otherwise each row becomes
      the record of its date, temp, rainfall and humidity cells, taken from
      the first column of each name. */
  function Project(f: Frame): (r: Result<seq<Record>, LoadError>)
    requires Rectangular(f)
    ensures "date" !in f.columns ==> r == Err(MissingColumn("date"))
    ensures r.Ok? ==> ProjectedFrom(f, r.value)
    ensures r.Err? && "date" in f.columns && Absent(f.columns, Kept) != [] ==>
      r.error.UnparsableDate? || r.error == MissingColumns(Absent(f.columns, Kept))
  {
    if "date" !in f.columns then Err(MissingColumn("date"))
    else
      var kd := IndexOf(f.columns, "date");
      match FirstBadRow(f.rows, kd, true, 0)
      case Some(i) => Err(UnparsableDate(i))
      case None =>
        var missing := Absent(f.columns, Kept);
        if missing != [] then Err(MissingColumns(missing))
        else
          assert forall c :: c in Kept ==> c in f.columns;
          SelectReadings(f)
  }

  /** `df[cols]` once every kept column is present and the dates parsed. */
  function SelectReadings(f: Frame): (r: Result<seq<Record>, LoadError>)
    requires Rectangular(f)
    requires forall c :: c in Kept ==> c in f.columns
    requires forall i :: 0 <= i < |f.rows| ==> f.rows[i][IndexOf(f.columns, "date")].Day?
    ensures r.Ok? ==> ProjectedFrom(f, r.value)
  {
    var kd, kt := IndexOf(f.columns, "date"), IndexOf(f.columns, "temp");
    var kr, kh := IndexOf(f.columns, "rainfall"), IndexOf(f.columns, "humidity");
    match FirstBadRow(f.rows, kt, false, 0)
    case Some(i) => Err(NotNumeric("temp", i))
    case None =>
      match FirstBadRow(f.rows, kr, false, 0)
      case Some(i) => Err(NotNumeric("rainfall", i))
      case None =>
        match FirstBadRow(f.rows, kh, false, 0)
        case Some(i) => Err(NotNumeric("humidity", i))
        case None => Ok(Rows(f, kd, kt, kr, kh))
  }

  function Rows(f: Frame, kd: nat, kt: nat, kr: nat, kh: nat): (recs: seq<Record>)
    requires Rectangular(f) && kd < |f.columns| && kt < |f.columns| && kr < |f.columns| && kh < |f.columns|
    requires forall i :: 0 <= i < |f.rows| ==> f.rows[i][kd].Day?
    requires forall i :: 0 <= i < |f.rows| ==> IsReading(f.rows[i][kt]) && IsReading(f.rows[i][kr]) && IsReading(f.rows[i][kh])
    ensures |recs| == |f.rows|
    ensures forall i :: 0 <= i < |f.rows| ==>
      && f.rows[i][kd] == Day(recs[i].date)
      && CellFor(recs[i].temp) == f.rows[i][kt]
      && CellFor(recs[i].rainfall) == f.rows[i][kr]
      && CellFor(recs[i].humidity) == f.rows[i][kh]
  {
    seq(|f.rows|, i requires 0 <= i < |f.rows| =>
      Record(f.rows[i][kd].d, Reading(f.rows[i][kt]), Reading(f.rows[i][kr]), Reading(f.rows[i][kh])))
  }

  /** `recs` is `f` projected: one record per row, holding the row's cells of
      the first date, temp, rainfall and humidity columns. */
  ghost predicate ProjectedFrom(f: Frame, recs: seq<Record>)
    requires Rectangular(f)
  {
    && (forall c :: c in Kept ==> c in f.columns)
    && |recs| == |f.rows|
    && forall i :: 0 <= i < |f.rows| ==>
      && f.rows[i][IndexOf(f.columns, "date")] == Day(recs[i].date)
      && CellFor(recs[i].temp) == f.rows[i][IndexOf(f.columns, "temp")]
      && CellFor(recs[i].rainfall) == f.rows[i][IndexOf(f.columns, "rainfall")]
      && CellFor(recs[i].humidity) == f.rows[i][IndexOf(f.columns, "humidity")]
  }

  /** The cell a reading was read from. */
  function CellFor(v: Option<real>): Cell {
    match v
    case Some(x) => Number(x)
    case None => Blank
  }

  /** Projection succeeds exactly when every kept column is present, every
      date cell is a date and every reading cell is numeric or blank. */
  lemma ProjectSucceedsIff(f: Frame)
    requires Rectangular(f)
    ensures Project(f).Ok? <==> WellTyped(f)
  {
    if "date" in f.columns {
      var kd := IndexOf(f.columns, "date");
      var _ := FirstBadRow(f.rows, kd, true, 0);
      if Absent(f.columns, Kept) == [] {
        var kt, kr, kh := IndexOf(f.columns, "temp"), IndexOf(f.columns, "rainfall"), IndexOf(f.columns, "humidity");
        var _ := FirstBadRow(f.rows, kt, false, 0);
        var _ := FirstBadRow(f.rows, kr, false, 0);
        var _ := FirstBadRow(f.rows, kh, false, 0);
      } else {
        assert Absent(f.columns, Kept)[0] in Absent(f.columns, Kept);
      }
    }
  }

  ghost predicate WellTyped(f: Frame)
    requires Rectangular(f)
  {
    && (forall c :: c in Kept ==> c in f.columns)
    && forall i :: 0 <= i < |f.rows| ==>
      && f.rows[i][IndexOf(f.columns, "date")].Day?
      && IsReading(f.rows[i][IndexOf(f.columns, "temp")])
      && IsReading(f.rows[i][IndexOf(f.columns, "rainfall")])
      && IsReading(f.rows[i][IndexOf(f.columns, "humidity")])
  }

  /** Load and normalize: drop the stray index column, rename, project. */
  function LoadTable(f: Frame): (r: Result<seq<Record>, LoadError>)
    requires Rectangular(f)
    ensures f.columns == [] ==> r == Err(NoColumns)
    ensures r.Ok? ==> |r.value| == |f.rows|
    ensures r.Ok? ==>
      (f.columns != [] && Rectangular(Rename(DropIndexColumn(f).value))
       && ProjectedFrom(Rename(DropIndexColumn(f).value), r.value))
  {
    match DropIndexColumn(f)
    case Err(e) => Err(e)
    case Ok(g) => Project(Rename(g))
  }

  /** Loading succeeds exactly when the file has a header and, once the
      stray index column is dropped and the columns renamed, the table holds
      every kept column with dates and numeric readings in them. */
  lemma LoadTableSucceedsIff(f: Frame)
    requires Rectangular(f)
    ensures LoadTable(f).Ok? <==>
      f.columns != [] && Rectangular(Rename(DropIndexColumn(f).value))
      && WellTyped(Rename(DropIndexColumn(f).value))
  {
    if f.columns != [] {
      ProjectSucceedsIff(Rename(DropIndexColumn(f).value));
    }
  }
}
