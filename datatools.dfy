/** The column helpers of the data tools: `retain_leading_zero`,
    `fill_leading_zero` and `date_diff`.

    A data frame is a map from column name to column, every column as long as
    every other.  The helpers change the frame they are given in place (and
    return that same frame); an exception they raise is an error value here,
    and whatever the helper had already written into the frame before the
    exception stays written.
 */
module DataTools {

  import opened Wrappers
  import opened Strings
  import opened Calendar

  /** One cell: text, an integer, or a date (after `pd.to_datetime`). */
  datatype Cell = Text(text: string) | Int(number: int) | Date(day: Day)

  type Columns = map<string, seq<Cell>>

  /** What the helpers raise, with the column concerned: `KeyError` for a
      column that is not in the frame; `TypeError` for a column that does not
      hold text where text is concatenated; `ValueError` for a column with a
      cell that `pd.to_datetime` cannot read with the given format; and
      `AttributeError` for the output column of a business-day difference on
      a frame with no rows, where `df.apply` hands back a DataFrame, which has
      no `tolist`. */
  datatype FrameError =
    | KeyError(column: string)
    | TypeError(column: string)
    | ValueError(column: string)
    | AttributeError(column: string)

  /** The frame a helper leaves behind, and the error it raised, if any. */
  datatype Outcome = Outcome(columns: Columns, error: Option<FrameError>)

  /** Every column has the same number of rows. */
  ghost predicate Rectangular(cols: Columns) {
    forall a, b :: a in cols && b in cols ==> |cols[a]| == |cols[b]|
  }

  class Frame {
    var columns: Columns

    ghost predicate Valid()
      reads this
    {
      Rectangular(columns)
    }

    constructor (columns: Columns)
      requires Rectangular(columns)
      ensures Valid() && this.columns == columns
    {
      this.columns := columns;
    }
  }

  // ---------------------------------------------------------------------
  // retain_leading_zero (list of column names)

  /** `'="' + df[col] + '"'`: every value of a text column wrapped as a
      spreadsheet text formula; a column holding anything but text raises. */
  function RetainColumn(col: seq<Cell>): (r: Option<seq<Cell>>)
    ensures r.Some? <==> forall i :: 0 <= i < |col| ==> col[i].Text?
    ensures r.Some? ==> |r.value| == |col|
    ensures r.Some? ==> forall i :: 0 <= i < |col| ==> r.value[i].Text? && FormulaText(r.value[i].text) == Some(col[i].text)
  {
    if forall i :: 0 <= i < |col| ==> col[i].Text? then
      var r := seq(|col|, i requires 0 <= i < |col| => Text(TextFormula(col[i].text)));
      assert forall i :: 0 <= i < |col| ==> FormulaText(r[i].text) == Some(col[i].text) by {
        forall i | 0 <= i < |col| {
          TextFormulaRoundTrip(col[i].text, r[i].text);
        }
      }
      Some(r)
    else
      None
  }

  /** One turn of the loop: `df[name] = '="' + df[name] + '"'`.  It
      succeeds exactly when the column exists and holds only text, changes
      nothing but that column, and on an error leaves the frame as it was. */
  function RetainStep(cols: Columns, name: string): (r: Outcome)
    ensures r.columns.Keys == cols.Keys
    ensures r.error.None? <==> name in cols && forall i :: 0 <= i < |cols[name]| ==> cols[name][i].Text?
    ensures r.error.Some? ==> r.columns == cols && r.error.value.column == name
    ensures r.error.None? ==> forall c :: c in cols && c != name ==> r.columns[c] == cols[c]
  {
    if name !in cols then Outcome(cols, Some(KeyError(name)))
    else match RetainColumn(cols[name])
      case None => Outcome(cols, Some(TypeError(name)))
      case Some(wrapped) => Outcome(cols[name := wrapped], None)
  }

  /** The whole loop over `column_names`, left to right, stopping at the first
      column that raises. */
  function RetainAll(cols: Columns, names: seq<string>): (r: Outcome)
    ensures r.columns.Keys == cols.Keys
    ensures r.error.None? ==> forall i :: 0 <= i < |names| ==> names[i] in cols
    decreases |names|
  {
    if names == [] then Outcome(cols, None)
    else
      var before := RetainAll(cols, names[..|names| - 1]);
      if before.error.Some? then before else RetainStep(before.columns, names[|names| - 1])
  }

  /** Once the loop has raised, the names after that point are never reached. */
  lemma {:induction false} RetainAllStops(cols: Columns, names: seq<string>, k: nat)
    requires k <= |names| && RetainAll(cols, names[..k]).error.Some?
    ensures RetainAll(cols, names) == RetainAll(cols, names[..k])
    decreases |names| - k
  {
    if k < |names| {
      assert names[..k + 1][..k] == names[..k];
      RetainAllStops(cols, names, k + 1);
    } else {
      assert names[..k] == names;
    }
  }

  /** Whether the loop finishes or raises: the frame keeps its columns, a
      column not named in the list is untouched, every row count stays, and
      a raised error names a listed column. */
  lemma {:induction false} RetainAllFrame(cols: Columns, names: seq<string>)
    ensures RetainAll(cols, names).columns.Keys == cols.Keys
    ensures forall c :: c in cols && c !in names ==> RetainAll(cols, names).columns[c] == cols[c]
    ensures forall c :: c in cols ==> |RetainAll(cols, names).columns[c]| == |cols[c]|
    ensures RetainAll(cols, names).error.Some? ==> RetainAll(cols, names).error.value.column in names
    decreases |names|
  {
    if names != [] {
      var init := names[..|names| - 1];
      RetainAllFrame(cols, init);
      assert forall c :: c in init ==> c in names;
    }
  }

  /** With distinct names, all present and all holding text, the loop
      finishes and every listed column is exactly its wrapped self. */
  lemma {:induction false} RetainAllWraps(cols: Columns, names: seq<string>)
    requires forall i, j :: 0 <= i < j < |names| ==> names[i] != names[j]
    requires forall i :: 0 <= i < |names| ==> names[i] in cols && RetainColumn(cols[names[i]]).Some?
    ensures RetainAll(cols, names).error == None
    ensures forall i :: 0 <= i < |names| ==>
              names[i] in RetainAll(cols, names).columns
              && RetainAll(cols, names).columns[names[i]] == RetainColumn(cols[names[i]]).value
    decreases |names|
  {
    if names != [] {
      var init, last := names[..|names| - 1], names[|names| - 1];
      RetainAllWraps(cols, init);
      RetainAllFrame(cols, init);
      assert last !in init;
      var before := RetainAll(cols, init);
      var wrapped := RetainColumn(cols[last]).value;
      assert RetainAll(cols, names) == Outcome(before.columns[last := wrapped], None);
      forall i | 0 <= i < |names| - 1
        ensures RetainAll(cols, names).columns[names[i]] == RetainColumn(cols[names[i]]).value
      {
        assert names[i] == init[i] && names[i] != last;
      }
    }
  }

  /** `retain_leading_zero(df, column_names)` with a list of names. */
  method RetainLeadingZero(df: Frame, columnNames: seq<string>) returns (err: Option<FrameError>)
    requires df.Valid()
    modifies df
    ensures df.Valid()
    ensures Outcome(df.columns, err) == RetainAll(old(df.columns), columnNames)
  {
    err := None;
    var i := 0;
    while i < |columnNames| && err.None?
      invariant 0 <= i <= |columnNames|
      invariant Outcome(df.columns, err) == RetainAll(old(df.columns), columnNames[..i])
      invariant Rectangular(df.columns)
    {
      var name := columnNames[i];
      assert columnNames[..i + 1][..i] == columnNames[..i];
      if name !in df.columns {
        err := Some(KeyError(name));
      } else {
        var wrapped := RetainColumn(df.columns[name]);
        if wrapped.None? {
          err := Some(TypeError(name));
        } else {
          df.columns := df.columns[name := wrapped.value];
        }
      }
      i := i + 1;
    }
    if err.Some? {
      RetainAllStops(old(df.columns), columnNames, i);
    } else {
      assert columnNames[..i] == columnNames;
    }
  }

  // ---------------------------------------------------------------------
  // fill_leading_zero

  /** `astype(str)` of one cell; how a date is written is pandas' business and
      comes in as `dateText`. */
  function CellText(c: Cell, dateText: Day -> string): (r: string)
    ensures c.Text? ==> r == c.text
    ensures c.Int? ==> (HasSign(r) <==> c.number < 0)
    ensures c.Int? ==> forall i :: (if c.number < 0 then 1 else 0) <= i < |r| ==> IsDigit(r[i])
    ensures c.Date? ==> r == dateText(c.day)
  {
    match c
    case Text(s) => s
    case Int(n) => IntText(n)
    case Date(d) => dateText(d)
  }

  /** `df[col].astype(str).str.zfill(width)`: every cell becomes text at
      least `width` long, zero-filled on the left; text already that long is
      kept as it is. */
  function FillColumn(col: seq<Cell>, width: int, dateText: Day -> string): (r: seq<Cell>)
    ensures |r| == |col|
    ensures forall i :: 0 <= i < |col| ==> r[i].Text? && |r[i].text| == Max(|CellText(col[i], dateText)|, width)
    ensures forall i :: 0 <= i < |col| && |CellText(col[i], dateText)| >= width ==> r[i] == Text(CellText(col[i], dateText))
    ensures forall i :: 0 <= i < |col| ==>
              var t, u := CellText(col[i], dateText), r[i].text;
              var lead := if HasSign(t) then 1 else 0;
              && |u| == Max(|t|, width) && lead <= |t|
              && u[..lead] == t[..lead]
              && u[|u| - |t| + lead..] == t[lead..]
              && forall j :: lead <= j < |u| - |t| + lead ==> u[j] == '0'
  {
    seq(|col|, i requires 0 <= i < |col| => Text(ZFill(CellText(col[i], dateText), width)))
  }

  /** Filling a filled column again changes nothing. */
  lemma FillColumnIdempotent(col: seq<Cell>, width: int, dateText: Day -> string)
    ensures FillColumn(FillColumn(col, width, dateText), width, dateText) == FillColumn(col, width, dateText)
  {
    var once := FillColumn(col, width, dateText);
    forall i | 0 <= i < |col|
      ensures FillColumn(once, width, dateText)[i] == once[i]
    {
      ZFillCompose(CellText(col[i], dateText), width, width);
    }
  }

  /** `fill_leading_zero(df, column_names, character_length)` for one
      column name. */
  method FillLeadingZero(df: Frame, columnName: string, dateText: Day -> string, characterLength: int := 10)
    returns (err: Option<FrameError>)
    requires df.Valid()
    modifies df
    ensures df.Valid()
    ensures err == (if columnName in old(df.columns) then None else Some(KeyError(columnName)))
    ensures columnName in old(df.columns) ==>
              df.columns == old(df.columns)[columnName := FillColumn(old(df.columns)[columnName], characterLength, dateText)]
    ensures columnName !in old(df.columns) ==> df.columns == old(df.columns)
  {
    if columnName !in df.columns {
      return Some(KeyError(columnName));
    }
    df.columns := df.columns[columnName := FillColumn(df.columns[columnName], characterLength, dateText)];
    err := None;
  }

  // ---------------------------------------------------------------------
  // date_diff

  /** `pd.to_datetime` of one cell: a date stays itself, anything else goes
      through `parse`, which stands for pandas reading it with `date_format`
      and gives None where pandas raises.  A date is a whole day: a time of
      day that pandas would keep is not modelled. */
  function ToDate(c: Cell, parse: Cell -> Option<Day>): (r: Option<Day>)
    ensures c.Date? ==> r == Some(c.day)
    ensures !c.Date? ==> r == parse(c)
  {
    if c.Date? then Some(c.day) else parse(c)
  }

  /** `pd.to_datetime` of a whole column: it raises if any cell fails. */
  function ToDates(col: seq<Cell>, parse: Cell -> Option<Day>): (r: Option<seq<Day>>)
    ensures r.Some? <==> forall i :: 0 <= i < |col| ==> ToDate(col[i], parse).Some?
    ensures r.Some? ==> |r.value| == |col| && forall i :: 0 <= i < |col| ==> Some(r.value[i]) == ToDate(col[i], parse)
  {
    if forall i :: 0 <= i < |col| ==> ToDate(col[i], parse).Some? then
      Some(seq(|col|, i requires 0 <= i < |col| => ToDate(col[i], parse).value))
    else
      None
  }

  function DateCells(days: seq<Day>): (r: seq<Cell>)
    ensures |r| == |days| && forall i :: 0 <= i < |days| ==> r[i].Date? && r[i].day == days[i]
  {
    seq(|days|, i requires 0 <= i < |days| => Date(days[i]))
  }

  /** A converted column converts to the same dates again. */
  lemma ToDatesOfDates(days: seq<Day>, parse: Cell -> Option<Day>)
    ensures ToDates(DateCells(days), parse) == Some(days)
  {
    var r := ToDates(DateCells(days), parse);
    assert r.Some? && r.value == days;
  }

  /** `(df[end] - df[start]).dt.days`: per row, end minus start in calendar
      days, negative when the end comes first. */
  function CalendarDiffs(starts: seq<Day>, ends: seq<Day>): (r: seq<Cell>)
    requires |starts| == |ends|
    ensures |r| == |starts| && forall i :: 0 <= i < |r| ==> r[i].Int? && starts[i] + r[i].number == ends[i]
  {
    seq(|starts|, i requires 0 <= i < |starts| => Int(ends[i] - starts[i]))
  }

  /** `df.apply(lambda x: __business_days(x[start], x[end]), axis=1)`: per
      row, the number of days from Monday to Friday in [start, end]. */
  function BusinessDiffs(starts: seq<Day>, ends: seq<Day>): (r: seq<Cell>)
    requires |starts| == |ends|
    ensures |r| == |starts|
    ensures forall i :: 0 <= i < |r| ==> r[i] == Int(CountBusinessDays(starts[i], ends[i]))
  {
    var r := seq(|starts|, i requires 0 <= i < |starts| => Int(BusinessDays(starts[i], ends[i])));
    assert forall i :: 0 <= i < |r| ==> r[i] == Int(CountBusinessDays(starts[i], ends[i])) by {
      forall i | 0 <= i < |r| {
        BusinessDaysCorrect(starts[i], ends[i]);
      }
    }
    r
  }

  /** What `date_diff` leaves in the frame, and what it raises: the start
      column converted to dates, then the end column, then the output column
      written when `calculation`, lower-cased, names one of the two
      calculations (a business-day difference on a frame with no rows raises
      instead). */
  function DateDiffResult(cols: Columns, startDate: string, endDate: string, outputColumnName: string,
                          calculation: string, parse: Cell -> Option<Day>): (r: Outcome)
    requires Rectangular(cols)
    ensures Rectangular(r.columns)
  {
    var how := Lower(calculation);
    if startDate !in cols then Outcome(cols, Some(KeyError(startDate)))
    else match ToDates(cols[startDate], parse)
      case None => Outcome(cols, Some(ValueError(startDate)))
      case Some(starts) =>
        var cols1 := cols[startDate := DateCells(starts)];
        if endDate !in cols1 then Outcome(cols1, Some(KeyError(endDate)))
        else match ToDates(cols1[endDate], parse)
          case None => Outcome(cols1, Some(ValueError(endDate)))
          case Some(ends) =>
            var cols2 := cols1[endDate := DateCells(ends)];
            if how == "calendar days" then Outcome(cols2[outputColumnName := CalendarDiffs(starts, ends)], None)
            else if how == "business days" then
              if |starts| == 0 then Outcome(cols2, Some(AttributeError(outputColumnName)))
              else Outcome(cols2[outputColumnName := BusinessDiffs(starts, ends)], None)
            else Outcome(cols2, None)
  }

  /** `calculation` is read without regard to case. */
  lemma DateDiffCaseInsensitive(cols: Columns, startDate: string, endDate: string, outputColumnName: string,
                                calculation: string, parse: Cell -> Option<Day>)
    requires Rectangular(cols)
    ensures DateDiffResult(cols, startDate, endDate, outputColumnName, calculation, parse)
         == DateDiffResult(cols, startDate, endDate, outputColumnName, Lower(calculation), parse)
  {
    LowerIdempotent(calculation);
  }

  /** When both columns exist and read as dates, both columns now hold their
      dates and no other column changes except the output column.
      "calendar days" writes end minus start; "business days" writes the
      business-day count of each row, or raises `AttributeError` when the
      frame has no rows; any other calculation adds no column.  Nothing else
      raises. */
  lemma DateDiffSucceeds(cols: Columns, startDate: string, endDate: string, outputColumnName: string,
                         calculation: string, parse: Cell -> Option<Day>)
    requires Rectangular(cols)
    requires startDate in cols && ToDates(cols[startDate], parse).Some?
    requires endDate in cols && ToDates(cols[endDate], parse).Some?
    ensures var starts, ends := ToDates(cols[startDate], parse).value, ToDates(cols[endDate], parse).value;
            var Outcome(r, err) := DateDiffResult(cols, startDate, endDate, outputColumnName, calculation, parse);
            && |starts| == |ends|
            && (err == None <==> !(Lower(calculation) == "business days" && |starts| == 0))
            && (forall c :: c in cols && c != startDate && c != endDate && c != outputColumnName ==> c in r && r[c] == cols[c])
            && (startDate != outputColumnName ==> startDate in r && r[startDate] == DateCells(starts))
            && (endDate != outputColumnName ==> endDate in r && r[endDate] == DateCells(ends))
            && (Lower(calculation) == "calendar days" ==>
                  r.Keys == cols.Keys + {outputColumnName}
                  && |r[outputColumnName]| == |starts|
                  && forall i :: 0 <= i < |starts| ==> r[outputColumnName][i] == Int(ends[i] - starts[i]))
            && (Lower(calculation) == "business days" && |starts| > 0 ==>
                  r.Keys == cols.Keys + {outputColumnName}
                  && |r[outputColumnName]| == |starts|
                  && forall i :: 0 <= i < |starts| ==> r[outputColumnName][i] == Int(CountBusinessDays(starts[i], ends[i])))
            && (Lower(calculation) == "business days" && |starts| == 0 ==>
                  err == Some(AttributeError(outputColumnName))
                  && r.Keys == cols.Keys && r[startDate] == DateCells(starts) && r[endDate] == DateCells(ends))
            && (Lower(calculation) != "calendar days" && Lower(calculation) != "business days" ==>
                  r.Keys == cols.Keys && r[startDate] == DateCells(starts) && r[endDate] == DateCells(ends))
  {
    var starts := ToDates(cols[startDate], parse).value;
    if endDate == startDate {
      ToDatesOfDates(starts, parse);
    }
  }

  /** `date_diff` raises exactly when a column is missing or does not convert,
      or when a business-day difference meets a frame with no rows.  A missing
      or unreadable column is the start or the end column, and the frame is
      then untouched or has only its start column converted; on a frame with
      no rows the error names the output column, and both date columns are
      converted. */
  lemma DateDiffFails(cols: Columns, startDate: string, endDate: string, outputColumnName: string,
                      calculation: string, parse: Cell -> Option<Day>)
    requires Rectangular(cols)
    ensures var Outcome(r, err) := DateDiffResult(cols, startDate, endDate, outputColumnName, calculation, parse);
            var converts := startDate in cols && ToDates(cols[startDate], parse).Some?
                            && endDate in cols && ToDates(cols[endDate], parse).Some?;
            && (err.Some? <==> !converts || (converts && Lower(calculation) == "business days" && |cols[startDate]| == 0))
            && (err.Some? && !err.value.AttributeError? ==>
                  !converts
                  && (err.value.column == startDate || err.value.column == endDate)
                  && (r == cols || (startDate in cols && ToDates(cols[startDate], parse).Some?
                                    && r == cols[startDate := DateCells(ToDates(cols[startDate], parse).value)])))
            && (err.Some? && err.value.AttributeError? ==>
                  converts && err.value.column == outputColumnName
                  && r == cols[startDate := DateCells(ToDates(cols[startDate], parse).value)]
                              [endDate := DateCells(ToDates(cols[endDate], parse).value)])
  {
    if startDate in cols && ToDates(cols[startDate], parse).Some? && endDate == startDate {
      ToDatesOfDates(ToDates(cols[startDate], parse).value, parse);
    }
  }

  /** `date_diff(df, start_date, end_date, date_format, output_column_name,
      calculation)`; `parse` is `pd.to_datetime` with `date_format`. */
  method DateDiff(df: Frame, startDate: string, endDate: string, parse: Cell -> Option<Day>,
                  outputColumnName: string := "date_diff", calculation: string := "calendar days")
    returns (err: Option<FrameError>)
    requires df.Valid()
    modifies df
    ensures df.Valid()
    ensures Outcome(df.columns, err) == DateDiffResult(old(df.columns), startDate, endDate, outputColumnName, calculation, parse)
  {
    var how := Lower(calculation);
    if startDate !in df.columns {
      return Some(KeyError(startDate));
    }
    var starts := ToDates(df.columns[startDate], parse);
    if starts.None? {
      return Some(ValueError(startDate));
    }
    df.columns := df.columns[startDate := DateCells(starts.value)];
    if endDate !in df.columns {
      return Some(KeyError(endDate));
    }
    var ends := ToDates(df.columns[endDate], parse);
    if ends.None? {
      return Some(ValueError(endDate));
    }
    df.columns := df.columns[endDate := DateCells(ends.value)];
    if how == "calendar days" {
      df.columns := df.columns[outputColumnName := CalendarDiffs(starts.value, ends.value)];
    } else if how == "business days" {
      if |starts.value| == 0 {
        return Some(AttributeError(outputColumnName));
      }
      df.columns := df.columns[outputColumnName := BusinessDiffs(starts.value, ends.value)];
    }
    err := None;
  }
}
