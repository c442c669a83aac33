/** `process_file` (flight_formatter.py:77-139) as the source runs it: one frame
    updated in place step by step, then the row loop. */
module Processing {
  import opened Options
  import opened Calendar
  import opened Cells
  import opened Classify
  import opened Frames
  import opened Headers
  import opened Emission
  import opened Pipeline
  import opened Guarantees

  /** Lines 91-94 on the frame. */
  method AddTimeColumns(parse: Cell -> DateRead, df: Frame)
    requires Rect(df.Contents())
    modifies df
    ensures df.Contents() == Timed(parse, old(df.Contents()))
  {
    df.SetColumn("STA.", TimeValues(parse, df.Contents(), "STA", false));
    df.SetColumn("ATA.", TimeValues(parse, df.Contents(), "ATA", true));
    df.SetColumn("STD.", TimeValues(parse, df.Contents(), "STD", true));
    df.SetColumn("ATD.", TimeValues(parse, df.Contents(), "ATD", true));
  }

  /** Lines 96-98 on the frame: the mask is computed once, then both copies use it. */
  method CollapseCanceled(df: Frame)
    requires Rect(df.Contents())
    requires Named("STA.") in df.labels && Named("ATA.") in df.labels
    requires Named("STD.") in df.labels && Named("ATD.") in df.labels
    modifies df
    ensures df.Contents() == Collapsed(old(df.Contents()))
  {
    var canceled := CanceledMask(df.Contents());
    var ataAt, staAt := ColumnIndex(df.labels, Named("ATA.")).value, ColumnIndex(df.labels, Named("STA.")).value;
    var atdAt, stdAt := ColumnIndex(df.labels, Named("ATD.")).value, ColumnIndex(df.labels, Named("STD.")).value;
    df.CopyColumnWhere(canceled, ataAt, staAt);
    df.CopyColumnWhere(canceled, atdAt, stdAt);
  }

  /** Lines 100-103 on the frame. */
  method AddDerivedColumns(df: Frame)
    requires Rect(df.Contents())
    modifies df
    ensures df.Contents() == WithDerivedColumns(old(df.Contents()))
  {
    df.SetColumn("Customer", CustomerValues(df.Contents()));
    df.SetColumn("Services", ServiceValues(df.Contents()));
    df.SetColumn("Is Canceled", CanceledFlags(df.Contents()));
    df.SetColumn("Category", CategoryValues(df.Contents()));
  }

  /** The row loop of lines 106-133: each row is appended to the records or, when
      building its record raises, to the outliers. */
  method SplitRows(parse: Cell -> DateRead, labels: seq<Label>, rows: seq<seq<Cell>>)
    returns (normalRows: seq<Record>, outliers: seq<seq<Cell>>)
    ensures normalRows == NormalRecords(parse, labels, rows)
    ensures outliers == OutlierRows(parse, labels, rows)
  {
    normalRows, outliers := [], [];
    var i := 0;
    while i < |rows|
      invariant 0 <= i <= |rows|
      invariant normalRows == NormalRecords(parse, labels, rows[..i])
      invariant outliers == OutlierRows(parse, labels, rows[..i])
    {
      SplitStep(Assembler(parse, labels), rows, i);
      var record := Assemble(parse, labels, rows[i]);
      if record.Some? {
        normalRows := normalRows + [record.value];
      } else {
        outliers := outliers + [rows[i]];
      }
      i := i + 1;
    }
    assert rows[..i] == rows;
  }

  /** Lines 79-89 on the frame. */
  method CleanFrame(df: Frame)
    requires Rect(df.Contents())
    modifies df
    ensures df.Contents() == Cleaned(old(df.Contents()))
  {
    df.DropEmptyRows();
    df.RenameColumns(StripLabel);
    df.RenameColumns(AliasLabel);
  }

  /** Lines 91-104 on the cleaned frame: `None` when the frame is ready for the row
      loop, otherwise the exception raised on the way. */
  method PrepareFrame(parse: Cell -> DateRead, df: Frame) returns (error: Option<BatchError>)
    requires Rect(df.Contents())
    modifies df
    ensures error == FirstError(old(df.Contents()))
    ensures error.None? ==> df.Contents() == Prepared(parse, old(df.Contents()))
  {
    if Named("DATE") !in df.labels {
      return Some(MissingColumn("DATE"));
    }
    if Named("STA") !in df.labels {
      return Some(MissingColumn("STA"));
    }
    if Named("ATA") !in df.labels {
      return Some(MissingColumn("ATA"));
    }
    ghost var t0 := df.Contents();
    TimedLabels(parse, t0);
    TimedErrors(parse, t0);
    AddTimeColumns(parse, df);
    if Named(RemarksColumn) !in df.labels {
      return Some(MissingColumn(RemarksColumn));
    }
    if !StrAccessorOk(df.Contents()) {
      return Some(RemarksNotText);
    }
    CollapseCanceled(df);
    if Named("FLT NO.") !in df.labels {
      return Some(MissingColumn("FLT NO."));
    }
    AddDerivedColumns(df);
    assert df.Contents() == Unsorted(parse, t0);
    df.SortValues(RowKey(df.labels));
    return None;
  }

  /** `process_file`: the frame is read, cleaned and prepared in place, and split row
      by row. */
  method ProcessFile(parse: Cell -> DateRead, sheet: Table) returns (result: Outcome)
    requires Rect(sheet)
    ensures result == Process(parse, sheet)
  {
    var df := new Frame(sheet);
    CleanFrame(df);
    var error := PrepareFrame(parse, df);
    if error.Some? {
      return Raised(error.value);
    }
    var normalRows, outliers := SplitRows(parse, df.labels, df.rows);
    var reportDate := if |df.rows| == 0 then None else Some(Field(df.labels, df.rows[0], "DATE"));
    result := Done(Output(Layout(normalRows, outliers), df.labels, reportDate));
  }
}
