/** `process_file` (flight_formatter.py:77-139) from the sheet `read_excel` returns to
    the output frame and the report date: cleaning, the four time columns, the
    cancellation collapse, the derived columns, the sort and the row loop. */
module Pipeline {
  import opened Options
  import opened Calendar
  import opened Cells
  import opened Timestamps
  import opened Classify
  import opened Derived
  import opened Sorting
  import opened Frames
  import opened Headers
  import opened Emission

  /** One cell of a time column: `format_datetime`'s result, with `None` stored as a
      missing cell. */
  function TimeCell(parse: Cell -> DateRead, date: Cell, raw: Cell, anchor: Cell): Cell {
    FromOption(FormatDateTime(parse, date, raw, anchor))
  }

  /** The time column computed from raw column `raw`, anchored on the raw STA when
      `anchored` holds (flight_formatter.py:91-94). */
  function TimeValues(parse: Cell -> DateRead, t: Table, raw: string, anchored: bool): (v: seq<Cell>)
    ensures |v| == |t.rows|
  {
    seq(|t.rows|, i requires 0 <= i < |t.rows| =>
      var row := t.rows[i];
      TimeCell(parse, Field(t.labels, row, "DATE"), Field(t.labels, row, raw),
               if anchored then Field(t.labels, row, "STA") else Missing))
  }

  /** Lines 91-94: STA. unanchored, then ATA., STD. and ATD. anchored on the raw STA. */
  function Timed(parse: Cell -> DateRead, t: Table): (r: Table)
    requires Rect(t)
    ensures Rect(r) && |r.rows| == |t.rows|
  {
    var t1 := WithColumn(t, "STA.", TimeValues(parse, t, "STA", false));
    var t2 := WithColumn(t1, "ATA.", TimeValues(parse, t1, "ATA", true));
    var t3 := WithColumn(t2, "STD.", TimeValues(parse, t2, "STD", true));
    WithColumn(t3, "ATD.", TimeValues(parse, t3, "ATD", true))
  }

  /** Line 96 (and line 102): `str.contains('CANCELED|CANCELLED', case=False, na=False)`
      on the remarks column. */
  function CanceledMask(t: Table): (m: seq<bool>)
    ensures |m| == |t.rows|
  {
    seq(|t.rows|, i requires 0 <= i < |t.rows| => IsCanceled(Field(t.labels, t.rows[i], RemarksColumn)))
  }

  /** Whether the `.str` accessor accepts the remarks column: it does for an empty
      frame and for a column holding at least one string. */
  predicate StrAccessorOk(t: Table) {
    |t.rows| == 0 || exists i :: 0 <= i < |t.rows| && Field(t.labels, t.rows[i], RemarksColumn).Text?
  }

  /** Lines 96-98: in cancelled rows ATA. takes STA. and ATD. takes STD. */
  function Collapsed(t: Table): (r: Table)
    requires Rect(t)
    requires Named("STA.") in t.labels && Named("ATA.") in t.labels
    requires Named("STD.") in t.labels && Named("ATD.") in t.labels
    ensures Rect(r) && r.labels == t.labels && |r.rows| == |t.rows|
  {
    var mask := CanceledMask(t);
    var t1 := CopyWhere(t, mask, ColumnIndex(t.labels, Named("ATA.")).value, ColumnIndex(t.labels, Named("STA.")).value);
    CopyWhere(t1, mask, ColumnIndex(t.labels, Named("ATD.")).value, ColumnIndex(t.labels, Named("STD.")).value)
  }

  /** Line 100: the customer code of each flight number. */
  function CustomerValues(t: Table): (v: seq<Cell>)
    ensures |v| == |t.rows|
  {
    seq(|t.rows|, i requires 0 <= i < |t.rows| => Text(CustomerCode(Field(t.labels, t.rows[i], "FLT NO."))))
  }

  /** Line 101: `extract_services` on each row. */
  function ServiceValues(t: Table): (v: seq<Cell>)
    requires Rect(t)
    ensures |v| == |t.rows|
  {
    seq(|t.rows|, i requires 0 <= i < |t.rows| => FromOption(Services(t.labels, t.rows[i])))
  }

  /** Line 102: the cancellation flag of each row. */
  function CanceledFlags(t: Table): (v: seq<Cell>)
    ensures |v| == |t.rows|
  {
    seq(|t.rows|, i requires 0 <= i < |t.rows| => Flag(IsCanceled(Field(t.labels, t.rows[i], RemarksColumn))))
  }

  /** Line 103: `categorize` on each row. */
  function CategoryValues(t: Table): (v: seq<Cell>)
    ensures |v| == |t.rows|
  {
    seq(|t.rows|, i requires 0 <= i < |t.rows| =>
      Text(CategoryLabel(Categorize(Field(t.labels, t.rows[i], RemarksColumn)))))
  }

  /** The frame after line 100. */
  function WithCustomer(t: Table): (r: Table)
    requires Rect(t)
    ensures Rect(r) && |r.rows| == |t.rows|
  {
    WithColumn(t, "Customer", CustomerValues(t))
  }

  /** The frame after lines 100-103. */
  function WithDerivedColumns(t: Table): (r: Table)
    requires Rect(t)
    ensures Rect(r) && |r.rows| == |t.rows|
  {
    var t1 := WithCustomer(t);
    var t2 := WithColumn(t1, "Services", ServiceValues(t1));
    var t3 := WithColumn(t2, "Is Canceled", CanceledFlags(t2));
    WithColumn(t3, "Category", CategoryValues(t3))
  }

  /** A text cell's string; any other cell has no text (pandas sorts it last). */
  function CellText(c: Cell): (r: Option<string>)
    ensures r.Some? <==> c.Text?
  {
    if c.Text? then Some(c.s) else None
  }

  /** The key of `sort_values(by=['Category', 'STA.'])`. */
  function RowKey(labels: seq<Label>): seq<Cell> -> SortKey {
    row => SortKey(Render(Field(labels, row, "Category")), CellText(Field(labels, row, "STA.")))
  }

  /** Line 104. */
  function Ordered(t: Table): (r: Table)
    requires Rect(t)
    ensures Rect(r) && r.labels == t.labels && |r.rows| == |t.rows|
  {
    SortKeepsRect(RowKey(t.labels), t);
    Table(t.labels, SortBy(RowKey(t.labels), t.rows))
  }

  /** Why `process_file` raises: a column it reads with `df[...]` or `row[...]` is
      absent, or the `.str` accessor refuses the remarks column. */
  datatype BatchError = MissingColumn(name: string) | RemarksNotText

  /** The exception lines 79-104 raise, if any, in the order the source first reads
      each column: DATE, STA and ATA (line 91), the remarks column and its `.str`
      accessor (line 96), FLT NO. (line 100). The source makes the last three checks
      after adding the time columns; those columns change neither the labels checked
      nor the remarks (`TimedLabels`, `Guarantees.TimedAccessor`), so the checks are
      made on the cleaned frame. */
  function FirstError(t0: Table): Option<BatchError> {
    if Named("DATE") !in t0.labels then Some(MissingColumn("DATE"))
    else if Named("STA") !in t0.labels then Some(MissingColumn("STA"))
    else if Named("ATA") !in t0.labels then Some(MissingColumn("ATA"))
    else if Named(RemarksColumn) !in t0.labels then Some(MissingColumn(RemarksColumn))
    else if !StrAccessorOk(t0) then Some(RemarksNotText)
    else if Named("FLT NO.") !in t0.labels then Some(MissingColumn("FLT NO."))
    else None
  }

  /** The cleaned frame after lines 91-103, before the sort. */
  function Unsorted(parse: Cell -> DateRead, t0: Table): (u: Table)
    requires Rect(t0)
    ensures Rect(u) && |u.rows| == |t0.rows|
  {
    TimedLabels(parse, t0);
    WithDerivedColumns(Collapsed(Timed(parse, t0)))
  }

  /** The cleaned frame after lines 91-104, ready for the row loop. */
  function Prepared(parse: Cell -> DateRead, t0: Table): (t: Table)
    requires Rect(t0)
    ensures Rect(t) && |t.rows| == |t0.rows|
  {
    Ordered(Unsorted(parse, t0))
  }

  /** What `process_file` returns or raises. */
  datatype Outcome = Done(output: Output) | Raised(error: BatchError)

  /** Lines 91-139 on the cleaned frame. */
  function Run(parse: Cell -> DateRead, t0: Table): Outcome
    requires Rect(t0)
  {
    match FirstError(t0)
    case Some(e) => Raised(e)
    case None => Done(Emit(parse, Prepared(parse, t0)))
  }

  /** `process_file` as a whole: lines 79-89, then the rest on the cleaned frame. */
  function Process(parse: Cell -> DateRead, sheet: Table): Outcome
    requires Rect(sheet)
  {
    Run(parse, Cleaned(sheet))
  }

  /** The time columns are added and no label is lost. */
  lemma TimedLabels(parse: Cell -> DateRead, t: Table)
    requires Rect(t)
    ensures forall l :: l in Timed(parse, t).labels <==>
              l in t.labels || l == Named("STA.") || l == Named("ATA.") || l == Named("STD.") || l == Named("ATD.")
  {
    var t1 := WithColumn(t, "STA.", TimeValues(parse, t, "STA", false));
    var t2 := WithColumn(t1, "ATA.", TimeValues(parse, t1, "ATA", true));
    var t3 := WithColumn(t2, "STD.", TimeValues(parse, t2, "STD", true));
    WithColumnLabels(t, "STA.", TimeValues(parse, t, "STA", false));
    WithColumnLabels(t1, "ATA.", TimeValues(parse, t1, "ATA", true));
    WithColumnLabels(t2, "STD.", TimeValues(parse, t2, "STD", true));
    WithColumnLabels(t3, "ATD.", TimeValues(parse, t3, "ATD", true));
  }
}
