/** What `process_file` (flight_formatter.py:77-139) guarantees about its result,
    stated on the model of each stage and then end to end. */
module Guarantees {
  import opened Options
  import opened PyStrings
  import opened Calendar
  import opened Cells
  import opened Timestamps
  import opened Classify
  import opened Derived
  import opened Sorting
  import opened Frames
  import opened Headers
  import opened Emission
  import opened Pipeline

  // ---------------------------------------------------------------- time columns

  /** One time column assignment: the new column holds the computed time, and every
      other column reads as before. */
  lemma TimeStep(parse: Cell -> DateRead, t: Table, name: string, raw: string, anchored: bool,
                 i: int, other: string)
    requires Rect(t) && 0 <= i < |t.rows|
    ensures var r, row := WithColumn(t, name, TimeValues(parse, t, raw, anchored)), t.rows[i];
      && Field(r.labels, r.rows[i], name)
         == TimeCell(parse, Field(t.labels, row, "DATE"), Field(t.labels, row, raw),
                     if anchored then Field(t.labels, row, "STA") else Missing)
      && (other != name ==> Field(r.labels, r.rows[i], other) == Field(t.labels, row, other))
  {
    WithColumnGet(t, name, TimeValues(parse, t, raw, anchored), i, other);
  }

  /** The four time columns are the only columns lines 91-94 change. */
  lemma TimedKeeps(parse: Cell -> DateRead, t: Table, i: int, other: string)
    requires Rect(t) && 0 <= i < |t.rows|
    requires other != "STA." && other != "ATA." && other != "STD." && other != "ATD."
    ensures Field(Timed(parse, t).labels, Timed(parse, t).rows[i], other) == Field(t.labels, t.rows[i], other)
  {
    var t1 := WithColumn(t, "STA.", TimeValues(parse, t, "STA", false));
    var t2 := WithColumn(t1, "ATA.", TimeValues(parse, t1, "ATA", true));
    var t3 := WithColumn(t2, "STD.", TimeValues(parse, t2, "STD", true));
    TimeStep(parse, t, "STA.", "STA", false, i, other);
    TimeStep(parse, t1, "ATA.", "ATA", true, i, other);
    TimeStep(parse, t2, "STD.", "STD", true, i, other);
    TimeStep(parse, t3, "ATD.", "ATD", true, i, other);
  }

  /** The raw cells lines 91-94 read, which those lines do not change. */
  predicate SameRaw(l1: seq<Label>, r1: seq<Cell>, l2: seq<Label>, r2: seq<Cell>) {
    && Field(l1, r1, "DATE") == Field(l2, r2, "DATE")
    && Field(l1, r1, "STA") == Field(l2, r2, "STA")
    && Field(l1, r1, "ATA") == Field(l2, r2, "ATA")
    && Field(l1, r1, "STD") == Field(l2, r2, "STD")
    && Field(l1, r1, "ATD") == Field(l2, r2, "ATD")
  }

  lemma TimedKeepsRaw(parse: Cell -> DateRead, t: Table, i: int)
    requires Rect(t) && 0 <= i < |t.rows|
    ensures SameRaw(Timed(parse, t).labels, Timed(parse, t).rows[i], t.labels, t.rows[i])
  {
    TimedKeeps(parse, t, i, "DATE");
    TimedKeeps(parse, t, i, "STA");
    TimedKeeps(parse, t, i, "ATA");
    TimedKeeps(parse, t, i, "STD");
    TimedKeeps(parse, t, i, "ATD");
  }

  /** The row's time columns as lines 91-94 compute them from its own DATE, STA,
      ATA, STD and ATD cells. */
  predicate TimesComputed(parse: Cell -> DateRead, labels: seq<Label>, row: seq<Cell>) {
    var date, sta := Field(labels, row, "DATE"), Field(labels, row, "STA");
    && Field(labels, row, "STA.") == TimeCell(parse, date, sta, Missing)
    && Field(labels, row, "ATA.") == TimeCell(parse, date, Field(labels, row, "ATA"), sta)
    && Field(labels, row, "STD.") == TimeCell(parse, date, Field(labels, row, "STD"), sta)
    && Field(labels, row, "ATD.") == TimeCell(parse, date, Field(labels, row, "ATD"), sta)
  }

  /** STA. survives the three later assignments. */
  lemma TimedSta(parse: Cell -> DateRead, t: Table, i: int)
    requires Rect(t) && 0 <= i < |t.rows|
    ensures Field(Timed(parse, t).labels, Timed(parse, t).rows[i], "STA.")
            == TimeCell(parse, Field(t.labels, t.rows[i], "DATE"), Field(t.labels, t.rows[i], "STA"), Missing)
  {
    var t1 := WithColumn(t, "STA.", TimeValues(parse, t, "STA", false));
    var t2 := WithColumn(t1, "ATA.", TimeValues(parse, t1, "ATA", true));
    var t3 := WithColumn(t2, "STD.", TimeValues(parse, t2, "STD", true));
    TimeStep(parse, t, "STA.", "STA", false, i, "STA.");
    TimeStep(parse, t1, "ATA.", "ATA", true, i, "STA.");
    TimeStep(parse, t2, "STD.", "STD", true, i, "STA.");
    TimeStep(parse, t3, "ATD.", "ATD", true, i, "STA.");
  }

  /** ATA. is computed from the cells STA. left unchanged and survives the two later
      assignments. */
  lemma TimedAta(parse: Cell -> DateRead, t: Table, i: int)
    requires Rect(t) && 0 <= i < |t.rows|
    ensures var row := t.rows[i];
      Field(Timed(parse, t).labels, Timed(parse, t).rows[i], "ATA.")
      == TimeCell(parse, Field(t.labels, row, "DATE"), Field(t.labels, row, "ATA"), Field(t.labels, row, "STA"))
  {
    var t1 := WithColumn(t, "STA.", TimeValues(parse, t, "STA", false));
    var t2 := WithColumn(t1, "ATA.", TimeValues(parse, t1, "ATA", true));
    var t3 := WithColumn(t2, "STD.", TimeValues(parse, t2, "STD", true));
    TimeStep(parse, t, "STA.", "STA", false, i, "DATE");
    TimeStep(parse, t, "STA.", "STA", false, i, "ATA");
    TimeStep(parse, t, "STA.", "STA", false, i, "STA");
    TimeStep(parse, t1, "ATA.", "ATA", true, i, "ATA.");
    TimeStep(parse, t2, "STD.", "STD", true, i, "ATA.");
    TimeStep(parse, t3, "ATD.", "ATD", true, i, "ATA.");
  }

  lemma TimedStd(parse: Cell -> DateRead, t: Table, i: int)
    requires Rect(t) && 0 <= i < |t.rows|
    ensures var row := t.rows[i];
      Field(Timed(parse, t).labels, Timed(parse, t).rows[i], "STD.")
      == TimeCell(parse, Field(t.labels, row, "DATE"), Field(t.labels, row, "STD"), Field(t.labels, row, "STA"))
  {
    var t1 := WithColumn(t, "STA.", TimeValues(parse, t, "STA", false));
    var t2 := WithColumn(t1, "ATA.", TimeValues(parse, t1, "ATA", true));
    var t3 := WithColumn(t2, "STD.", TimeValues(parse, t2, "STD", true));
    TimeStep(parse, t, "STA.", "STA", false, i, "DATE");
    TimeStep(parse, t, "STA.", "STA", false, i, "STD");
    TimeStep(parse, t, "STA.", "STA", false, i, "STA");
    TimeStep(parse, t1, "ATA.", "ATA", true, i, "DATE");
    TimeStep(parse, t1, "ATA.", "ATA", true, i, "STD");
    TimeStep(parse, t1, "ATA.", "ATA", true, i, "STA");
    TimeStep(parse, t2, "STD.", "STD", true, i, "STD.");
    TimeStep(parse, t3, "ATD.", "ATD", true, i, "STD.");
  }

  lemma TimedAtd(parse: Cell -> DateRead, t: Table, i: int)
    requires Rect(t) && 0 <= i < |t.rows|
    ensures var row := t.rows[i];
      Field(Timed(parse, t).labels, Timed(parse, t).rows[i], "ATD.")
      == TimeCell(parse, Field(t.labels, row, "DATE"), Field(t.labels, row, "ATD"), Field(t.labels, row, "STA"))
  {
    var t1 := WithColumn(t, "STA.", TimeValues(parse, t, "STA", false));
    var t2 := WithColumn(t1, "ATA.", TimeValues(parse, t1, "ATA", true));
    var t3 := WithColumn(t2, "STD.", TimeValues(parse, t2, "STD", true));
    TimeStep(parse, t, "STA.", "STA", false, i, "DATE");
    TimeStep(parse, t, "STA.", "STA", false, i, "ATD");
    TimeStep(parse, t, "STA.", "STA", false, i, "STA");
    TimeStep(parse, t1, "ATA.", "ATA", true, i, "DATE");
    TimeStep(parse, t1, "ATA.", "ATA", true, i, "ATD");
    TimeStep(parse, t1, "ATA.", "ATA", true, i, "STA");
    TimeStep(parse, t2, "STD.", "STD", true, i, "DATE");
    TimeStep(parse, t2, "STD.", "STD", true, i, "ATD");
    TimeStep(parse, t2, "STD.", "STD", true, i, "STA");
    TimeStep(parse, t3, "ATD.", "ATD", true, i, "ATD.");
  }

  /** Lemma: after lines 91-94 every row's time columns are those `format_datetime`
      computes from the row's own cells: STA. from DATE and STA without an anchor,
      ATA., STD. and ATD. from DATE and their raw cell anchored on STA. */
  lemma TimedRow(parse: Cell -> DateRead, t: Table, i: int)
    requires Rect(t) && 0 <= i < |t.rows|
    ensures TimesComputed(parse, Timed(parse, t).labels, Timed(parse, t).rows[i])
  {
    TimedKeepsRaw(parse, t, i);
    TimedSta(parse, t, i);
    TimedAta(parse, t, i);
    TimedStd(parse, t, i);
    TimedAtd(parse, t, i);
  }

  // ------------------------------------------------------------ cancel collapse

  /** The columns the collapse needs exist. */
  predicate HasTimeColumns(t: Table) {
    Named("STA.") in t.labels && Named("ATA.") in t.labels && Named("STD.") in t.labels && Named("ATD.") in t.labels
  }

  /** The remark of a row. */
  function Remark(labels: seq<Label>, row: seq<Cell>): Cell {
    Field(labels, row, RemarksColumn)
  }

  /** Lines 96-98 read by label: in a cancelled row ATA. reads STA. and ATD. reads
      STD.; every other read is unchanged. */
  lemma CollapsedField(t: Table, i: int, name: string)
    requires Rect(t) && HasTimeColumns(t) && 0 <= i < |t.rows|
    ensures var canceled := IsCanceled(Remark(t.labels, t.rows[i]));
      Field(t.labels, Collapsed(t).rows[i], name)
      == if canceled && name == "ATA." then Field(t.labels, t.rows[i], "STA.")
         else if canceled && name == "ATD." then Field(t.labels, t.rows[i], "STD.")
         else Field(t.labels, t.rows[i], name)
  {
    var mask := CanceledMask(t);
    var ata, sta := ColumnIndex(t.labels, Named("ATA.")).value, ColumnIndex(t.labels, Named("STA.")).value;
    var atd, std := ColumnIndex(t.labels, Named("ATD.")).value, ColumnIndex(t.labels, Named("STD.")).value;
    var t1 := CopyWhere(t, mask, ata, sta);
    CopyWhereField(t, mask, ata, sta, i, name);
    CopyWhereField(t1, mask, atd, std, i, name);
    CopyWhereField(t, mask, ata, sta, i, "STD.");
    assert t1.rows[i][std] == Field(t.labels, t1.rows[i], "STD.");
  }

  /** The cells a row's time columns are computed from, and its remark, which the
      collapse does not change. */
  predicate SameInputs(l1: seq<Label>, r1: seq<Cell>, l2: seq<Label>, r2: seq<Cell>) {
    SameRaw(l1, r1, l2, r2) && Remark(l1, r1) == Remark(l2, r2)
  }

  lemma CollapsedKeepsInputs(t: Table, i: int)
    requires Rect(t) && HasTimeColumns(t) && 0 <= i < |t.rows|
    ensures SameInputs(t.labels, Collapsed(t).rows[i], t.labels, t.rows[i])
  {
    CollapsedField(t, i, "DATE");
    CollapsedField(t, i, "STA");
    CollapsedField(t, i, "ATA");
    CollapsedField(t, i, "STD");
    CollapsedField(t, i, "ATD");
    CollapsedField(t, i, RemarksColumn);
  }

  /** The time columns of a row after the collapse: as computed, except that a
      cancelled row's ATA. is its STA. and its ATD. is its STD. */
  predicate TimesSettled(parse: Cell -> DateRead, labels: seq<Label>, row: seq<Cell>) {
    var date, sta := Field(labels, row, "DATE"), Field(labels, row, "STA");
    var canceled := IsCanceled(Remark(labels, row));
    && Field(labels, row, "STA.") == TimeCell(parse, date, sta, Missing)
    && Field(labels, row, "ATA.")
       == (if canceled then Field(labels, row, "STA.") else TimeCell(parse, date, Field(labels, row, "ATA"), sta))
    && Field(labels, row, "STD.") == TimeCell(parse, date, Field(labels, row, "STD"), sta)
    && Field(labels, row, "ATD.")
       == (if canceled then Field(labels, row, "STD.") else TimeCell(parse, date, Field(labels, row, "ATD"), sta))
  }

  /** Lemma: the collapse turns computed times into settled ones. */
  lemma CollapsedRow(parse: Cell -> DateRead, t: Table, i: int)
    requires Rect(t) && HasTimeColumns(t) && 0 <= i < |t.rows|
    requires TimesComputed(parse, t.labels, t.rows[i])
    ensures TimesSettled(parse, t.labels, Collapsed(t).rows[i])
  {
    CollapsedKeepsInputs(t, i);
    CollapsedField(t, i, "STA.");
    CollapsedField(t, i, "ATA.");
    CollapsedField(t, i, "STD.");
    CollapsedField(t, i, "ATD.");
  }

  // ------------------------------------------------------------ derived columns

  /** Lines 100-103 change no column but the four they assign. */
  lemma DerivedKeeps(t: Table, i: int, other: string)
    requires Rect(t) && 0 <= i < |t.rows|
    requires other != "Customer" && other != "Services" && other != "Is Canceled" && other != "Category"
    ensures Field(WithDerivedColumns(t).labels, WithDerivedColumns(t).rows[i], other) == Field(t.labels, t.rows[i], other)
  {
    var t1 := WithCustomer(t);
    var t2 := WithColumn(t1, "Services", ServiceValues(t1));
    var t3 := WithColumn(t2, "Is Canceled", CanceledFlags(t2));
    WithColumnGet(t, "Customer", CustomerValues(t), i, other);
    WithColumnGet(t1, "Services", ServiceValues(t1), i, other);
    WithColumnGet(t2, "Is Canceled", CanceledFlags(t2), i, other);
    WithColumnGet(t3, "Category", CategoryValues(t3), i, other);
  }

  /** The four derived columns of a row, as lines 100, 102 and 103 compute them from
      its flight number and its remark. */
  predicate DerivedComputed(labels: seq<Label>, row: seq<Cell>) {
    var remark := Remark(labels, row);
    && Field(labels, row, "Customer") == Text(CustomerCode(Field(labels, row, "FLT NO.")))
    && Field(labels, row, "Is Canceled") == Flag(IsCanceled(remark))
    && Field(labels, row, "Category") == Text(CategoryLabel(Categorize(remark)))
  }

  /** The customer column survives the three later assignments. */
  lemma DerivedCustomer(t: Table, i: int)
    requires Rect(t) && 0 <= i < |t.rows|
    ensures Field(WithDerivedColumns(t).labels, WithDerivedColumns(t).rows[i], "Customer")
            == Text(CustomerCode(Field(t.labels, t.rows[i], "FLT NO.")))
  {
    var t1 := WithCustomer(t);
    var t2 := WithColumn(t1, "Services", ServiceValues(t1));
    var t3 := WithColumn(t2, "Is Canceled", CanceledFlags(t2));
    WithColumnGet(t, "Customer", CustomerValues(t), i, "Customer");
    WithColumnGet(t1, "Services", ServiceValues(t1), i, "Customer");
    WithColumnGet(t2, "Is Canceled", CanceledFlags(t2), i, "Customer");
    WithColumnGet(t3, "Category", CategoryValues(t3), i, "Customer");
  }

  /** Line 101: the services column holds `extract_services` of the row as it is
      after line 100. */
  lemma DerivedServices(t: Table, i: int)
    requires Rect(t) && 0 <= i < |t.rows|
    ensures Field(WithDerivedColumns(t).labels, WithDerivedColumns(t).rows[i], "Services")
            == FromOption(Services(WithCustomer(t).labels, WithCustomer(t).rows[i]))
  {
    var t1 := WithCustomer(t);
    var t2 := WithColumn(t1, "Services", ServiceValues(t1));
    var t3 := WithColumn(t2, "Is Canceled", CanceledFlags(t2));
    WithColumnGet(t1, "Services", ServiceValues(t1), i, "Services");
    WithColumnGet(t2, "Is Canceled", CanceledFlags(t2), i, "Services");
    WithColumnGet(t3, "Category", CategoryValues(t3), i, "Services");
  }

  lemma DerivedFlagAndCategory(t: Table, i: int)
    requires Rect(t) && 0 <= i < |t.rows|
    ensures var d, remark := WithDerivedColumns(t), Remark(t.labels, t.rows[i]);
      && Field(d.labels, d.rows[i], "Is Canceled") == Flag(IsCanceled(remark))
      && Field(d.labels, d.rows[i], "Category") == Text(CategoryLabel(Categorize(remark)))
  {
    var t1 := WithCustomer(t);
    var t2 := WithColumn(t1, "Services", ServiceValues(t1));
    var t3 := WithColumn(t2, "Is Canceled", CanceledFlags(t2));
    WithColumnGet(t, "Customer", CustomerValues(t), i, RemarksColumn);
    WithColumnGet(t1, "Services", ServiceValues(t1), i, RemarksColumn);
    WithColumnGet(t2, "Is Canceled", CanceledFlags(t2), i, RemarksColumn);
    WithColumnGet(t3, "Category", CategoryValues(t3), i, "Is Canceled");
    WithColumnGet(t3, "Category", CategoryValues(t3), i, "Category");
  }

  /** Everything lines 91-103 establish about a row. */
  predicate RowInvariant(parse: Cell -> DateRead, labels: seq<Label>, row: seq<Cell>) {
    TimesSettled(parse, labels, row) && DerivedComputed(labels, row)
  }

  /** The four time columns of two rows agree. */
  predicate SameTimes(l1: seq<Label>, r1: seq<Cell>, l2: seq<Label>, r2: seq<Cell>) {
    && Field(l1, r1, "STA.") == Field(l2, r2, "STA.")
    && Field(l1, r1, "ATA.") == Field(l2, r2, "ATA.")
    && Field(l1, r1, "STD.") == Field(l2, r2, "STD.")
    && Field(l1, r1, "ATD.") == Field(l2, r2, "ATD.")
  }

  /** Settled times depend only on the inputs and the time columns. */
  lemma SettledTransfer(parse: Cell -> DateRead, l1: seq<Label>, r1: seq<Cell>, l2: seq<Label>, r2: seq<Cell>)
    requires SameInputs(l1, r1, l2, r2) && SameTimes(l1, r1, l2, r2)
    requires TimesSettled(parse, l2, r2)
    ensures TimesSettled(parse, l1, r1)
  {
  }

  /** The derived columns keep the inputs and the time columns. */
  lemma DerivedKeepsTimes(t: Table, i: int)
    requires Rect(t) && 0 <= i < |t.rows|
    ensures var d := WithDerivedColumns(t);
      SameInputs(d.labels, d.rows[i], t.labels, t.rows[i]) && SameTimes(d.labels, d.rows[i], t.labels, t.rows[i])
  {
    DerivedKeeps(t, i, "DATE");
    DerivedKeeps(t, i, "STA");
    DerivedKeeps(t, i, "ATA");
    DerivedKeeps(t, i, "STD");
    DerivedKeeps(t, i, "ATD");
    DerivedKeeps(t, i, RemarksColumn);
    DerivedKeeps(t, i, "STA.");
    DerivedKeeps(t, i, "ATA.");
    DerivedKeeps(t, i, "STD.");
    DerivedKeeps(t, i, "ATD.");
  }

  /** Lemma: after lines 100-103 a row with settled times satisfies the row
      invariant. */
  lemma DerivedRow(parse: Cell -> DateRead, t: Table, i: int)
    requires Rect(t) && 0 <= i < |t.rows| && TimesSettled(parse, t.labels, t.rows[i])
    ensures RowInvariant(parse, WithDerivedColumns(t).labels, WithDerivedColumns(t).rows[i])
  {
    var d := WithDerivedColumns(t);
    DerivedKeepsTimes(t, i);
    SettledTransfer(parse, d.labels, d.rows[i], t.labels, t.rows[i]);
    DerivedKeeps(t, i, "FLT NO.");
    DerivedCustomer(t, i);
    DerivedFlagAndCategory(t, i);
  }

  // ------------------------------------------------------------------ end to end

  /** Lemma: row `i` of the frame after lines 91-103 satisfies the row invariant
      and reads the DATE, raw times and remark of row `i` of the frame before. */
  lemma UnsortedRow(parse: Cell -> DateRead, t0: Table, i: int)
    requires Rect(t0) && 0 <= i < |t0.rows|
    ensures var u := Unsorted(parse, t0);
      RowInvariant(parse, u.labels, u.rows[i]) && SameInputs(u.labels, u.rows[i], t0.labels, t0.rows[i])
  {
    var t1 := Timed(parse, t0);
    TimedLabels(parse, t0);
    var t2 := Collapsed(t1);
    TimedRow(parse, t0, i);
    TimedKeepsRaw(parse, t0, i);
    TimedKeeps(parse, t0, i, RemarksColumn);
    CollapsedRow(parse, t1, i);
    CollapsedKeepsInputs(t1, i);
    DerivedRow(parse, t2, i);
    DerivedKeepsTimes(t2, i);
  }

  /** Lemma: every row of the prepared frame satisfies the row invariant and comes
      from a row of the cleaned frame `t0`, whose DATE, raw times and remark it
      keeps. */
  lemma PreparedRow(parse: Cell -> DateRead, t0: Table, x: seq<Cell>)
    requires Rect(t0) && x in Prepared(parse, t0).rows
    ensures var t := Prepared(parse, t0);
      && RowInvariant(parse, t.labels, x)
      && exists i :: 0 <= i < |t0.rows| && SameInputs(t.labels, x, t0.labels, t0.rows[i])
  {
    var u := Unsorted(parse, t0);
    SortedRows(parse, t0, x);
    var i :| 0 <= i < |u.rows| && u.rows[i] == x;
    UnsortedRow(parse, t0, i);
  }

  /** The sort keeps the labels and the rows, only reordering them. */
  lemma SortedRows(parse: Cell -> DateRead, t0: Table, x: seq<Cell>)
    requires Rect(t0)
    ensures Prepared(parse, t0).labels == Unsorted(parse, t0).labels
    ensures x in Prepared(parse, t0).rows <==> x in Unsorted(parse, t0).rows
  {
    var u := Unsorted(parse, t0);
    var rows := SortBy(RowKey(u.labels), u.rows);
    assert x in rows <==> x in multiset(rows);
  }

  /** The columns `process_file` reads with `df[...]` or `row[...]`. */
  predicate IsReadColumn(name: string) {
    name == "DATE" || name == "STA" || name == "ATA" || name == RemarksColumn || name == "FLT NO."
  }

  predicate HasReadColumns(labels: seq<Label>) {
    && Named("DATE") in labels && Named("STA") in labels && Named("ATA") in labels
    && Named(RemarksColumn) in labels && Named("FLT NO.") in labels
  }

  /** The time columns do not change whether the `.str` accessor accepts the
      remarks. */
  lemma TimedAccessor(parse: Cell -> DateRead, t: Table)
    requires Rect(t)
    ensures StrAccessorOk(Timed(parse, t)) <==> StrAccessorOk(t)
  {
    var t1 := Timed(parse, t);
    if StrAccessorOk(t) && |t.rows| > 0 {
      var i :| 0 <= i < |t.rows| && Field(t.labels, t.rows[i], RemarksColumn).Text?;
      TimedKeeps(parse, t, i, RemarksColumn);
    }
    if StrAccessorOk(t1) && |t1.rows| > 0 {
      var i :| 0 <= i < |t1.rows| && Field(t1.labels, t1.rows[i], RemarksColumn).Text?;
      TimedKeeps(parse, t, i, RemarksColumn);
    }
  }

  /** The time columns change none of the checks, so running them on the frame
      after lines 91-94, as the source does for the later ones, finds the same
      error. */
  lemma TimedErrors(parse: Cell -> DateRead, t: Table)
    requires Rect(t)
    ensures FirstError(Timed(parse, t)) == FirstError(t)
  {
    TimedLabels(parse, t);
    TimedAccessor(parse, t);
  }

  /** Lemma: on the cleaned frame `t0`, `process_file` raises exactly when a column
      it reads is absent or the `.str` accessor refuses the remarks. */
  lemma ProcessRaises(parse: Cell -> DateRead, t0: Table)
    requires Rect(t0)
    ensures Run(parse, t0).Raised? <==> !HasReadColumns(t0.labels) || !StrAccessorOk(t0)
  {
    FirstErrorCause(t0);
  }

  /** The checks find no error exactly when every column read is present and the
      `.str` accessor accepts the remarks. */
  lemma FirstErrorCause(t0: Table)
    ensures FirstError(t0).None? <==> HasReadColumns(t0.labels) && StrAccessorOk(t0)
  {
  }

  /** Lemma: a missing column is reported by its name, and a refused remarks column
      only once DATE, STA, ATA and the remarks column are known to be there (FLT NO.
      is read after the remarks). */
  lemma ProcessErrors(parse: Cell -> DateRead, t0: Table)
    requires Rect(t0) && Run(parse, t0).Raised?
    ensures var e := Run(parse, t0).error;
      && (e.MissingColumn? ==> IsReadColumn(e.name) && Named(e.name) !in t0.labels)
      && (e.RemarksNotText? ==>
            && Named("DATE") in t0.labels && Named("STA") in t0.labels && Named("ATA") in t0.labels
            && Named(RemarksColumn) in t0.labels && !StrAccessorOk(t0))
  {
  }

  /** How the sort key orders two rows that satisfy the row invariant: by the
      priority of their category, then, within a category, by STA. text with a
      missing STA. last. */
  lemma KeyOrder(parse: Cell -> DateRead, labels: seq<Label>, x: seq<Cell>, y: seq<Cell>)
    requires RowInvariant(parse, labels, x) && RowInvariant(parse, labels, y)
    requires KeyLe(RowKey(labels)(x), RowKey(labels)(y))
    ensures var a, b := Categorize(Remark(labels, x)), Categorize(Remark(labels, y));
      && Rank(a) <= Rank(b)
      && (a == b ==> SecondaryLe(CellText(Field(labels, x, "STA.")), CellText(Field(labels, y, "STA."))))
  {
    var a, b := Categorize(Remark(labels, x)), Categorize(Remark(labels, y));
    assert RowKey(labels)(x).primary == CategoryLabel(a);
    assert RowKey(labels)(y).primary == CategoryLabel(b);
    CategoryOrderIsPriority(a, b);
    CategoryOrderIsPriority(b, a);
    StrLessIrreflexive(CategoryLabel(a));
  }

  /** Lemma: the prepared rows come in category priority order (transit, engineer
      on call, cancelled without notice, on call recorded, other) and, within one
      category, in STA. order with rows lacking STA. last. */
  lemma PreparedInPriorityOrder(parse: Cell -> DateRead, t0: Table, i: int, j: int)
    requires Rect(t0) && 0 <= i < j < |t0.rows|
    ensures var t := Prepared(parse, t0);
      var a, b := Categorize(Remark(t.labels, t.rows[i])), Categorize(Remark(t.labels, t.rows[j]));
      && Rank(a) <= Rank(b)
      && (a == b ==> SecondaryLe(CellText(Field(t.labels, t.rows[i], "STA.")), CellText(Field(t.labels, t.rows[j], "STA."))))
  {
    var t, u := Prepared(parse, t0), Unsorted(parse, t0);
    SortBySorted(RowKey(u.labels), u.rows);
    PreparedRow(parse, t0, t.rows[i]);
    PreparedRow(parse, t0, t.rows[j]);
    KeyOrder(parse, t.labels, t.rows[i], t.rows[j]);
  }

  /** Lemma: the report date is present exactly when the cleaned frame has a row; it
      is then the DATE cell of a row of the cleaned frame, and of the row sorted
      first, whose category has the highest priority of all. */
  lemma ReportDate(parse: Cell -> DateRead, t0: Table)
    requires Rect(t0) && Run(parse, t0).Done?
    ensures var o, t := Run(parse, t0).output, Prepared(parse, t0);
      && (o.reportDate.Some? <==> |t0.rows| > 0)
      && (o.reportDate.Some? ==>
            && o.reportDate == Some(Field(t.labels, t.rows[0], "DATE"))
            && (exists i :: 0 <= i < |t0.rows| && o.reportDate.value == Field(t0.labels, t0.rows[i], "DATE"))
            && forall y :: y in t.rows ==>
                 Rank(Categorize(Remark(t.labels, t.rows[0]))) <= Rank(Categorize(Remark(t.labels, y))))
  {
    var t, u := Prepared(parse, t0), Unsorted(parse, t0);
    if |t.rows| > 0 {
      PreparedRow(parse, t0, t.rows[0]);
      SortBySorted(RowKey(u.labels), u.rows);
      forall y | y in t.rows
        ensures Rank(Categorize(Remark(t.labels, t.rows[0]))) <= Rank(Categorize(Remark(t.labels, y)))
      {
        SortedFirstIsLeast(RowKey(u.labels), t.rows, y);
        PreparedRow(parse, t0, y);
        KeyOrder(parse, t.labels, t.rows[0], y);
      }
    }
  }

  /** Lemma: every row of the cleaned frame comes out exactly once, as a record or
      as an outlier; the outliers are rows of the prepared frame whose record could
      not be built, with one cell per output column. */
  lemma EveryRowOnce(parse: Cell -> DateRead, t0: Table)
    requires Rect(t0)
    ensures var t := Prepared(parse, t0);
      && |NormalRecords(parse, t.labels, t.rows)| + |OutlierRows(parse, t.labels, t.rows)| == |t0.rows|
      && forall x :: x in OutlierRows(parse, t.labels, t.rows) ==>
           x in t.rows && Assemble(parse, t.labels, x).None? && |x| == |t.labels|
  {
    var t := Prepared(parse, t0);
    SplitRowsMeaning(parse, t.labels, t.rows, []);
    forall x | x in OutlierRows(parse, t.labels, t.rows)
      ensures x in t.rows && Assemble(parse, t.labels, x).None? && |x| == |t.labels|
    {
      SplitRowsMeaning(parse, t.labels, t.rows, x);
    }
  }

  /** Lemma: when `process_file` returns, each row of the sheet that is not entirely
      empty gives one line of output, and one blank separator line is added exactly
      when some row is an outlier; the report date is present exactly when there is
      such a row. */
  lemma OutputLines(parse: Cell -> DateRead, sheet: Table)
    requires Rect(sheet) && Process(parse, sheet).Done?
    ensures var o, n := Process(parse, sheet).output, |DropEmpty(sheet.rows)|;
      && |o.lines| == n + (if Separator in o.lines then 1 else 0)
      && (o.reportDate.Some? <==> n > 0)
  {
    var t0 := Cleaned(sheet);
    var t := Prepared(parse, t0);
    EveryRowOnce(parse, t0);
    ReportDate(parse, t0);
    LayoutShape(NormalRecords(parse, t.labels, t.rows), OutlierRows(parse, t.labels, t.rows));
  }

  /** Lemma: every record carries station "KKIA", the customer code of its own
      flight number, a boolean cancellation flag, and, when cancelled, its STA. as
      ATA. and its STD. as ATD. */
  lemma RecordGuarantees(parse: Cell -> DateRead, t0: Table, r: Record)
    requires Rect(t0)
    requires r in NormalRecords(parse, Prepared(parse, t0).labels, Prepared(parse, t0).rows)
    ensures r.station == "KKIA" && r.remarks == "" && r.comments == ""
    ensures r.customer == Text(CustomerCode(r.flightNo))
    ensures r.isCanceled.Flag?
    ensures r.isCanceled == Flag(true) ==> r.ata == r.sta && r.atd == r.std
  {
    var t := Prepared(parse, t0);
    var records := NormalRecords(parse, t.labels, t.rows);
    var idx := RecordsInRowOrder(parse, t.labels, t.rows);
    var k :| 0 <= k < |records| && records[k] == r;
    var x := t.rows[idx[k]];
    AssembleFields(parse, t.labels, x);
    PreparedRow(parse, t0, x);
  }
}
