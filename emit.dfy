/** The row loop of `process_file` and what it returns (flight_formatter.py:106-139):
    each sorted row either becomes a normalised record or, when building the record
    raises, an outlier; the output is the records, then a blank separator row and the
    outliers when there are any. */
module Emission {
  import opened Options
  import opened PyStrings
  import opened Calendar
  import opened Cells
  import opened Timestamps
  import opened Derived
  import opened Frames

  /** One normalised output row, field by field as the dictionary at
      flight_formatter.py:110-130 builds it. */
  datatype Record = Record(
    workOrder: Cell, station: string, customer: Cell, flightNo: Cell,
    registration: Cell, aircraft: Cell, date: string,
    sta: Cell, ata: Cell, std: Cell, atd: Cell,
    isCanceled: Cell, services: Cell, employees: string,
    remarks: string, comments: string)

  const Station := "KKIA"

  /** The labels the dictionary reads with `row[...]` are all present; reading one
      that is absent raises KeyError. */
  predicate HasReadLabels(labels: seq<Label>) {
    && Named("W/O") in labels && Named("Customer") in labels && Named("FLT NO.") in labels
    && Named("REG") in labels && Named("A/C TYPES") in labels && Named("DATE") in labels
    && Named("STA.") in labels && Named("ATA.") in labels && Named("STD.") in labels
    && Named("ATD.") in labels && Named("Is Canceled") in labels && Named("Services") in labels
    && Named("ENGR") in labels && Named("TECH") in labels
  }

  /** The `try` block of the row loop: the record, or `None` where it raises. It
      raises when a read label is absent, when DATE is missing, does not parse, or
      parses to `NaT` (whose `strftime` raises ValueError), and when `int()` fails on
      ENGR or TECH. */
  function Assemble(parse: Cell -> DateRead, labels: seq<Label>, row: seq<Cell>)
    : Option<Record>
  {
    var date := Field(labels, row, "DATE");
    var engr := EmployeeId(Field(labels, row, "ENGR"));
    var tech := EmployeeId(Field(labels, row, "TECH"));
    if !HasReadLabels(labels) || date.Missing? || !parse(date).Day? || engr.Raises? || tech.Raises?
    then None
    else
      Some(Record(
        Field(labels, row, "W/O"), Station, Field(labels, row, "Customer"),
        Field(labels, row, "FLT NO."), Field(labels, row, "REG"), Field(labels, row, "A/C TYPES"),
        FormatDate(parse(date).value),
        Field(labels, row, "STA."), Field(labels, row, "ATA."),
        Field(labels, row, "STD."), Field(labels, row, "ATD."),
        Field(labels, row, "Is Canceled"), Field(labels, row, "Services"),
        Employees(engr, tech), "", ""))
  }

  /** A row yields a record exactly when every read label is present, DATE is
      present and parses to a day, and neither employee cell raises. */
  lemma AssembleSucceeds(parse: Cell -> DateRead, labels: seq<Label>, row: seq<Cell>)
    ensures var date := Field(labels, row, "DATE");
      Assemble(parse, labels, row).Some? <==>
        && HasReadLabels(labels) && !date.Missing? && parse(date).Day?
        && !EmployeeId(Field(labels, row, "ENGR")).Raises?
        && !EmployeeId(Field(labels, row, "TECH")).Raises?
  {
  }

  /** A record carries the station "KKIA", the row's own time, status and service
      cells, the employee list, and empty remarks and comments. */
  lemma AssembleFields(parse: Cell -> DateRead, labels: seq<Label>, row: seq<Cell>)
    requires Assemble(parse, labels, row).Some?
    ensures var r := Assemble(parse, labels, row).value;
      && r.station == Station && r.remarks == "" && r.comments == ""
      && r.sta == Field(labels, row, "STA.") && r.ata == Field(labels, row, "ATA.")
      && r.std == Field(labels, row, "STD.") && r.atd == Field(labels, row, "ATD.")
      && r.isCanceled == Field(labels, row, "Is Canceled")
      && r.employees == Employees(EmployeeId(Field(labels, row, "ENGR")), EmployeeId(Field(labels, row, "TECH")))
  {
  }

  /** A record's date reads back, as the date part of a timestamp, to the parsed DATE
      cell. */
  lemma AssembleDate(parse: Cell -> DateRead, labels: seq<Label>, row: seq<Cell>)
    requires Assemble(parse, labels, row).Some?
    ensures parse(Field(labels, row, "DATE")).Day?
    ensures ReadStamp(Assemble(parse, labels, row).value.date + " 00:00:00")
            == Some(Fields(parse(Field(labels, row, "DATE")).value, 0, 0, 0))
  {
    var d := parse(Field(labels, row, "DATE")).value;
    assert Assemble(parse, labels, row).value.date == FormatDate(d);
    ReadDateAtMidnight(d);
  }

  /** The results `f` yields, in order, skipping the elements where it yields
      none. */
  function Successes<X, Y>(f: X -> Option<Y>, xs: seq<X>): seq<Y> {
    if |xs| == 0 then []
    else
      var n := |xs| - 1;
      Successes(f, xs[..n]) + (if f(xs[n]).Some? then [f(xs[n]).value] else [])
  }

  /** The elements where `f` yields nothing, unchanged and in order. */
  function Failures<X, Y>(f: X -> Option<Y>, xs: seq<X>): seq<X> {
    if |xs| == 0 then []
    else
      var n := |xs| - 1;
      Failures(f, xs[..n]) + (if f(xs[n]).None? then [xs[n]] else [])
  }

  /** One more element extends exactly one of the two lists. */
  lemma SplitStep<X, Y>(f: X -> Option<Y>, xs: seq<X>, i: nat)
    requires i < |xs|
    ensures Successes(f, xs[..i + 1]) == Successes(f, xs[..i]) + (if f(xs[i]).Some? then [f(xs[i]).value] else [])
    ensures Failures(f, xs[..i + 1]) == Failures(f, xs[..i]) + (if f(xs[i]).None? then [xs[i]] else [])
  {
    assert xs[..i + 1][..i] == xs[..i];
  }

  /** Every element goes to exactly one of the two lists. */
  lemma {:induction false} SplitCount<X, Y>(f: X -> Option<Y>, xs: seq<X>)
    ensures |Successes(f, xs)| + |Failures(f, xs)| == |xs|
  {
    if |xs| > 0 {
      SplitCount(f, xs[..|xs| - 1]);
    }
  }

  /** An element is a failure exactly when it is one of the elements and `f` yields
      nothing for it. */
  lemma {:induction false} FailureMembership<X, Y>(f: X -> Option<Y>, xs: seq<X>, x: X)
    ensures x in Failures(f, xs) <==> x in xs && f(x).None?
  {
    if |xs| > 0 {
      var n := |xs| - 1;
      var prev := Failures(f, xs[..n]);
      FailureMembership(f, xs[..n], x);
      InFrontOrLast(xs, x);
      if f(xs[n]).None? {
        assert Failures(f, xs) == prev + [xs[n]];
      } else {
        assert Failures(f, xs) == prev;
      }
    }
  }

  /** An element of a non-empty sequence is in all but its last element, or is the
      last one. */
  lemma InFrontOrLast<T>(s: seq<T>, x: T)
    requires |s| > 0
    ensures x in s <==> x in s[..|s| - 1] || x == s[|s| - 1]
  {
    assert s == s[..|s| - 1] + [s[|s| - 1]];
  }

  /** The successes are the results of the elements that have one, in order: success
      `k` comes from element `idx[k]`, and the positions strictly increase. */
  lemma {:induction false} SuccessesInOrder<X, Y>(f: X -> Option<Y>, xs: seq<X>) returns (idx: seq<nat>)
    ensures |idx| == |Successes(f, xs)|
    ensures forall k :: 0 <= k < |idx| ==> idx[k] < |xs| && f(xs[idx[k]]) == Some(Successes(f, xs)[k])
    ensures forall k, l :: 0 <= k < l < |idx| ==> idx[k] < idx[l]
  {
    if |xs| == 0 {
      idx := [];
    } else {
      var n := |xs| - 1;
      var front, all := Successes(f, xs[..n]), Successes(f, xs);
      var prev := SuccessesInOrder(f, xs[..n]);
      assert all == front + (if f(xs[n]).Some? then [f(xs[n]).value] else []);
      idx := if f(xs[n]).Some? then prev + [n] else prev;
      forall k | 0 <= k < |idx|
        ensures idx[k] < |xs| && f(xs[idx[k]]) == Some(all[k])
      {
        if k < |prev| {
          assert idx[k] == prev[k] && xs[prev[k]] == xs[..n][prev[k]] && all[k] == front[k];
        }
      }
    }
  }

  /** The `try` block as a function of the row. */
  function Assembler(parse: Cell -> DateRead, labels: seq<Label>): seq<Cell> -> Option<Record> {
    row => Assemble(parse, labels, row)
  }

  /** The records of the rows that do not raise, in row order. */
  function NormalRecords(parse: Cell -> DateRead, labels: seq<Label>, rows: seq<seq<Cell>>)
    : seq<Record>
  {
    Successes(Assembler(parse, labels), rows)
  }

  /** The rows that raise, unchanged and in row order. */
  function OutlierRows(parse: Cell -> DateRead, labels: seq<Label>, rows: seq<seq<Cell>>)
    : seq<seq<Cell>>
  {
    Failures(Assembler(parse, labels), rows)
  }

  /** Lemma: every row goes to exactly one of the two lists; a row is an outlier
      exactly when it is one of the rows and building its record raises. */
  lemma SplitRowsMeaning(parse: Cell -> DateRead, labels: seq<Label>, rows: seq<seq<Cell>>, x: seq<Cell>)
    ensures |NormalRecords(parse, labels, rows)| + |OutlierRows(parse, labels, rows)| == |rows|
    ensures x in OutlierRows(parse, labels, rows) <==> x in rows && Assemble(parse, labels, x).None?
  {
    SplitCount(Assembler(parse, labels), rows);
    FailureMembership(Assembler(parse, labels), rows, x);
  }

  /** Lemma: the records are those of the non-raising rows, in the rows' order:
      record `k` comes from row `idx[k]`, and the positions strictly increase. */
  lemma RecordsInRowOrder(parse: Cell -> DateRead, labels: seq<Label>, rows: seq<seq<Cell>>)
    returns (idx: seq<nat>)
    ensures |idx| == |NormalRecords(parse, labels, rows)|
    ensures forall k :: 0 <= k < |idx| ==>
              idx[k] < |rows| && Assemble(parse, labels, rows[idx[k]]) == Some(NormalRecords(parse, labels, rows)[k])
    ensures forall k, l :: 0 <= k < l < |idx| ==> idx[k] < idx[l]
  {
    idx := SuccessesInOrder(Assembler(parse, labels), rows);
  }

  /** One line of the output frame. */
  datatype Line = Normal(record: Record) | Separator | Outlier(cells: seq<Cell>)

  /** `pd.DataFrame(normal_rows)`, then, only when there are outliers, the blank row
      `pd.DataFrame([{}])` and the outlier rows. */
  function Layout(records: seq<Record>, outliers: seq<seq<Cell>>): seq<Line> {
    seq(|records|, k requires 0 <= k < |records| => Normal(records[k]))
    + (if |outliers| == 0 then []
       else [Separator] + seq(|outliers|, k requires 0 <= k < |outliers| => Outlier(outliers[k])))
  }

  /** The records come first in order; a separator appears exactly when there are
      outliers, right after the records and before the outliers in order. */
  lemma LayoutShape(records: seq<Record>, outliers: seq<seq<Cell>>)
    ensures var lines := Layout(records, outliers);
      && |lines| == |records| + (if |outliers| == 0 then 0 else 1 + |outliers|)
      && (forall k :: 0 <= k < |records| ==> lines[k] == Normal(records[k]))
      && (Separator in lines <==> |outliers| > 0)
      && (|outliers| > 0 ==>
            && lines[|records|] == Separator
            && forall k :: 0 <= k < |outliers| ==> lines[|records| + 1 + k] == Outlier(outliers[k]))
  {
    var lines := Layout(records, outliers);
    if |outliers| == 0 {
      forall j | 0 <= j < |lines|
        ensures lines[j] != Separator
      {
        assert lines[j] == Normal(records[j]);
      }
    } else {
      assert lines[|records|] == Separator;
    }
  }

  /** What `process_file` returns: the output frame's lines, the columns of the
      sorted frame (the outlier rows keep them), and the report date. */
  datatype Output = Output(lines: seq<Line>, columns: seq<Label>, reportDate: Option<Cell>)

  /** Lines 106-139 over the sorted frame: the split, the layout, and the DATE cell of
      the first row (`None` for an empty frame). */
  function Emit(parse: Cell -> DateRead, t: Table): Output {
    Output(Layout(NormalRecords(parse, t.labels, t.rows), OutlierRows(parse, t.labels, t.rows)),
           t.labels,
           if |t.rows| == 0 then None else Some(Field(t.labels, t.rows[0], "DATE")))
  }
}
