/** The part of a pandas DataFrame that `process_file` relies on: labelled columns over
    rows of cells, and the operations it applies to the frame in place
    (flight_formatter.py:79-104). */
module Frames {
  import opened Options
  import opened Cells
  import opened Sorting

  /** A frame's contents: column labels and rows of cells. */
  datatype Table = Table(labels: seq<Label>, rows: seq<seq<Cell>>)

  /** Every row has one cell per column. */
  predicate Rect(t: Table) {
    forall i :: 0 <= i < |t.rows| ==> |t.rows[i]| == |t.labels|
  }

  /** `row.get(name)`: the cell under the first column labelled `name`, missing when
      there is none. */
  function Field(labels: seq<Label>, row: seq<Cell>, name: string): (c: Cell)
    ensures Named(name) !in labels ==> c.Missing?
  {
    match ColumnIndex(labels, Named(name))
    case Some(k) => if k < |row| then row[k] else Missing
    case None => Missing
  }

  /** Every cell of the row is missing. */
  predicate AllMissing(row: seq<Cell>) {
    forall k :: 0 <= k < |row| ==> row[k].Missing?
  }

  /** `dropna(how='all')`: the rows that are not entirely missing, in their order. */
  function DropEmpty(rows: seq<seq<Cell>>): (r: seq<seq<Cell>>)
    ensures |r| <= |rows|
    ensures forall x :: x in r <==> x in rows && !AllMissing(x)
  {
    if |rows| == 0 then []
    else
      assert rows == [rows[0]] + rows[1..];
      (if AllMissing(rows[0]) then [] else [rows[0]]) + DropEmpty(rows[1..])
  }

  /** Rows without an all-missing row are left as they are, so dropping twice is
      dropping once. */
  lemma {:induction false} DropEmptyKeeps(rows: seq<seq<Cell>>)
    requires forall i :: 0 <= i < |rows| ==> !AllMissing(rows[i])
    ensures DropEmpty(rows) == rows
  {
    if |rows| > 0 {
      DropEmptyKeeps(rows[1..]);
      assert rows == [rows[0]] + rows[1..];
    }
  }

  lemma DropEmptyIdempotent(rows: seq<seq<Cell>>)
    ensures DropEmpty(DropEmpty(rows)) == DropEmpty(rows)
  {
    var r := DropEmpty(rows);
    forall i | 0 <= i < |r|
      ensures !AllMissing(r[i])
    {
      assert r[i] in r;
    }
    DropEmptyKeeps(r);
  }

  /** `rename(columns=f)`: each label replaced by its image, rows untouched. */
  function Relabel(f: Label -> Label, labels: seq<Label>): (r: seq<Label>)
    ensures |r| == |labels|
  {
    seq(|labels|, k requires 0 <= k < |labels| => f(labels[k]))
  }

  /** `df[name] = values`: overwrites the first column labelled `name`, or appends a
      column so labelled when there is none. */
  function WithColumn(t: Table, name: string, values: seq<Cell>): (r: Table)
    requires Rect(t) && |values| == |t.rows|
    ensures Rect(r) && |r.rows| == |t.rows|
  {
    match ColumnIndex(t.labels, Named(name))
    case Some(k) =>
      Table(t.labels, seq(|t.rows|, i requires 0 <= i < |t.rows| => t.rows[i][k := values[i]]))
    case None =>
      Table(t.labels + [Named(name)], seq(|t.rows|, i requires 0 <= i < |t.rows| => t.rows[i] + [values[i]]))
  }

  /** The first position holding a label is where the lookup finds it. */
  lemma FirstPosition(labels: seq<Label>, l: Label, k: nat)
    requires k < |labels| && labels[k] == l
    requires forall j :: 0 <= j < k ==> labels[j] != l
    ensures ColumnIndex(labels, l) == Some(k)
  {
    assert l in labels;
  }

  /** Looking a label up after a label is appended finds what it found before, unless
      it is the appended label. */
  lemma ColumnIndexAppend(labels: seq<Label>, extra: Label, l: Label)
    ensures l != extra ==> ColumnIndex(labels + [extra], l) == ColumnIndex(labels, l)
    ensures extra !in labels ==> ColumnIndex(labels + [extra], extra) == Some(|labels|)
  {
    var all := labels + [extra];
    if l != extra {
      match ColumnIndex(labels, l)
      case Some(k) =>
        FirstPosition(all, l, k);
      case None =>
        forall j | 0 <= j < |all|
          ensures all[j] != l
        {
          if j < |labels| {
            assert all[j] == labels[j];
          }
        }
    }
    if extra !in labels {
      FirstPosition(all, extra, |labels|);
    }
  }

  /** Assigning a column: afterwards every row holds the new value under `name`, and
      every other string label still reads the cell it read before; no label is
      lost. */
  lemma WithColumnGet(t: Table, name: string, values: seq<Cell>, i: int, other: string)
    requires Rect(t) && |values| == |t.rows| && 0 <= i < |t.rows|
    ensures Field(WithColumn(t, name, values).labels, WithColumn(t, name, values).rows[i], name) == values[i]
    ensures other != name ==>
              Field(WithColumn(t, name, values).labels, WithColumn(t, name, values).rows[i], other)
              == Field(t.labels, t.rows[i], other)
  {
    var r := WithColumn(t, name, values);
    match ColumnIndex(t.labels, Named(name))
    case Some(k) =>
      assert r.labels == t.labels;
    case None =>
      ColumnIndexAppend(t.labels, Named(name), Named(name));
      ColumnIndexAppend(t.labels, Named(name), Named(other));
      if other != name {
        match ColumnIndex(t.labels, Named(other))
        case Some(j) =>
          assert r.rows[i][j] == t.rows[i][j];
        case None =>
      }
  }

  /** Assigning a column keeps every label, adds `name`, and adds nothing else. */
  lemma WithColumnLabels(t: Table, name: string, values: seq<Cell>)
    requires Rect(t) && |values| == |t.rows|
    ensures forall l :: l in WithColumn(t, name, values).labels <==> l in t.labels || l == Named(name)
  {
  }

  /** `df.loc[mask, target] = df.loc[mask, source]` for column positions `target` and
      `source`. */
  function CopyWhere(t: Table, mask: seq<bool>, target: nat, source: nat): (r: Table)
    requires Rect(t) && |mask| == |t.rows| && target < |t.labels| && source < |t.labels|
    ensures Rect(r) && r.labels == t.labels && |r.rows| == |t.rows|
  {
    Table(t.labels, seq(|t.rows|, i requires 0 <= i < |t.rows| =>
      if mask[i] then t.rows[i][target := t.rows[i][source]] else t.rows[i]))
  }

  /** A masked copy: selected rows now hold the source cell in the target column,
      every other cell is unchanged. */
  lemma CopyWhereCells(t: Table, mask: seq<bool>, target: nat, source: nat, i: int, k: int)
    requires Rect(t) && |mask| == |t.rows| && target < |t.labels| && source < |t.labels|
    requires 0 <= i < |t.rows| && 0 <= k < |t.labels|
    ensures CopyWhere(t, mask, target, source).rows[i][k]
            == if mask[i] && k == target then t.rows[i][source] else t.rows[i][k]
  {
  }

  /** A masked copy read by label: a selected row reads the source cell under the
      label the target column is found by, and every other read is unchanged. */
  lemma CopyWhereField(t: Table, mask: seq<bool>, target: nat, source: nat, i: int, name: string)
    requires Rect(t) && |mask| == |t.rows| && target < |t.labels| && source < |t.labels|
    requires 0 <= i < |t.rows|
    ensures Field(t.labels, CopyWhere(t, mask, target, source).rows[i], name)
            == if mask[i] && ColumnIndex(t.labels, Named(name)) == Some(target) then t.rows[i][source]
               else Field(t.labels, t.rows[i], name)
  {
    match ColumnIndex(t.labels, Named(name))
    case Some(k) =>
      CopyWhereCells(t, mask, target, source, i, k);
    case None =>
  }

  /** Sorting rows keeps every row whole, so the table stays rectangular. */
  lemma SortKeepsRect(key: seq<Cell> -> SortKey, t: Table)
    requires Rect(t)
    ensures Rect(Table(t.labels, SortBy(key, t.rows)))
  {
    var s := SortBy(key, t.rows);
    forall i | 0 <= i < |s|
      ensures |s[i]| == |t.labels|
    {
      assert s[i] in multiset(t.rows);
    }
  }

  /** A pandas DataFrame as `process_file` mutates it in place. */
  class Frame {
    var labels: seq<Label>
    var rows: seq<seq<Cell>>

    function Contents(): Table
      reads this
    {
      Table(labels, rows)
    }

    /** The frame `read_excel` hands over. */
    constructor (t: Table)
      ensures Contents() == t
    {
      labels := t.labels;
      rows := t.rows;
    }

    /** `df.dropna(how='all', inplace=True)`. */
    method DropEmptyRows()
      modifies this
      ensures Contents() == Table(old(labels), DropEmpty(old(rows)))
    {
      rows := DropEmpty(rows);
    }

    /** `df.rename(columns=f, inplace=True)`. */
    method RenameColumns(f: Label -> Label)
      modifies this
      ensures Contents() == Table(Relabel(f, old(labels)), old(rows))
    {
      labels := Relabel(f, labels);
    }

    /** `df[name] = values`. */
    method SetColumn(name: string, values: seq<Cell>)
      requires Rect(Contents()) && |values| == |rows|
      modifies this
      ensures Contents() == WithColumn(old(Contents()), name, values)
    {
      var r := WithColumn(Contents(), name, values);
      labels, rows := r.labels, r.rows;
    }

    /** `df.loc[mask, target] = df.loc[mask, source]`. */
    method CopyColumnWhere(mask: seq<bool>, target: nat, source: nat)
      requires Rect(Contents()) && |mask| == |rows| && target < |labels| && source < |labels|
      modifies this
      ensures Contents() == CopyWhere(old(Contents()), mask, target, source)
    {
      var r := CopyWhere(Contents(), mask, target, source);
      rows := r.rows;
    }

    /** `df.sort_values(by=..., inplace=True)` with the sort key `key`. */
    method SortValues(key: seq<Cell> -> SortKey)
      modifies this
      ensures Contents() == Table(old(labels), SortBy(key, old(rows)))
    {
      rows := SortBy(key, rows);
    }
  }
}
