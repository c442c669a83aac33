/** The loosely typed spreadsheet cells and column labels the formatter reads,
    resolved once into a tagged union, and `str()` of each kind. */
module Cells {
  import opened Calendar
  import opened PyStrings
  import opened Options

  /** One cell of the report sheet as pandas hands it over. */
  datatype Cell =
    | Missing                                // NaN, None or NaT
    | Text(s: string)                        // str
    | Number(n: int)                         // int (fractional numbers are not modelled)
    | Clock(t: TimeOfDay)                    // datetime.time
    | Stamp(d: CalendarDate, t: TimeOfDay)   // datetime.datetime / pandas Timestamp
    | Flag(b: bool)                          // bool

  /** A column label: header text, or a number when the header cell held one. */
  datatype Label = Named(name: string) | Numbered(n: int)

  /** `str(t)` for a `datetime.time` without microseconds: `HH:MM:SS`. */
  function ClockText(t: TimeOfDay): (s: string)
    ensures |s| == 8
  {
    Pad2(t.hour) + ":" + Pad2(t.minute) + ":" + Pad2(t.second)
  }

  /** `str(cell)`. */
  function Render(c: Cell): string {
    match c
    case Missing => "nan"
    case Text(s) => s
    case Number(n) => IntToString(n)
    case Clock(t) => ClockText(t)
    case Stamp(d, t) => Pad4(d.year) + "-" + Pad2(d.month) + "-" + Pad2(d.day) + " " + ClockText(t)
    case Flag(b) => if b then "True" else "False"
  }

  /** `Some(s)` becomes a text cell, `None` a missing one, as pandas stores an
      `apply` result. */
  function FromOption(o: Option<string>): (c: Cell)
    ensures c.Missing? <==> o.None?
    ensures o.Some? ==> c == Text(o.value)
  {
    match o
    case Some(s) => Text(s)
    case None => Missing
  }

  /** Position of the first column carrying label `l`, as pandas resolves `row[l]`
      (a duplicated label is resolved to its first column). */
  function ColumnIndex(labels: seq<Label>, l: Label): (r: Option<nat>)
    ensures r.Some? ==> r.value < |labels| && labels[r.value] == l
                        && forall j :: 0 <= j < r.value ==> labels[j] != l
    ensures r.None? <==> l !in labels
  {
    if |labels| == 0 then None
    else if labels[0] == l then Some(0)
    else
      match ColumnIndex(labels[1..], l)
      case Some(k) => Some(k + 1)
      case None => None
  }

  /** `row.get(name, default)`. */
  function GetOr(labels: seq<Label>, row: seq<Cell>, name: string, default: Cell): (c: Cell)
    requires |row| == |labels|
    ensures Named(name) !in labels ==> c == default
    ensures Named(name) in labels ==> exists k :: 0 <= k < |labels| && labels[k] == Named(name) && c == row[k]
  {
    match ColumnIndex(labels, Named(name))
    case Some(k) => row[k]
    case None => default
  }
}
