/** Remark-driven classification: `categorize` (flight_formatter.py:64-75), the
    cancellation test of flight_formatter.py:96 and 102, and `extract_services`
    (flight_formatter.py:37-62). */
module Classify {
  import opened Options
  import opened PyStrings
  import opened Cells

  const RemarksColumn := "OTHER SERVICES/REMARKS"
  const CheckMark := "\U{221A}"

  const EngineerSupport := "ON CALL - NEEDED ENGINEER SUPPORT"
  const OnCall := "ON CALL"

  /** The five mutually exclusive service categories, in priority order. */
  datatype Category = Transit | OnCallEngineer | CanceledNoNotice | OnCallRecorded | Other

  /** The label written to the `Category` column; its digit prefix carries the priority. */
  function CategoryLabel(c: Category): string {
    match c
    case Transit => "1_TRANSIT"
    case OnCallEngineer => "2_ONCALL_ENGINEER"
    case CanceledNoNotice => "3_CANCELED"
    case OnCallRecorded => "4_ONCALL_RECORDED"
    case Other => "5_OTHER"
  }

  /** Position in the priority list, 1 first. */
  function Rank(c: Category): (n: nat)
    ensures 1 <= n <= 5
  {
    match c
    case Transit => 1
    case OnCallEngineer => 2
    case CanceledNoNotice => 3
    case OnCallRecorded => 4
    case Other => 5
  }

  /** `str(remark).upper()`. */
  function RemarkText(remark: Cell): string {
    Upper(Render(remark))
  }

  predicate MentionsCancel(u: string) {
    Contains(u, "CANCELED") || Contains(u, "CANCELLED")
  }

  predicate MentionsNoNotice(u: string) {
    Contains(u, "CANCELED WITHOUT NOTICE") || Contains(u, "CANCELLED WITHOUT NOTICE")
  }

  /** `categorize`: the first rule that matches the upper-cased remark wins. */
  function Categorize(remark: Cell): Category {
    var u := RemarkText(remark);
    if Contains(u, "TRANSIT") then Transit
    else if Contains(u, EngineerSupport) then OnCallEngineer
    else if MentionsNoNotice(u) then CanceledNoNotice
    else if Contains(u, OnCall) then OnCallRecorded
    else Other
  }

  /** `str.contains('CANCELED|CANCELLED', case=False, na=False)` on one remark cell:
      only text cells can match; a missing remark is not cancelled. */
  predicate IsCanceled(remark: Cell) {
    remark.Text? && MentionsCancel(Upper(remark.s))
  }

  /** The one entry the remark adds to the services list, if any. */
  function RemarkService(remark: Cell): Option<string> {
    var u := RemarkText(remark);
    if Contains(u, EngineerSupport) then Some("On Call")
    else if MentionsNoNotice(u) then Some("Canceled without notice")
    else if MentionsCancel(u) then Some("Cancelled Flight")
    else if Contains(u, OnCall) then Some("Per Landing")
    else None
  }

  /** The two renames `extract_services` applies to each entry. */
  function Corrected(service: string): string {
    if service == "TECH. SUPT" then "TECH SUPPORT"
    else if service == "HEAD SET" then "Headset"
    else service
  }

  /** `str(cell).strip() == '√'`. */
  predicate IsChecked(c: Cell) {
    Strip(Render(c)) == CheckMark
  }

  /** The stripped names of the string-labelled columns whose cell holds a checkmark,
      in column order. */
  function CheckedNames(labels: seq<Label>, row: seq<Cell>): seq<string>
    requires |row| == |labels|
  {
    if |labels| == 0 then []
    else
      var n := |labels| - 1;
      CheckedNames(labels[..n], row[..n])
      + (if labels[n].Named? && IsChecked(row[n]) then [Strip(labels[n].name)] else [])
  }

  function Corrections(services: seq<string>): (r: seq<string>)
    ensures |r| == |services| && forall i :: 0 <= i < |r| ==> r[i] == Corrected(services[i])
  {
    seq(|services|, i requires 0 <= i < |services| => Corrected(services[i]))
  }

  /** The corrected services list: checked columns, then the remark entry. */
  function ServiceList(labels: seq<Label>, row: seq<Cell>): seq<string>
    requires |row| == |labels|
  {
    var remark := GetOr(labels, row, RemarksColumn, Text(""));
    Corrections(CheckedNames(labels, row)
                + (if RemarkService(remark).Some? then [RemarkService(remark).value] else []))
  }

  /** What `extract_services` returns: the list joined with ", ", or `None` when empty. */
  function Services(labels: seq<Label>, row: seq<Cell>): Option<string>
    requires |row| == |labels|
  {
    var list := ServiceList(labels, row);
    if |list| == 0 then None else Some(Join(list, ", "))
  }

  /** The first loop of `extract_services`: every string-labelled column whose cell
      reads as a checkmark contributes its stripped label. */
  method CheckedColumns(labels: seq<Label>, row: seq<Cell>) returns (services: seq<string>)
    requires |row| == |labels|
    ensures services == CheckedNames(labels, row)
  {
    services := [];
    for i := 0 to |labels|
      invariant services == CheckedNames(labels[..i], row[..i])
    {
      CheckedNamesStep(labels, row, i);
      if labels[i].Named? && Strip(Render(row[i])) == CheckMark {
        services := services + [Strip(labels[i].name)];
      }
    }
    assert labels[..|labels|] == labels && row[..|row|] == row;
  }

  /** The last loop of `extract_services`: each entry renamed by `Corrected`. */
  method CorrectServices(services: seq<string>) returns (corrected: seq<string>)
    ensures corrected == Corrections(services)
  {
    corrected := [];
    for i := 0 to |services|
      invariant |corrected| == i
      invariant forall k :: 0 <= k < i ==> corrected[k] == Corrected(services[k])
    {
      var entry;
      if services[i] == "TECH. SUPT" {
        entry := "TECH SUPPORT";
      } else if services[i] == "HEAD SET" {
        entry := "Headset";
      } else {
        entry := services[i];
      }
      corrected := corrected + [entry];
    }
  }

  /** `extract_services(row)`, step by step as the source builds its two lists. */
  method ExtractServices(labels: seq<Label>, row: seq<Cell>) returns (r: Option<string>)
    requires |row| == |labels|
    ensures r == Services(labels, row)
  {
    var services := CheckedColumns(labels, row);
    var remarkCell := GetOr(labels, row, RemarksColumn, Text(""));
    var remark := RemarkText(remarkCell);
    if Contains(remark, EngineerSupport) {
      services := services + ["On Call"];
    } else if Contains(remark, "CANCELED WITHOUT NOTICE") || Contains(remark, "CANCELLED WITHOUT NOTICE") {
      services := services + ["Canceled without notice"];
    } else if Contains(remark, "CANCELED") || Contains(remark, "CANCELLED") {
      services := services + ["Cancelled Flight"];
    } else if Contains(remark, OnCall) {
      services := services + ["Per Landing"];
    }
    assert services == CheckedNames(labels, row)
      + (if RemarkService(remarkCell).Some? then [RemarkService(remarkCell).value] else []);
    var corrected := CorrectServices(services);
    r := if |corrected| > 0 then Some(Join(corrected, ", ")) else None;
  }

  /** Extending the scanned prefix by one column appends that column's entry, if any. */
  lemma CheckedNamesStep(labels: seq<Label>, row: seq<Cell>, i: nat)
    requires |row| == |labels| && i < |labels|
    ensures CheckedNames(labels[..i + 1], row[..i + 1])
            == CheckedNames(labels[..i], row[..i])
               + (if labels[i].Named? && IsChecked(row[i]) then [Strip(labels[i].name)] else [])
  {
    assert labels[..i + 1][..i] == labels[..i] && row[..i + 1][..i] == row[..i];
  }

  /** Column `k` is string-labelled, checked, and its stripped label is `x`. */
  predicate CheckedAt(labels: seq<Label>, row: seq<Cell>, k: int, x: string)
    requires |row| == |labels|
  {
    0 <= k < |labels| && labels[k].Named? && IsChecked(row[k]) && Strip(labels[k].name) == x
  }

  /** A column of a prefix is checked in the prefix exactly when it is in the row. */
  lemma CheckedAtPrefix(labels: seq<Label>, row: seq<Cell>, n: int, k: int, x: string)
    requires |row| == |labels| && 0 <= k < n <= |labels|
    ensures CheckedAt(labels[..n], row[..n], k, x) <==> CheckedAt(labels, row, k, x)
  {
    assert labels[..n][k] == labels[k] && row[..n][k] == row[k];
  }

  /** Every listed name comes from a checked string-labelled column. */
  lemma {:induction false} CheckedNamesSound(labels: seq<Label>, row: seq<Cell>, x: string)
    requires |row| == |labels| && x in CheckedNames(labels, row)
    ensures exists k :: CheckedAt(labels, row, k, x)
  {
    var n := |labels| - 1;
    var last := if labels[n].Named? && IsChecked(row[n]) then [Strip(labels[n].name)] else [];
    assert CheckedNames(labels, row) == CheckedNames(labels[..n], row[..n]) + last;
    if x in CheckedNames(labels[..n], row[..n]) {
      CheckedNamesSound(labels[..n], row[..n], x);
      var k :| CheckedAt(labels[..n], row[..n], k, x);
      CheckedAtPrefix(labels, row, n, k, x);
    } else {
      assert CheckedAt(labels, row, n, x);
    }
  }

  /** A name listed for a prefix of the columns stays listed for all of them. */
  lemma CheckedNamesGrow(labels: seq<Label>, row: seq<Cell>, x: string)
    requires |row| == |labels| > 0
    requires x in CheckedNames(labels[..|labels| - 1], row[..|labels| - 1])
    ensures x in CheckedNames(labels, row)
  {
    var n := |labels| - 1;
    var prev := CheckedNames(labels[..n], row[..n]);
    if labels[n].Named? && IsChecked(row[n]) {
      assert CheckedNames(labels, row) == prev + [Strip(labels[n].name)];
    } else {
      assert CheckedNames(labels, row) == prev;
    }
  }

  /** The last column, when checked, is the last name listed. */
  lemma CheckedNamesLast(labels: seq<Label>, row: seq<Cell>)
    requires |row| == |labels| > 0
    requires labels[|labels| - 1].Named? && IsChecked(row[|labels| - 1])
    ensures Strip(labels[|labels| - 1].name) in CheckedNames(labels, row)
  {
    var n := |labels| - 1;
    assert CheckedNames(labels, row) == CheckedNames(labels[..n], row[..n]) + [Strip(labels[n].name)];
  }

  /** Every checked string-labelled column has its stripped label listed. */
  lemma {:induction false} CheckedNamesComplete(labels: seq<Label>, row: seq<Cell>, k: int, x: string)
    requires |row| == |labels| && CheckedAt(labels, row, k, x)
    ensures x in CheckedNames(labels, row)
  {
    var n := |labels| - 1;
    if k == n {
      CheckedNamesLast(labels, row);
    } else {
      CheckedAtPrefix(labels, row, n, k, x);
      CheckedNamesComplete(labels[..n], row[..n], k, x);
      CheckedNamesGrow(labels, row, x);
    }
  }

  /** A name is listed from the columns exactly when some string-labelled column whose
      stripped label is that name holds a checkmark. */
  lemma CheckedNamesMembership(labels: seq<Label>, row: seq<Cell>, x: string)
    requires |row| == |labels|
    ensures x in CheckedNames(labels, row) <==> exists k :: CheckedAt(labels, row, k, x)
  {
    if x in CheckedNames(labels, row) {
      CheckedNamesSound(labels, row, x);
    }
    if exists k :: CheckedAt(labels, row, k, x) {
      var k :| CheckedAt(labels, row, k, x);
      CheckedNamesComplete(labels, row, k, x);
    }
  }

  /** The four entries a remark can add; none of them is renamed. */
  lemma RemarkEntryKept(remark: Cell)
    requires RemarkService(remark).Some?
    ensures Corrected(RemarkService(remark).value) == RemarkService(remark).value
  {
    var e := RemarkService(remark).value;
    assert e in {"On Call", "Canceled without notice", "Cancelled Flight", "Per Landing"};
    assert |e| != |"TECH. SUPT"| && |e| != |"HEAD SET"|;
  }

  /** At most one list entry comes from the remark, it is the last one, and it is
      never renamed; `None` is returned exactly when no column is checked and the remark
      adds nothing. */
  lemma ServiceListShape(labels: seq<Label>, row: seq<Cell>)
    requires |row| == |labels|
    ensures
      var remark := GetOr(labels, row, RemarksColumn, Text(""));
      var list := ServiceList(labels, row);
      var checked := CheckedNames(labels, row);
      && |list| == |checked| + (if RemarkService(remark).Some? then 1 else 0)
      && (forall k :: 0 <= k < |checked| ==> list[k] == Corrected(checked[k]))
      && (RemarkService(remark).Some? ==> list[|list| - 1] == RemarkService(remark).value)
      && (Services(labels, row).None? <==> checked == [] && RemarkService(remark).None?)
  {
    var remark := GetOr(labels, row, RemarksColumn, Text(""));
    if RemarkService(remark).Some? {
      RemarkEntryKept(remark);
    }
  }

  /** Label strings sort in priority order, which is what sorting by the `Category`
      column relies on. */
  lemma CategoryOrderIsPriority(a: Category, b: Category)
    ensures StrLess(CategoryLabel(a), CategoryLabel(b)) <==> Rank(a) < Rank(b)
  {
    if a == b {
      StrLessIrreflexive(CategoryLabel(a));
    } else {
      assert CategoryLabel(a)[0] != CategoryLabel(b)[0];
    }
  }

  /** A phrase contains its first word. */
  lemma PhraseStartsWithWord(phrase: string, w: string)
    requires |w| <= |phrase| && phrase[..|w|] == w
    ensures Contains(phrase, w)
  {
    assert OccursAt(phrase, w, 0);
  }

  /** A remark that mentions a cancellation without notice mentions a
      cancellation. */
  lemma NoNoticeMentionsCancel(u: string)
    requires MentionsNoNotice(u)
    ensures MentionsCancel(u)
  {
    if Contains(u, "CANCELED WITHOUT NOTICE") {
      PhraseStartsWithWord("CANCELED WITHOUT NOTICE", "CANCELED");
      ContainsTransitive(u, "CANCELED WITHOUT NOTICE", "CANCELED");
    } else {
      PhraseStartsWithWord("CANCELLED WITHOUT NOTICE", "CANCELLED");
      ContainsTransitive(u, "CANCELLED WITHOUT NOTICE", "CANCELLED");
    }
  }

  /** The third category only ever goes to rows that count as cancelled. */
  lemma NoNoticeIsCanceled(s: string)
    requires Categorize(Text(s)) == CanceledNoNotice
    ensures IsCanceled(Text(s))
  {
    NoNoticeMentionsCancel(Upper(s));
  }

  /** The remark entry agrees with the category: the engineer-support and no-notice
      categories add "On Call" and "Canceled without notice", a cancellation outside
      the engineer-support case adds one of the two cancellation entries, and either
      cancellation entry implies the row is cancelled. */
  lemma {:induction false} RemarkServiceAgrees(s: string)
    ensures Categorize(Text(s)) == OnCallEngineer ==> RemarkService(Text(s)) == Some("On Call")
    ensures Categorize(Text(s)) == CanceledNoNotice ==> RemarkService(Text(s)) == Some("Canceled without notice")
    ensures IsCanceled(Text(s)) && !Contains(Upper(s), EngineerSupport) ==>
              RemarkService(Text(s)) in {Some("Canceled without notice"), Some("Cancelled Flight")}
    ensures RemarkService(Text(s)) in {Some("Canceled without notice"), Some("Cancelled Flight")} ==>
              IsCanceled(Text(s))
  {
    var u := Upper(s);
    if MentionsNoNotice(u) && !Contains(u, EngineerSupport) {
      NoNoticeMentionsCancel(u);
    }
  }

  /** The quirk of the priority list: a plain "CANCELED" remark is category OTHER
      although the row is cancelled and lists "Cancelled Flight". */
  lemma PlainCanceledIsOther()
    ensures Categorize(Text("Canceled")) == Other
    ensures IsCanceled(Text("Canceled"))
    ensures RemarkService(Text("Canceled")) == Some("Cancelled Flight")
  {
    var u := Upper("Canceled");
    assert u == "CANCELED";
    FirstCharAbsent(u, "TRANSIT");
    LongerNotContained(u, EngineerSupport);
    LongerNotContained(u, "CANCELED WITHOUT NOTICE");
    LongerNotContained(u, "CANCELLED WITHOUT NOTICE");
    FirstCharAbsent(u, OnCall);
    assert OccursAt(u, "CANCELED", 0);
  }
}
