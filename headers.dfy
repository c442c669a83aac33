/** The first steps of `process_file` (flight_formatter.py:79-89): rows that are
    entirely empty are dropped, string column labels are stripped, and a fixed table
    of alternative spellings is renamed to the names the rest of the program reads. */
module Headers {
  import opened PyStrings
  import opened Cells
  import opened Frames
  import opened Classify

  /** The lambda of flight_formatter.py:80: strings are stripped, other labels kept. */
  function StripLabel(l: Label): Label {
    match l
    case Named(s) => Named(Strip(s))
    case Numbered(_) => l
  }

  /** The rename dictionary of flight_formatter.py:81-89. */
  function Alias(name: string): string {
    if name == "REG." then "REG"
    else if name == "TECH.\nSUPT" then "TECH. SUPT"
    else if name == "TECH. SUPT" then "TECH SUPPORT"
    else if name == "HEAD SET" then "Headset"
    else if name == "TRANSIT" then "Transit"
    else if name == "WKLY CK" then "Weekly Check"
    else if name == "DAILY CK" then "Daily Check"
    else name
  }

  /** `rename(columns={...})`: a dictionary rename looks each label up once, so a
      renamed label is not renamed again. */
  function AliasLabel(l: Label): Label {
    match l
    case Named(s) => Named(Alias(s))
    case Numbered(_) => l
  }

  /** The frame after lines 79-89. */
  function Cleaned(sheet: Table): (r: Table)
    requires Rect(sheet)
    ensures Rect(r)
  {
    var rows := DropEmpty(sheet.rows);
    assert forall i :: 0 <= i < |rows| ==> rows[i] in sheet.rows;
    Table(Relabel(AliasLabel, Relabel(StripLabel, sheet.labels)), rows)
  }

  /** The spellings the rename table replaces. */
  const Replaced: set<string> := {"REG.", "TECH.\nSUPT", "HEAD SET", "TRANSIT", "WKLY CK", "DAILY CK"}

  /** The rename table's results are never spellings it replaces, except that
      "TECH.\nSUPT" becomes "TECH. SUPT"; names outside the table are kept. */
  lemma AliasResults(s: string)
    ensures Alias(s) in Replaced ==> s == "TECH.\nSUPT" && Alias(s) == "TECH. SUPT"
    ensures Alias(s) == "TECH. SUPT" ==> s == "TECH.\nSUPT"
    ensures Alias(s) == s ==> s !in Replaced && s != "TECH. SUPT"
  {
  }

  /** Lemma: after cleaning, a string label has no surrounding whitespace and is none
      of the replaced spellings; "TECH. SUPT" survives only as the new name of
      "TECH.\nSUPT". */
  lemma CleanedLabel(l: Label)
    ensures var c := AliasLabel(StripLabel(l));
      && (c.Named? ==> Strip(c.name) == c.name && c.name !in Replaced)
      && (c.Named? && c.name == "TECH. SUPT" ==> Strip(l.name) == "TECH.\nSUPT")
      && (l.Numbered? ==> c == l)
  {
    if l.Named? {
      var s := Strip(l.name);
      StripIdempotent(l.name);
      AliasResults(s);
      if Alias(s) != s {
        AliasStripped(s);
      }
    }
  }

  /** Every replacement name is free of surrounding whitespace. */
  lemma AliasStripped(s: string)
    requires Alias(s) != s
    ensures Strip(Alias(s)) == Alias(s)
  {
    var a := Alias(s);
    assert a != [] && !IsSpace(a[0]) && !IsSpace(a[|a| - 1]);
    StripOfStripped(a);
  }

  /** Lemma: the `'HEAD SET'` correction in `extract_services` (line 57) never fires
      for a header column: every "HEAD SET" header has already been renamed. */
  lemma HeadSetCorrectionUnreachable(l: Label)
    ensures var c := AliasLabel(StripLabel(l));
      c.Named? ==> Strip(c.name) != "HEAD SET"
  {
    CleanedLabel(l);
  }

  /** Lemma: both spellings of the technical support header, with any leading
      whitespace, end up as the service "TECH SUPPORT": one by the rename table, the
      other by the rename table and then the correction in `extract_services`. */
  lemma TechSupportSpellings(pad: string)
    requires forall k :: 0 <= k < |pad| ==> IsSpace(pad[k])
    ensures Corrected(Strip(AliasLabel(StripLabel(Named(pad + "TECH. SUPT"))).name)) == "TECH SUPPORT"
    ensures Corrected(Strip(AliasLabel(StripLabel(Named(pad + "TECH.\nSUPT"))).name)) == "TECH SUPPORT"
  {
    PaddedStrip(pad, "TECH. SUPT");
    PaddedStrip(pad, "TECH.\nSUPT");
    TechSupportRenamed();
    TechSupportCorrected();
  }

  /** "TECH. SUPT" is renamed to "TECH SUPPORT", which the correction keeps. */
  lemma TechSupportRenamed()
    ensures Corrected(Strip(Alias("TECH. SUPT"))) == "TECH SUPPORT"
  {
    var a := TechSupportAlias();
    StripOfStripped(a);
  }

  lemma TechSupportAlias() returns (a: string)
    ensures a == "TECH SUPPORT" && Alias("TECH. SUPT") == a
    ensures a != [] && !IsSpace(a[0]) && !IsSpace(a[|a| - 1])
  {
    a := "TECH SUPPORT";
    var name := "TECH. SUPT";
    assert name[5] != "TECH.\nSUPT"[5];
  }

  /** "TECH.\nSUPT" is renamed to "TECH. SUPT", which the correction turns into
      "TECH SUPPORT". */
  lemma TechSupportCorrected()
    ensures Corrected(Strip(Alias("TECH.\nSUPT"))) == "TECH SUPPORT"
  {
    RenamedOnce("TECH.\nSUPT", "TECH. SUPT");
  }

  /** A name the table renames to a name without surrounding whitespace strips to
      that name. */
  lemma RenamedOnce(s: string, a: string)
    requires Alias(s) == a && a != [] && !IsSpace(a[0]) && !IsSpace(a[|a| - 1])
    ensures Strip(Alias(s)) == a
  {
    StripOfStripped(a);
  }

  /** Leading whitespace before a word is stripped. */
  lemma {:induction false} PaddedStrip(pad: string, w: string)
    requires forall k :: 0 <= k < |pad| ==> IsSpace(pad[k])
    requires w != [] && !IsSpace(w[0]) && !IsSpace(w[|w| - 1])
    ensures Strip(pad + w) == w
  {
    if pad == [] {
      assert pad + w == w;
      StripOfStripped(w);
    } else {
      assert (pad + w)[1..] == pad[1..] + w;
      PaddedStrip(pad[1..], w);
      assert StripLeft(pad + w) == StripLeft(pad[1..] + w);
    }
  }
}
