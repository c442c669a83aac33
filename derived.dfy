/** The fields `process_file` derives cell by cell: the customer code taken from the
    flight number (flight_formatter.py:100) and the employee list built from the ENGR
    and TECH cells (flight_formatter.py:124-127). */
module Derived {
  import opened Options
  import opened PyStrings
  import opened Cells

  /** `x[:2]`. */
  function Take2(x: string): (r: string)
    ensures |r| == if |x| < 2 then |x| else 2
    ensures forall i :: 0 <= i < |r| ==> r[i] == x[i]
  {
    if |x| < 2 then x else x[..2]
  }

  /** The lambda of flight_formatter.py:100: "XLR" when `x` starts with "DHX",
      otherwise the first two characters of `x`. */
  function CustomerOf(x: string): string {
    if StartsWith(x, "DHX") then "XLR" else Take2(x)
  }

  /** The customer code of a flight number cell: the lambda applied to
      `str(flight).strip()`. */
  function CustomerCode(flight: Cell): string {
    CustomerOf(Strip(Render(flight)))
  }

  /** A customer code is "XLR" for DHX flights and otherwise the first (at most two)
      characters of the stripped flight number; so it never starts with whitespace and
      is three characters long only when it is "XLR". */
  lemma CustomerCodeMeaning(s: string)
    ensures var x, r := Strip(s), CustomerOf(Strip(s));
      && (StartsWith(x, "DHX") <==> r == "XLR" && |x| >= 3)
      && (!StartsWith(x, "DHX") ==> StartsWith(x, r) && |r| == if |x| < 2 then |x| else 2)
      && (r != [] ==> !IsSpace(r[0]))
      && |r| <= 3
  {
    var x := Strip(s);
    var l := StripLeft(s);
    if x != [] {
      assert x == l[..|x|];
      assert x[0] == l[0];
    }
    if !StartsWith(x, "DHX") {
      var r := Take2(x);
      assert x[..|r|] == r;
      assert r != "XLR" || |x| < 3 by {
        if r == "XLR" {
          assert |r| == 3;
        }
      }
    }
  }

  /** A missing flight number is rendered "nan", so its customer code is "na". */
  lemma MissingFlightIsNa()
    ensures CustomerCode(Missing) == "na"
  {
    StripOfStripped("nan");
    assert Strip(Render(Missing)) == "nan";
    assert Take2("nan") == "na";
  }

  /** Surrounding whitespace does not matter: " DHX123 " is an XLR flight. */
  lemma PaddedDhxIsXlr(w: string)
    requires StartsWith(w, "DHX") && !IsSpace(w[|w| - 1])
    ensures CustomerCode(Text([' '] + w + [' '])) == "XLR"
  {
    StripPadded(w);
  }

  /** One space on each side of a word is stripped. */
  lemma StripPadded(w: string)
    requires w != [] && !IsSpace(w[0]) && !IsSpace(w[|w| - 1])
    ensures Strip([' '] + w + [' ']) == w
  {
    var s := [' '] + w + [' '];
    assert s[1..] == w + [' '];
    assert StripLeft(s) == w + [' '];
    assert (w + [' '])[..|w|] == w;
    assert StripRight(w + [' ']) == StripRight(w);
    StripOfStripped(w);
  }

  /** `s.replace('.', '', 1)`: the first '.' removed, everything else kept in order. */
  function RemoveFirstDot(s: string): (r: string)
    ensures '.' !in s ==> r == s
    ensures |r| == if '.' in s then |s| - 1 else |s|
  {
    if |s| == 0 then s
    else if s[0] == '.' then s[1..]
    else
      assert '.' in s[1..] <==> '.' in s by {
        assert s == [s[0]] + s[1..];
      }
      [s[0]] + RemoveFirstDot(s[1..])
  }

  /** Every character other than a '.' survives the removal. */
  lemma {:induction false} KeptChar(s: string, k: int)
    requires 0 <= k < |s| && s[k] != '.'
    ensures s[k] in RemoveFirstDot(s)
  {
    if s[0] == '.' {
      assert s[k] == s[1..][k - 1];
    } else if k > 0 {
      assert s[k] == s[1..][k - 1];
      KeptChar(s[1..], k - 1);
    }
  }

  /** A character other than a digit or a '.' keeps `s.replace('.', '', 1)` from
      being all digits. */
  lemma NonDigitSurvives(s: string, k: int)
    requires 0 <= k < |s| && !IsDigit(s[k]) && s[k] != '.'
    ensures !IsDigits(RemoveFirstDot(s))
  {
    var r := RemoveFirstDot(s);
    KeptChar(s, k);
    var j :| 0 <= j < |r| && r[j] == s[k];
  }

  /** `int(value)` on the values that can reach it: numbers, booleans, and strings of
      digits; any other string that can reach it (one holding a '.') raises
      ValueError. */
  function IntOf(c: Cell): Option<int> {
    match c
    case Number(n) => Some(n)
    case Flag(b) => Some(if b then 1 else 0)
    case Text(s) => if IsDigits(s) then Some(DigitsValue(s)) else None
    case _ => None
  }

  /** One entry of the employee list. */
  datatype StaffId = Absent | Id(digits: string) | Raises

  /** `str(int(v)) if pd.notna(v) and str(v).replace('.', '', 1).isdigit() else ''`,
      with '' as `Absent` and an exception from `int` as `Raises`. */
  function EmployeeId(c: Cell): StaffId {
    if c.Missing? || !IsDigits(RemoveFirstDot(Render(c))) then Absent
    else
      match IntOf(c)
      case Some(n) => Id(IntToString(n))
      case None => Raises
  }

  /** A digit string holds no '.', so the '.' removal keeps it. */
  lemma DigitsKeep(s: string)
    requires IsDigits(s)
    ensures '.' !in s && RemoveFirstDot(s) == s
  {
    forall k | 0 <= k < |s|
      ensures s[k] != '.'
    {
      assert IsDigit(s[k]);
    }
  }

  /** A number yields its decimal digits when it is not negative, and nothing
      otherwise. */
  lemma EmployeeIdNumber(n: int)
    ensures EmployeeId(Number(n)) == if n >= 0 then Id(NatToString(n)) else Absent
  {
    if n < 0 {
      NonDigitSurvives(IntToString(n), 0);
    } else {
      DigitsKeep(NatToString(n));
    }
  }

  /** A text of digits yields the number they denote: leading zeros are dropped and
      the value is kept. */
  lemma EmployeeIdDigits(s: string)
    requires IsDigits(s)
    ensures EmployeeId(Text(s)) == Id(NatToString(DigitsValue(s)))
    ensures DigitsValue(EmployeeId(Text(s)).digits) == DigitsValue(s)
  {
    DigitsKeep(s);
    NatToStringRoundTrip(DigitsValue(s));
  }

  /** A text raises exactly when it is digits around one '.', and otherwise yields
      nothing unless it is all digits. */
  lemma EmployeeIdText(s: string)
    ensures EmployeeId(Text(s)).Raises? <==> '.' in s && IsDigits(RemoveFirstDot(s))
    ensures EmployeeId(Text(s)).Absent? <==> !IsDigits(RemoveFirstDot(s))
  {
    if IsDigits(s) {
      DigitsKeep(s);
    }
  }

  /** Times, timestamps and booleans never yield an id: their text holds a ':', a '-'
      or a letter. */
  lemma EmployeeIdOther(c: Cell)
    requires c.Clock? || c.Stamp? || c.Flag?
    ensures EmployeeId(c) == Absent
  {
    var r := Render(c);
    match c
    case Clock(t) =>
      assert r[2] == ':';
      NonDigitSurvives(r, 2);
    case Stamp(d, t) =>
      assert r[4] == '-';
      NonDigitSurvives(r, 4);
    case Flag(b) =>
      NonDigitSurvives(r, 0);
  }

  /** Removing the first '.' of a text whose prefix `p` holds none. */
  lemma {:induction false} RemoveDotAfter(p: string, q: string)
    requires '.' !in p
    ensures RemoveFirstDot(p + ['.'] + q) == p + q
  {
    var s := p + ['.'] + q;
    if p == [] {
      assert s == ['.'] + q;
    } else {
      assert s[0] == p[0];
      assert s[1..] == p[1..] + ['.'] + q;
      assert '.' !in p[1..] by {
        assert forall c :: c in p[1..] ==> c in p;
      }
      RemoveDotAfter(p[1..], q);
      assert p + q == [p[0]] + (p[1..] + q);
    }
  }

  /** Digits around one '.', such as "12.5", pass the digit test but make `int`
      raise. */
  lemma DottedTextRaises(p: string, q: string)
    requires IsDigits(p + q)
    ensures EmployeeId(Text(p + ['.'] + q)) == Raises
  {
    var s := p + ['.'] + q;
    forall k | 0 <= k < |p|
      ensures p[k] != '.'
    {
      assert IsDigit((p + q)[k]);
    }
    RemoveDotAfter(p, q);
    assert s[|p|] == '.';
  }

  /** A leading '0' does not change the value of a digit string. */
  lemma {:induction false} LeadingZeroValue(s: string)
    requires forall i :: 0 <= i < |s| ==> IsDigit(s[i])
    ensures DigitsValue(['0'] + s) == DigitsValue(s)
  {
    if s != [] {
      var n := |s| - 1;
      assert (['0'] + s)[..n + 1] == ['0'] + s[..n];
      LeadingZeroValue(s[..n]);
    }
  }

  /** Leading zeros are dropped: "007" yields the same id as "7". */
  lemma LeadingZerosDropped(s: string)
    requires IsDigits(s)
    ensures EmployeeId(Text(['0'] + s)) == EmployeeId(Text(s))
  {
    var z := ['0'] + s;
    assert IsDigits(z) by {
      forall k | 0 <= k < |z|
        ensures IsDigit(z[k])
      {
        if k > 0 {
          assert z[k] == s[k - 1];
        }
      }
    }
    LeadingZeroValue(s);
    EmployeeIdDigits(s);
    EmployeeIdDigits(z);
  }

  /** `filter(None, [...])`: the ids that are present, in order. */
  function PresentIds(ids: seq<StaffId>): (r: seq<string>)
    ensures |r| <= |ids|
  {
    if |ids| == 0 then []
    else (if ids[0].Id? then [ids[0].digits] else []) + PresentIds(ids[1..])
  }

  /** `', '.join(filter(None, [engr, tech]))`. */
  function Employees(engr: StaffId, tech: StaffId): string {
    Join(PresentIds([engr, tech]), ", ")
  }

  /** Both ids joined by ", " in ENGR, TECH order; one id alone; nothing when neither
      is present. */
  lemma EmployeesMeaning(engr: StaffId, tech: StaffId)
    requires !engr.Raises? && !tech.Raises?
    ensures engr.Id? && tech.Id? ==> Employees(engr, tech) == engr.digits + ", " + tech.digits
    ensures engr.Id? && tech.Absent? ==> Employees(engr, tech) == engr.digits
    ensures engr.Absent? && tech.Id? ==> Employees(engr, tech) == tech.digits
    ensures engr.Absent? && tech.Absent? ==> Employees(engr, tech) == ""
  {
    var e := if engr.Id? then [engr.digits] else [];
    var t := if tech.Id? then [tech.digits] else [];
    assert [engr, tech][1..] == [tech];
    assert [tech][1..] == [];
    assert PresentIds([tech]) == t + PresentIds([]);
    assert PresentIds([engr, tech]) == e + t;
    if engr.Id? && tech.Id? {
      var a, b := engr.digits, tech.digits;
      assert e + t == [a, b];
      assert [a, b][1..] == [b];
      assert Join([b], ", ") == b;
      assert Join([a, b], ", ") == a + ", " + Join([b], ", ");
    }
  }
}
