/** The ordering `sort_values(by=['Category', 'STA.'])` puts rows in
    (flight_formatter.py:104): by the category label, then by the STA. text, with a
    missing STA. after every present one. */
module Sorting {
  import opened Options
  import opened PyStrings

  /** A row's sort key: the primary column's text and, when present, the secondary
      column's text. */
  datatype SortKey = SortKey(primary: string, secondary: Option<string>)

  /** Secondary keys in ascending string order, missing ones last. */
  predicate SecondaryLe(a: Option<string>, b: Option<string>) {
    match a
    case None => b.None?
    case Some(x) => b.None? || !StrLess(b.value, x)
  }

  /** `a` may be placed before `b`. */
  predicate KeyLe(a: SortKey, b: SortKey) {
    StrLess(a.primary, b.primary) || (a.primary == b.primary && SecondaryLe(a.secondary, b.secondary))
  }

  lemma KeyLeReflexive(a: SortKey)
    ensures KeyLe(a, a)
  {
    if a.secondary.Some? {
      StrLessIrreflexive(a.secondary.value);
    }
  }

  /** Any two keys can be placed one before the other. */
  lemma KeyLeTotal(a: SortKey, b: SortKey)
    ensures KeyLe(a, b) || KeyLe(b, a)
  {
    if a.primary != b.primary {
      StrLessTotal(a.primary, b.primary);
    } else if a.secondary.Some? && b.secondary.Some? && a.secondary != b.secondary {
      var x, y := a.secondary.value, b.secondary.value;
      StrLessTotal(x, y);
      if StrLess(x, y) {
        StrLessAsymmetric(x, y);
      } else {
        StrLessAsymmetric(y, x);
      }
    } else if a.secondary.Some? && a.secondary == b.secondary {
      StrLessIrreflexive(a.secondary.value);
    }
  }

  lemma KeyLeTransitive(a: SortKey, b: SortKey, c: SortKey)
    requires KeyLe(a, b) && KeyLe(b, c)
    ensures KeyLe(a, c)
  {
    if StrLess(a.primary, b.primary) && StrLess(b.primary, c.primary) {
      StrLessTransitive(a.primary, b.primary, c.primary);
    } else if a.primary == b.primary == c.primary {
      if a.secondary.Some? && b.secondary.Some? && c.secondary.Some? {
        var x, y, z := a.secondary.value, b.secondary.value, c.secondary.value;
        if StrLess(z, x) {
          if y == x {
          } else if y == z {
          } else {
            StrLessTotal(x, y);
            StrLessTotal(y, z);
            StrLessTransitive(y, z, x);
            StrLessTransitive(z, x, y);
          }
        }
      }
    }
  }

  /** Every earlier element may be placed before every later one. */
  predicate SortedBy<T>(key: T -> SortKey, s: seq<T>) {
    forall i, j :: 0 <= i < j < |s| ==> KeyLe(key(s[i]), key(s[j]))
  }

  /** Inserts `x` in front of the first element it may precede. */
  function Insert<T>(key: T -> SortKey, x: T, s: seq<T>): (r: seq<T>)
    ensures |r| == |s| + 1
    ensures multiset(r) == multiset(s) + multiset{x}
  {
    if |s| == 0 then [x]
    else if KeyLe(key(x), key(s[0])) then [x] + s
    else
      assert s == [s[0]] + s[1..];
      [s[0]] + Insert(key, x, s[1..])
  }

  /** Insertion sort; equal keys keep their input order. */
  function SortBy<T>(key: T -> SortKey, s: seq<T>): (r: seq<T>)
    ensures |r| == |s|
    ensures multiset(r) == multiset(s)
  {
    if |s| == 0 then []
    else
      assert s == [s[0]] + s[1..];
      Insert(key, s[0], SortBy(key, s[1..]))
  }

  /** An element placed before a sorted sequence whose every element it may precede
      gives a sorted sequence. */
  lemma ConsSorted<T>(key: T -> SortKey, h: T, s: seq<T>)
    requires SortedBy(key, s)
    requires forall y :: y in s ==> KeyLe(key(h), key(y))
    ensures SortedBy(key, [h] + s)
  {
    var r := [h] + s;
    forall i, j | 0 <= i < j < |r|
      ensures KeyLe(key(r[i]), key(r[j]))
    {
      if i == 0 {
        assert r[j] == s[j - 1];
      } else {
        assert r[i] == s[i - 1] && r[j] == s[j - 1];
      }
    }
  }

  /** An element of an insertion is the inserted one or an element of the sequence. */
  lemma InsertMembers<T>(key: T -> SortKey, x: T, s: seq<T>, y: T)
    requires y in Insert(key, x, s)
    ensures y == x || y in s
  {
    assert y in multiset(Insert(key, x, s));
  }

  /** Inserting into a sorted sequence keeps it sorted. */
  lemma {:induction false} InsertSorted<T>(key: T -> SortKey, x: T, s: seq<T>)
    requires SortedBy(key, s)
    ensures SortedBy(key, Insert(key, x, s))
  {
    if |s| > 0 {
      if KeyLe(key(x), key(s[0])) {
        forall y | y in s
          ensures KeyLe(key(x), key(y))
        {
          var j :| 0 <= j < |s| && s[j] == y;
          if j > 0 {
            KeyLeTransitive(key(x), key(s[0]), key(y));
          }
        }
        ConsSorted(key, x, s);
      } else {
        KeyLeTotal(key(x), key(s[0]));
        var tail := s[1..];
        assert SortedBy(key, tail) by {
          forall i, j | 0 <= i < j < |tail|
            ensures KeyLe(key(tail[i]), key(tail[j]))
          {
            assert tail[i] == s[i + 1] && tail[j] == s[j + 1];
          }
        }
        InsertSorted(key, x, tail);
        var rest := Insert(key, x, tail);
        forall y | y in rest
          ensures KeyLe(key(s[0]), key(y))
        {
          InsertMembers(key, x, tail, y);
          if y != x {
            var k :| 0 <= k < |tail| && tail[k] == y;
            assert s[k + 1] == y;
          }
        }
        ConsSorted(key, s[0], rest);
      }
    }
  }

  /** The sort's result is sorted. */
  lemma {:induction false} SortBySorted<T>(key: T -> SortKey, s: seq<T>)
    ensures SortedBy(key, SortBy(key, s))
  {
    if |s| > 0 {
      SortBySorted(key, s[1..]);
      InsertSorted(key, s[0], SortBy(key, s[1..]));
    }
  }

  /** The first element of a sorted sequence may precede every element. */
  lemma SortedFirstIsLeast<T>(key: T -> SortKey, s: seq<T>, y: T)
    requires SortedBy(key, s) && y in s
    ensures KeyLe(key(s[0]), key(y))
  {
    var j :| 0 <= j < |s| && s[j] == y;
    if j == 0 {
      KeyLeReflexive(key(y));
    }
  }
  /** The elements of `s` whose key is `k`, in their order in `s`. */
  function WithKey<T>(key: T -> SortKey, k: SortKey, s: seq<T>): seq<T> {
    if |s| == 0 then []
    else (if key(s[0]) == k then [s[0]] else []) + WithKey(key, k, s[1..])
  }

  /** Insertion passes over no element with the inserted one's key: among the
      elements sharing a key, the inserted one comes first. */
  lemma {:induction false} InsertKeepsOrder<T>(key: T -> SortKey, k: SortKey, x: T, s: seq<T>)
    ensures WithKey(key, k, Insert(key, x, s))
         == (if key(x) == k then [x] else []) + WithKey(key, k, s)
  {
    var r := Insert(key, x, s);
    if |s| == 0 || KeyLe(key(x), key(s[0])) {
      assert r == [x] + s;
      WithKeyCons(key, k, x, s);
    } else {
      KeyLeReflexive(key(x));
      var tail := Insert(key, x, s[1..]);
      InsertKeepsOrder(key, k, x, s[1..]);
      assert r == [s[0]] + tail;
      WithKeyCons(key, k, s[0], tail);
      assert s == [s[0]] + s[1..];
      WithKeyCons(key, k, s[0], s[1..]);
      if key(x) == k {
        assert key(s[0]) != k;
        assert WithKey(key, k, r) == WithKey(key, k, tail) == [x] + WithKey(key, k, s[1..]);
      } else {
        assert WithKey(key, k, tail) == WithKey(key, k, s[1..]);
      }
    }
  }

  lemma WithKeyCons<T>(key: T -> SortKey, k: SortKey, h: T, t: seq<T>)
    ensures WithKey(key, k, [h] + t) == (if key(h) == k then [h] else []) + WithKey(key, k, t)
  {
    assert ([h] + t)[1..] == t;
  }

  /** The sort is stable: the rows sharing a key keep their input order. */
  lemma {:induction false} SortByStable<T>(key: T -> SortKey, k: SortKey, s: seq<T>)
    ensures WithKey(key, k, SortBy(key, s)) == WithKey(key, k, s)
  {
    if |s| > 0 {
      SortByStable(key, k, s[1..]);
      InsertKeepsOrder(key, k, s[0], SortBy(key, s[1..]));
    }
  }
}
