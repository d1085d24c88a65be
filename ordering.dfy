/** The order of the result: ascending customer_id, then ascending item_name
    (strings compared character by character by code point, as SQLite's
    BINARY collation and Python's string comparison both do). Rows that tie
    on both columns are ordered by age. Insertion sort realises the order. */
module Ordering {
  import opened Tables

  /** Strict lexicographic order on strings; a proper prefix comes first. */
  predicate StrLess(a: string, b: string)
    decreases |a|
  {
    0 < |b| && (|a| == 0 || a[0] < b[0] || (a[0] == b[0] && StrLess(a[1..], b[1..])))
  }

  lemma {:induction false} StrLessIrreflexive(a: string)
    ensures !StrLess(a, a)
    decreases |a|
  {
    if 0 < |a| {
      StrLessIrreflexive(a[1..]);
    }
  }

  lemma {:induction false} StrLessTransitive(a: string, b: string, c: string)
    requires StrLess(a, b) && StrLess(b, c)
    ensures StrLess(a, c)
    decreases |a|
  {
    if 0 < |a| && a[0] == b[0] && b[0] == c[0] {
      StrLessTransitive(a[1..], b[1..], c[1..]);
    }
  }

  lemma {:induction false} StrLessTotal(a: string, b: string)
    requires a != b
    ensures StrLess(a, b) || StrLess(b, a)
    decreases |a|
  {
    if 0 < |a| && 0 < |b| && a[0] == b[0] {
      assert a == [a[0]] + a[1..] && b == [b[0]] + b[1..];
      StrLessTotal(a[1..], b[1..]);
    }
  }

  /** Strict order on grouping keys: customer_id, then item_name, then age. */
  predicate KeyLess(j: Key, k: Key) {
    || j.customerId < k.customerId
    || (j.customerId == k.customerId
        && (StrLess(j.itemName, k.itemName) || (j.itemName == k.itemName && j.age < k.age)))
  }

  lemma KeyLessIrreflexive(k: Key)
    ensures !KeyLess(k, k)
  {
    StrLessIrreflexive(k.itemName);
  }

  lemma KeyLessTransitive(j: Key, k: Key, l: Key)
    requires KeyLess(j, k) && KeyLess(k, l)
    ensures KeyLess(j, l)
  {
    if StrLess(j.itemName, k.itemName) && StrLess(k.itemName, l.itemName) {
      StrLessTransitive(j.itemName, k.itemName, l.itemName);
    }
  }

  lemma KeyLessTotal(j: Key, k: Key)
    requires j != k
    ensures KeyLess(j, k) || KeyLess(k, j)
  {
    if j.itemName != k.itemName {
      StrLessTotal(j.itemName, k.itemName);
    }
  }

  /** Rows are in strictly ascending key order: in particular no two share a key. */
  predicate StrictlySorted(s: seq<Row>) {
    forall i, j :: 0 <= i < j < |s| ==> KeyLess(RowKey(s[i]), RowKey(s[j]))
  }

  /** No two positions of s hold rows with the same grouping key. */
  predicate KeysDistinct(s: seq<Row>) {
    forall i, j :: 0 <= i < j < |s| ==> RowKey(s[i]) != RowKey(s[j])
  }

  /** Places x before the first row whose key is greater than x's. */
  function Insert(x: Row, s: seq<Row>): (r: seq<Row>)
    ensures multiset(r) == multiset(s) + multiset{x}
  {
    if |s| == 0 then [x]
    else if KeyLess(RowKey(x), RowKey(s[0])) then [x] + s
    else
      assert s == [s[0]] + s[1..];
      [s[0]] + Insert(x, s[1..])
  }

  /** Insertion sort by key. */
  function SortRows(s: seq<Row>): (r: seq<Row>)
    ensures multiset(r) == multiset(s)
  {
    if |s| == 0 then []
    else
      assert s == [s[0]] + s[1..];
      Insert(s[0], SortRows(s[1..]))
  }

  /** A row below every row of a strictly sorted sequence can go in front. */
  lemma PrependStrictlySorted(x: Row, t: seq<Row>)
    requires StrictlySorted(t)
    requires forall y :: y in t ==> KeyLess(RowKey(x), RowKey(y))
    ensures StrictlySorted([x] + t)
  {
    var r := [x] + t;
    forall i, j | 0 <= i < j < |r| ensures KeyLess(RowKey(r[i]), RowKey(r[j])) {
      if i == 0 {
        assert r[j] == t[j - 1] && t[j - 1] in t;
      } else {
        assert r[i] == t[i - 1] && r[j] == t[j - 1];
      }
    }
  }

  lemma {:induction false} InsertStrictlySorted(x: Row, s: seq<Row>)
    requires StrictlySorted(s)
    requires forall y :: y in s ==> RowKey(y) != RowKey(x)
    ensures StrictlySorted(Insert(x, s))
  {
    if |s| == 0 {
    } else if KeyLess(RowKey(x), RowKey(s[0])) {
      forall y | y in s ensures KeyLess(RowKey(x), RowKey(y)) {
        var m :| 0 <= m < |s| && s[m] == y;
        if 0 < m {
          KeyLessTransitive(RowKey(x), RowKey(s[0]), RowKey(y));
        }
      }
      PrependStrictlySorted(x, s);
    } else {
      assert s[0] in s;
      KeyLessTotal(RowKey(x), RowKey(s[0]));
      var t := Insert(x, s[1..]);
      InsertStrictlySorted(x, s[1..]);
      forall y | y in t ensures KeyLess(RowKey(s[0]), RowKey(y)) {
        assert y in multiset(t);
        if y != x {
          assert y in multiset(s[1..]);
          var m :| 0 <= m < |s[1..]| && s[1..][m] == y;
          assert s[m + 1] == y;
        }
      }
      PrependStrictlySorted(s[0], t);
    }
  }

  /** Sorting rows whose keys are distinct yields strictly ascending keys. */
  lemma {:induction false} SortRowsStrictlySorted(s: seq<Row>)
    requires KeysDistinct(s)
    ensures StrictlySorted(SortRows(s))
  {
    if |s| != 0 {
      var t := SortRows(s[1..]);
      SortRowsStrictlySorted(s[1..]);
      forall y | y in t ensures RowKey(y) != RowKey(s[0]) {
        assert y in multiset(s[1..]);
        var m :| 0 <= m < |s[1..]| && s[1..][m] == y;
        assert s[m + 1] == y;
      }
      InsertStrictlySorted(s[0], t);
    }
  }

  /** Stated apart so that the empty case below asserts nothing checkable
      once its facts clash. */
  lemma HeadIsMember(s: seq<Row>)
    requires |s| != 0
    ensures s[0] in s
  {
  }

  /** A strictly sorted sequence is determined by the rows it holds. */
  lemma {:induction false} StrictlySortedUnique(a: seq<Row>, b: seq<Row>)
    requires StrictlySorted(a) && StrictlySorted(b)
    requires forall x :: x in a <==> x in b
    ensures a == b
  {
    if |a| == 0 {
      if |b| != 0 {
        HeadIsMember(b);
        assert false;
      }
    } else {
      assert a[0] in b;
      var j :| 0 <= j < |b| && b[j] == a[0];
      assert b[0] in a;
      var i :| 0 <= i < |a| && a[i] == b[0];
      if j != 0 {
        if i == 0 {
          KeyLessIrreflexive(RowKey(a[0]));
        } else {
          KeyLessIrreflexive(RowKey(a[0]));
          KeyLessTransitive(RowKey(a[0]), RowKey(a[i]), RowKey(a[0]));
        }
        assert false;
      }
      forall x ensures x in a[1..] <==> x in b[1..] {
        if x in a[1..] {
          var m :| 0 <= m < |a[1..]| && a[1..][m] == x;
          KeyLessIrreflexive(RowKey(a[0]));
          assert KeyLess(RowKey(a[0]), RowKey(a[m + 1]));
          assert x in b && x != b[0];
        }
        if x in b[1..] {
          var m :| 0 <= m < |b[1..]| && b[1..][m] == x;
          KeyLessIrreflexive(RowKey(b[0]));
          assert KeyLess(RowKey(b[0]), RowKey(b[m + 1]));
          assert x in a && x != a[0];
        }
      }
      StrictlySortedUnique(a[1..], b[1..]);
      assert a == [a[0]] + a[1..] && b == [b[0]] + b[1..];
    }
  }
}
