/**
  The rows of an index and their orders (pup.c, one lane per row type), and the one notion the index
  rests on: in a log of rows, oldest first, the last row of each group of equivalent rows.
 */
module PupOrder {
  /** kv64 and wh128 rows are (key, val) pairs; a u64 or u32 row is its key, with val 0. */
  datatype Row = Row(key: nat, val: nat)

  datatype Lane = Kv64 | Wh128 | U64 | U32

  /** The lane's order: kv64 compares keys only, wh128 (key, val), the scalars themselves. */
  predicate Z(l: Lane, a: Row, b: Row) {
    a.key < b.key || (l.Wh128? && a.key == b.key && a.val < b.val)
  }

  predicate Keyed(l: Lane) { !l.Wh128? }

  predicate Equiv(l: Lane, a: Row, b: Row) { !Z(l, a, b) && !Z(l, b, a) }

  /** The order Z is a strict weak order on every lane, so equivalence is one. */
  lemma StrictWeak(l: Lane, a: Row, b: Row, c: Row)
    ensures !Z(l, a, a)
    ensures Z(l, a, b) && Z(l, b, c) ==> Z(l, a, c)
    ensures Equiv(l, a, b) && Equiv(l, b, c) ==> Equiv(l, a, c)
    ensures Z(l, a, b) && Equiv(l, b, c) ==> Z(l, a, c)
    ensures Equiv(l, a, b) && Z(l, b, c) ==> Z(l, a, c)
    ensures Z(l, a, b) || Z(l, b, a) || Equiv(l, a, b)
  {
  }

  ghost predicate Sorted(l: Lane, s: seq<Row>) {
    forall i, j :: 0 <= i < j < |s| ==> Z(l, s[i], s[j])
  }

  /** FindGE: the first index whose row is not less than the needle. */
  function FindGE(l: Lane, s: seq<Row>, needle: Row): (r: nat)
    requires Sorted(l, s)
    ensures r <= |s|
    ensures forall i :: 0 <= i < r ==> Z(l, s[i], needle)
    ensures forall i :: r <= i < |s| ==> !Z(l, s[i], needle)
  {
    if s == [] || !Z(l, s[0], needle) then 0 else 1 + FindGE(l, s[1..], needle)
  }

  // ----- the last row of each group

  ghost predicate Has(l: Lane, s: seq<Row>, r: Row) {
    exists i :: 0 <= i < |s| && Equiv(l, s[i], r)
  }

  /** r is the last row of its group in the log s. */
  ghost predicate Last(l: Lane, s: seq<Row>, r: Row) {
    exists i :: 0 <= i < |s| && s[i] == r && forall j :: i < j < |s| ==> !Equiv(l, s[j], r)
  }

  /** The two logs have the same last rows: they stand for the same index. */
  ghost predicate SameLast(l: Lane, a: seq<Row>, b: seq<Row>) {
    forall r :: Last(l, a, r) <==> Last(l, b, r)
  }

  lemma LastLeft(l: Lane, a: seq<Row>, b: seq<Row>, r: Row)
    requires Last(l, a, r) && !Has(l, b, r)
    ensures Last(l, a + b, r)
  {
    var i :| 0 <= i < |a| && a[i] == r && forall j :: i < j < |a| ==> !Equiv(l, a[j], r);
    var s := a + b;
    assert s[i] == r;
    forall j | i < j < |s| ensures !Equiv(l, s[j], r) {
      if j < |a| { assert s[j] == a[j]; } else { assert s[j] == b[j - |a|]; }
    }
  }

  lemma LastRight(l: Lane, a: seq<Row>, b: seq<Row>, r: Row)
    requires Last(l, b, r)
    ensures Last(l, a + b, r)
  {
    var i :| 0 <= i < |b| && b[i] == r && forall j :: i < j < |b| ==> !Equiv(l, b[j], r);
    assert (a + b)[|a| + i] == r;
  }

  lemma LastSplit(l: Lane, a: seq<Row>, b: seq<Row>, r: Row)
    requires Last(l, a + b, r)
    ensures Last(l, b, r) || (Last(l, a, r) && !Has(l, b, r))
  {
    var s := a + b;
    var i :| 0 <= i < |s| && s[i] == r && forall j :: i < j < |s| ==> !Equiv(l, s[j], r);
    forall j | 0 <= j < |b| && i < |a| + j ensures !Equiv(l, b[j], r) { assert s[|a| + j] == b[j]; }
    forall j | i < j < |a| ensures !Equiv(l, a[j], r) { assert s[j] == a[j]; }
    if i < |a| { assert a[i] == r; } else { assert b[i - |a|] == r; }
  }

  lemma LastConcat(l: Lane, a: seq<Row>, b: seq<Row>, r: Row)
    ensures Last(l, a + b, r) <==> Last(l, b, r) || (Last(l, a, r) && !Has(l, b, r))
  {
    if Last(l, a + b, r) { LastSplit(l, a, b, r); }
    if Last(l, b, r) { LastRight(l, a, b, r); }
    if Last(l, a, r) && !Has(l, b, r) { LastLeft(l, a, b, r); }
  }

  /** A group that occurs has a last row. */
  lemma {:induction false} HasLast(l: Lane, s: seq<Row>, r: Row) returns (last: Row)
    requires Has(l, s, r)
    ensures Last(l, s, last) && Equiv(l, last, r)
  {
    var n := |s| - 1;
    if Equiv(l, s[n], r) {
      last := s[n];
    } else {
      assert Has(l, s[..n], r);
      last := HasLast(l, s[..n], r);
      assert s == s[..n] + [s[n]];
      LastConcat(l, s[..n], [s[n]], last);
      StrictWeak(l, s[n], last, r);
    }
  }

  lemma LastHas(l: Lane, s: seq<Row>, r: Row)
    requires Last(l, s, r)
    ensures Has(l, s, r) && r in s
  {
  }

  lemma SameHas(l: Lane, a: seq<Row>, b: seq<Row>, r: Row)
    requires SameLast(l, a, b) && Has(l, a, r)
    ensures Has(l, b, r)
  {
    var x := HasLast(l, a, r);
    assert Last(l, b, x);
  }

  /** Logs that stand for the same index can replace each other inside a longer log. */
  lemma Congruence(l: Lane, a: seq<Row>, b: seq<Row>, c: seq<Row>, d: seq<Row>)
    requires SameLast(l, a, b) && SameLast(l, c, d)
    ensures SameLast(l, a + c, b + d)
  {
    forall r ensures Last(l, a + c, r) <==> Last(l, b + d, r) {
      LastConcat(l, a, c, r);
      LastConcat(l, b, d, r);
      if Has(l, c, r) { SameHas(l, c, d, r); }
      if Has(l, d, r) { SameHas(l, d, c, r); }
    }
  }

  /** In a sorted run every row is the last of its group. */
  lemma SortedLast(l: Lane, s: seq<Row>, r: Row)
    requires Sorted(l, s)
    ensures Last(l, s, r) <==> r in s
  {
    if r in s {
      var i :| 0 <= i < |s| && s[i] == r;
      assert forall j :: i < j < |s| ==> Z(l, s[i], s[j]);
    }
  }

  /** A sorted run is determined by its rows. */
  lemma {:induction false} SortedUnique(l: Lane, a: seq<Row>, b: seq<Row>)
    requires Sorted(l, a) && Sorted(l, b)
    requires forall r :: r in a <==> r in b
    ensures a == b
  {
    assert (a == [] || a[0] in a) && (b == [] || b[0] in b);
    if a != [] {
      assert a[0] == b[0];
      assert a == [a[0]] + a[1..] && b == [b[0]] + b[1..];
      assert forall x :: x in a[1..] ==> Z(l, a[0], x);
      assert forall x :: x in b[1..] ==> Z(l, b[0], x);
      assert forall x :: x in a <==> x == a[0] || x in a[1..];
      assert forall x :: x in b <==> x == b[0] || x in b[1..];
      SortedUnique(l, a[1..], b[1..]);
    }
  }

  /** Two last rows of one group are the same row. */
  lemma LastUnique(l: Lane, s: seq<Row>, a: Row, b: Row)
    requires Last(l, s, a) && Last(l, s, b) && Equiv(l, a, b)
    ensures a == b
  {
  }

  // ----- digests: what sorting, deduplicating and merging compute

  /** d lists the last rows of the log, in order. */
  ghost predicate Digest(l: Lane, d: seq<Row>, log: seq<Row>) {
    Sorted(l, d) && SameLast(l, d, log)
  }

  lemma DigestUnique(l: Lane, a: seq<Row>, b: seq<Row>, log: seq<Row>)
    requires Digest(l, a, log) && Digest(l, b, log)
    ensures a == b
  {
    forall r ensures r in a <==> r in b { SortedLast(l, a, r); SortedLast(l, b, r); }
    SortedUnique(l, a, b);
  }

  // ----- several sources, oldest first

  function Flat(srcs: seq<seq<Row>>): seq<Row> {
    if srcs == [] then [] else srcs[0] + Flat(srcs[1..])
  }

  lemma {:induction false} FlatConcat(a: seq<seq<Row>>, b: seq<seq<Row>>)
    ensures Flat(a + b) == Flat(a) + Flat(b)
  {
    if a == [] {
      assert a + b == b;
    } else {
      assert (a + b)[1..] == a[1..] + b;
      FlatConcat(a[1..], b);
    }
  }

  lemma FlatOne(s: seq<Row>)
    ensures Flat([s]) == s
  {
    assert Flat([s]) == s + Flat([]);
  }

  // ----- the rows past a bound

  /** Past the bound: strictly above a row that was pulled, not below a needle that was not. */
  predicate Beyond(l: Lane, key: Row, pulled: bool, r: Row) {
    if pulled then Z(l, key, r) else !Z(l, r, key)
  }

  function Filter(l: Lane, s: seq<Row>, key: Row, pulled: bool): seq<Row> {
    if s == [] then []
    else (if Beyond(l, key, pulled, s[0]) then [s[0]] else []) + Filter(l, s[1..], key, pulled)
  }

  lemma {:induction false} FilterConcat(l: Lane, a: seq<Row>, b: seq<Row>, key: Row, pulled: bool)
    ensures Filter(l, a + b, key, pulled) == Filter(l, a, key, pulled) + Filter(l, b, key, pulled)
  {
    if a == [] {
      assert a + b == b;
    } else {
      assert (a + b)[1..] == a[1..] + b;
      FilterConcat(l, a[1..], b, key, pulled);
    }
  }

  /** Groups lie wholly on one side of a bound, so filtering keeps the last rows past it. */
  lemma {:induction false} FilterLast(l: Lane, s: seq<Row>, key: Row, pulled: bool, r: Row)
    ensures Last(l, Filter(l, s, key, pulled), r) <==> Last(l, s, r) && Beyond(l, key, pulled, r)
    ensures Has(l, Filter(l, s, key, pulled), r) <==> Has(l, s, r) && Beyond(l, key, pulled, r)
  {
    if s != [] {
      FilterLast(l, s[1..], key, pulled, r);
      var head := if Beyond(l, key, pulled, s[0]) then [s[0]] else [];
      assert s == [s[0]] + s[1..];
      LastConcat(l, [s[0]], s[1..], r);
      LastConcat(l, head, Filter(l, s[1..], key, pulled), r);
      HasConcat(l, [s[0]], s[1..], r);
      HasConcat(l, head, Filter(l, s[1..], key, pulled), r);
      HasOne(l, s[0], r);
    }
  }

  lemma HasConcat(l: Lane, a: seq<Row>, b: seq<Row>, r: Row)
    ensures Has(l, a + b, r) <==> Has(l, a, r) || Has(l, b, r)
  {
    var s := a + b;
    if Has(l, a, r) {
      var i :| 0 <= i < |a| && Equiv(l, a[i], r);
      assert s[i] == a[i];
    }
    if Has(l, b, r) {
      var i :| 0 <= i < |b| && Equiv(l, b[i], r);
      assert s[|a| + i] == b[i];
    }
  }

  lemma HasOne(l: Lane, x: Row, r: Row)
    ensures Has(l, [x], r) <==> Equiv(l, x, r)
    ensures Last(l, [x], r) <==> x == r
  {
    assert [x][0] == x;
  }

  /** In a sorted run the rows past a bound are a suffix. */
  lemma {:induction false} FilterSuffix(l: Lane, s: seq<Row>, key: Row, pulled: bool, i: nat)
    requires i <= |s|
    requires forall j :: 0 <= j < i ==> !Beyond(l, key, pulled, s[j])
    requires forall j :: i <= j < |s| ==> Beyond(l, key, pulled, s[j])
    ensures Filter(l, s, key, pulled) == s[i..]
  {
    if s != [] { FilterSuffix(l, s[1..], key, pulled, if i == 0 then 0 else i - 1); }
  }

  /** The rows below an upper bound. */
  function Below(l: Lane, s: seq<Row>, hi: Row): seq<Row> {
    if s == [] then [] else (if Z(l, s[0], hi) then [s[0]] else []) + Below(l, s[1..], hi)
  }

  lemma {:induction false} BelowConcat(l: Lane, a: seq<Row>, b: seq<Row>, hi: Row)
    ensures Below(l, a + b, hi) == Below(l, a, hi) + Below(l, b, hi)
  {
    if a == [] {
      assert a + b == b;
    } else {
      assert (a + b)[1..] == a[1..] + b;
      BelowConcat(l, a[1..], b, hi);
    }
  }

  lemma {:induction false} BelowLast(l: Lane, s: seq<Row>, hi: Row, r: Row)
    ensures Last(l, Below(l, s, hi), r) <==> Last(l, s, r) && Z(l, r, hi)
    ensures Has(l, Below(l, s, hi), r) <==> Has(l, s, r) && Z(l, r, hi)
  {
    if s != [] {
      BelowLast(l, s[1..], hi, r);
      var head := if Z(l, s[0], hi) then [s[0]] else [];
      assert s == [s[0]] + s[1..];
      LastConcat(l, [s[0]], s[1..], r);
      LastConcat(l, head, Below(l, s[1..], hi), r);
      HasConcat(l, [s[0]], s[1..], r);
      HasConcat(l, head, Below(l, s[1..], hi), r);
      HasOne(l, s[0], r);
    }
  }

  /** In a sorted run the rows below a bound are a prefix. */
  lemma {:induction false} BelowPrefix(l: Lane, s: seq<Row>, hi: Row, i: nat)
    requires i <= |s|
    requires forall j :: 0 <= j < i ==> Z(l, s[j], hi)
    requires forall j :: i <= j < |s| ==> !Z(l, s[j], hi)
    ensures Below(l, s, hi) == s[..i]
  {
    if s != [] {
      BelowPrefix(l, s[1..], hi, if i == 0 then 0 else i - 1);
      if i > 0 { assert s[..i] == [s[0]] + s[1..][..i - 1]; }
    }
  }
}
