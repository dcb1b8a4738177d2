/** The loops over rows of pup.c: sorting and deduplicating the memtable, and the merge of sorted sources. */
module PupMerge {
  import opened Options
  import opened PupOrder

  ghost predicate Ascending(l: Lane, s: seq<Row>) {
    forall i, j :: 0 <= i < j < |s| ==> !Z(l, s[j], s[i])
  }

  /** The stable insertion sort: an equal row goes behind the ones already there. */
  method InsertionSort(l: Lane, data: seq<Row>) returns (out: seq<Row>)
    ensures Ascending(l, out) && SameLast(l, out, data)
  {
    out := [];
    for n := 0 to |data|
      invariant Ascending(l, out) && SameLast(l, out, data[..n])
    {
      Congruence(l, out, data[..n], [data[n]], [data[n]]);
      assert data[..n + 1] == data[..n] + [data[n]];
      out := Insert(l, out, data[n]);
    }
    assert data[..|data|] == data;
  }

  method Insert(l: Lane, sorted: seq<Row>, x: Row) returns (out: seq<Row>)
    requires Ascending(l, sorted)
    ensures Ascending(l, out) && SameLast(l, out, sorted + [x])
  {
    var i := |sorted|;
    while i > 0 && Z(l, x, sorted[i - 1])
      invariant 0 <= i <= |sorted|
      invariant forall j :: i <= j < |sorted| ==> Z(l, x, sorted[j])
    {
      i := i - 1;
    }
    InsertLast(l, sorted[..i], sorted[i..], x);
    assert sorted == sorted[..i] + sorted[i..];
    InsertAscending(l, sorted, x, i);
    out := sorted[..i] + [x] + sorted[i..];
  }

  lemma InsertAscending(l: Lane, s: seq<Row>, x: Row, i: nat)
    requires Ascending(l, s) && i <= |s|
    requires i > 0 ==> !Z(l, x, s[i - 1])
    requires forall j :: i <= j < |s| ==> Z(l, x, s[j])
    ensures Ascending(l, s[..i] + [x] + s[i..])
  {
    var out := s[..i] + [x] + s[i..];
    assert forall j :: 0 <= j < |out| ==> out[j] == if j < i then s[j] else if j == i then x else s[j - 1];
    forall j | 0 <= j < i ensures !Z(l, x, s[j]) { assert j < i - 1 ==> !Z(l, s[i - 1], s[j]); }
  }

  /** Moving a row in front of strictly greater ones leaves the last rows alone. */
  lemma InsertLast(l: Lane, a: seq<Row>, b: seq<Row>, x: Row)
    requires forall j :: 0 <= j < |b| ==> Z(l, x, b[j])
    ensures SameLast(l, a + [x] + b, a + b + [x])
  {
    forall r ensures Last(l, a + [x] + b, r) <==> Last(l, a + b + [x], r) {
      LastConcat(l, a + [x], b, r); LastConcat(l, a, [x], r);
      LastConcat(l, a + b, [x], r); LastConcat(l, a, b, r);
      HasOne(l, x, r);
    }
  }

  /** Keep-last deduplication of an ascending run. */
  method Dedup(l: Lane, data: seq<Row>) returns (out: seq<Row>)
    requires Ascending(l, data)
    ensures Digest(l, out, data)
  {
    out := [];
    for n := 0 to |data|
      invariant Digest(l, out, data[..n])
      invariant if n == 0 then out == [] else out != [] && out[|out| - 1] == data[n - 1]
    {
      assert data[..n + 1] == data[..n] + [data[n]];
      if out != [] && Equiv(l, out[|out| - 1], data[n]) {
        DedupReplace(l, out, data[..n], data[n]);
        out := out[..|out| - 1] + [data[n]];
      } else {
        Congruence(l, out, data[..n], [data[n]], [data[n]]);
        out := out + [data[n]];
      }
    }
    assert data[..|data|] == data;
  }

  lemma DedupReplace(l: Lane, out: seq<Row>, log: seq<Row>, x: Row)
    requires Digest(l, out, log) && out != [] && Equiv(l, out[|out| - 1], x)
    ensures Digest(l, out[..|out| - 1] + [x], log + [x])
  {
    var keep, last := out[..|out| - 1], out[|out| - 1];
    assert out == keep + [last];
    ReplaceLast(l, keep, last, x);
    Congruence(l, out, log, [x], [x]);
    forall j | 0 <= j < |keep| ensures Z(l, keep[j], x) { StrictWeak(l, keep[j], last, x); }
  }

  lemma ReplaceLast(l: Lane, a: seq<Row>, old_: Row, x: Row)
    requires Equiv(l, old_, x)
    ensures SameLast(l, a + [x], a + [old_] + [x])
  {
    forall r ensures Last(l, a + [x], r) <==> Last(l, a + [old_] + [x], r) {
      LastConcat(l, a, [x], r);
      LastConcat(l, a + [old_], [x], r);
      LastConcat(l, a, [old_], r);
      HasOne(l, x, r); HasOne(l, old_, r);
    }
  }

  /** Where equivalent rows are equal, any sort of the rows will do: no stability is needed. */
  lemma AnySortWillDo(l: Lane, out: seq<Row>, data: seq<Row>)
    requires forall a, b :: a in data && b in data && Equiv(l, a, b) ==> a == b
    requires forall r :: r in out <==> r in data
    ensures SameLast(l, out, data)
  {
    forall r ensures Last(l, out, r) <==> Last(l, data, r) {
      if Last(l, out, r) { OnlyOfItsGroup(l, data, out, r); }
      if Last(l, data, r) { OnlyOfItsGroup(l, out, data, r); }
    }
  }

  lemma OnlyOfItsGroup(l: Lane, s: seq<Row>, t: seq<Row>, r: Row)
    requires forall a, b :: a in s && b in s && Equiv(l, a, b) ==> a == b
    requires (forall x :: x in s <==> x in t) && Last(l, t, r)
    ensures Last(l, s, r)
  {
    LastHas(l, t, r);
    InHas(l, s, r);
    var x := HasLast(l, s, r);
    LastHas(l, s, x);
  }

  lemma InHas(l: Lane, s: seq<Row>, r: Row)
    requires r in s
    ensures Has(l, s, r)
  {
    var i :| 0 <= i < |s| && s[i] == r;
    assert Equiv(l, s[i], r);
  }

  // ----- merging

  /** What is left of a source: rows pos..end of it (a pair of pointers in C). */
  datatype Slice = Slice(src: nat, pos: nat, end: nat)

  predicate SliceOk(srcs: seq<seq<Row>>, e: Slice) {
    e.src < |srcs| && e.pos <= e.end <= |srcs[e.src]|
  }

  predicate SlicesOk(srcs: seq<seq<Row>>, ents: seq<Slice>) {
    forall i :: 0 <= i < |ents| ==> SliceOk(srcs, ents[i])
  }

  function RowsOf(srcs: seq<seq<Row>>, e: Slice): seq<Row>
    requires SliceOk(srcs, e)
  {
    srcs[e.src][e.pos..e.end]
  }

  /** The rows the slices stand for, oldest source first. */
  function Content(srcs: seq<seq<Row>>, ents: seq<Slice>): seq<Row>
    requires SlicesOk(srcs, ents)
  {
    if ents == [] then [] else RowsOf(srcs, ents[0]) + Content(srcs, ents[1..])
  }

  ghost predicate AllSorted(l: Lane, srcs: seq<seq<Row>>) {
    forall i :: 0 <= i < |srcs| ==> Sorted(l, srcs[i])
  }

  lemma {:induction false} ContentConcat(srcs: seq<seq<Row>>, a: seq<Slice>, b: seq<Slice>)
    requires SlicesOk(srcs, a) && SlicesOk(srcs, b)
    ensures SlicesOk(srcs, a + b) && Content(srcs, a + b) == Content(srcs, a) + Content(srcs, b)
  {
    if a == [] {
      assert a + b == b;
    } else {
      assert (a + b)[1..] == a[1..] + b;
      ContentConcat(srcs, a[1..], b);
    }
  }

  lemma ContentOne(srcs: seq<seq<Row>>, e: Slice)
    requires SliceOk(srcs, e)
    ensures Content(srcs, [e]) == RowsOf(srcs, e)
  {
    assert Content(srcs, [e]) == RowsOf(srcs, e) + Content(srcs, []);
  }

  predicate NonEmpty(ents: seq<Slice>) {
    forall i :: 0 <= i < |ents| ==> ents[i].pos < ents[i].end
  }

  function Head(srcs: seq<seq<Row>>, e: Slice): Row
    requires SliceOk(srcs, e) && e.pos < e.end
  {
    srcs[e.src][e.pos]
  }

  /** HITLoad: the exhausted entries drop out. */
  method Load(srcs: seq<seq<Row>>, ents: seq<Slice>) returns (live: seq<Slice>)
    requires SlicesOk(srcs, ents)
    ensures SlicesOk(srcs, live) && NonEmpty(live)
    ensures Content(srcs, live) == Content(srcs, ents)
  {
    live := [];
    for i := 0 to |ents|
      invariant SlicesOk(srcs, live) && NonEmpty(live)
      invariant Content(srcs, live) == Content(srcs, ents[..i])
    {
      assert ents[..i + 1] == ents[..i] + [ents[i]];
      ContentConcat(srcs, ents[..i], [ents[i]]);
      ContentOne(srcs, ents[i]);
      if ents[i].pos < ents[i].end {
        ContentConcat(srcs, live, [ents[i]]);
        live := live + [ents[i]];
      }
    }
    assert ents[..|ents|] == ents;
  }

  /** The entry on top of the heap: the least head, and of equal heads the youngest source's. */
  method Top(l: Lane, srcs: seq<seq<Row>>, live: seq<Slice>) returns (t: nat)
    requires live != [] && SlicesOk(srcs, live) && NonEmpty(live)
    ensures t < |live|
    ensures forall i :: 0 <= i < |live| ==> !Z(l, Head(srcs, live[i]), Head(srcs, live[t]))
    ensures forall i :: t < i < |live| ==> Z(l, Head(srcs, live[t]), Head(srcs, live[i]))
  {
    t := 0;
    for i := 1 to |live|
      invariant t < i
      invariant forall j :: 0 <= j < i ==> !Z(l, Head(srcs, live[j]), Head(srcs, live[t]))
      invariant forall j :: t < j < i ==> Z(l, Head(srcs, live[t]), Head(srcs, live[j]))
    {
      if !Z(l, Head(srcs, live[t]), Head(srcs, live[i])) {
        t := i;
      }
    }
  }

  /** HITTops, HITAdvanceTops and the equal-row loop: every entry moves past the pulled row's group. */
  method Advance(l: Lane, srcs: seq<seq<Row>>, live: seq<Slice>, row: Row) returns (rest: seq<Slice>)
    requires AllSorted(l, srcs) && SlicesOk(srcs, live) && NonEmpty(live)
    requires forall i :: 0 <= i < |live| ==> !Z(l, Head(srcs, live[i]), row)
    ensures SlicesOk(srcs, rest)
    ensures Content(srcs, rest) == Filter(l, Content(srcs, live), row, true)
  {
    rest := [];
    for i := 0 to |live|
      invariant SlicesOk(srcs, rest)
      invariant Content(srcs, rest) == Filter(l, Content(srcs, live[..i]), row, true)
    {
      var e := live[i];
      while e.pos < e.end && !Z(l, row, Head(srcs, e))
        invariant SliceOk(srcs, e) && e.src == live[i].src && e.end == live[i].end && live[i].pos <= e.pos
        invariant forall j :: live[i].pos <= j < e.pos ==> !Z(l, row, srcs[e.src][j])
        decreases e.end - e.pos
      {
        e := e.(pos := e.pos + 1);
      }
      AdvanceOne(l, srcs, live[i], e, row);
      assert live[..i + 1] == live[..i] + [live[i]];
      ContentConcat(srcs, live[..i], [live[i]]);
      ContentOne(srcs, live[i]);
      FilterConcat(l, Content(srcs, live[..i]), RowsOf(srcs, live[i]), row, true);
      ContentConcat(srcs, rest, [e]);
      ContentOne(srcs, e);
      rest := rest + [e];
    }
    assert live[..|live|] == live;
  }

  lemma AdvanceOne(l: Lane, srcs: seq<seq<Row>>, before: Slice, after: Slice, row: Row)
    requires SliceOk(srcs, before) && SliceOk(srcs, after) && Sorted(l, srcs[before.src])
    requires after.src == before.src && after.end == before.end && before.pos <= after.pos
    requires forall j :: before.pos <= j < after.pos ==> !Z(l, row, srcs[before.src][j])
    requires after.pos < after.end ==> Z(l, row, Head(srcs, after))
    ensures RowsOf(srcs, after) == Filter(l, RowsOf(srcs, before), row, true)
  {
    var s := RowsOf(srcs, before);
    forall j | after.pos - before.pos <= j < |s| ensures Beyond(l, row, true, s[j]) {
      assert s[j] == srcs[before.src][before.pos + j];
      StrictWeak(l, row, Head(srcs, after), s[j]);
    }
    FilterSuffix(l, s, row, true, after.pos - before.pos);
  }

  /** The least last row of a log: what a merged cursor has to return next. */
  ghost predicate LeastLast(l: Lane, log: seq<Row>, r: Row) {
    Last(l, log, r) && forall x :: Last(l, log, x) ==> !Z(l, x, r)
  }

  /** The heads of sorted slices: the least of them, the youngest of equal ones, is the least last row. */
  lemma TopIsLeast(l: Lane, srcs: seq<seq<Row>>, live: seq<Slice>, t: nat)
    requires AllSorted(l, srcs) && SlicesOk(srcs, live) && NonEmpty(live) && t < |live|
    requires forall i :: 0 <= i < |live| ==> !Z(l, Head(srcs, live[i]), Head(srcs, live[t]))
    requires forall i :: t < i < |live| ==> Z(l, Head(srcs, live[t]), Head(srcs, live[i]))
    ensures LeastLast(l, Content(srcs, live), Head(srcs, live[t]))
  {
    var before, after := live[..t], live[t + 1..];
    assert live == before + [live[t]] + after;
    ContentConcat(srcs, before + [live[t]], after);
    ContentConcat(srcs, before, [live[t]]);
    ContentOne(srcs, live[t]);
    NotBelow(l, srcs, live, Head(srcs, live[t]));
    Above(l, srcs, after, Head(srcs, live[t]));
    HeadIsLast(l, srcs, live[t]);
    LastRight(l, Content(srcs, before), RowsOf(srcs, live[t]), Head(srcs, live[t]));
    LastLeft(l, Content(srcs, before + [live[t]]), Content(srcs, after), Head(srcs, live[t]));
    forall x | Last(l, Content(srcs, live), x) ensures !Z(l, x, Head(srcs, live[t])) {
      LastHas(l, Content(srcs, live), x);
    }
  }

  lemma HeadIsLast(l: Lane, srcs: seq<seq<Row>>, e: Slice)
    requires SliceOk(srcs, e) && e.pos < e.end && Sorted(l, srcs[e.src])
    ensures Last(l, RowsOf(srcs, e), Head(srcs, e))
  {
    var s := RowsOf(srcs, e);
    assert s[0] == Head(srcs, e);
    forall j | 0 < j < |s| ensures !Equiv(l, s[j], s[0]) { assert s[j] == srcs[e.src][e.pos + j]; }
  }

  lemma {:induction false} NotBelow(l: Lane, srcs: seq<seq<Row>>, live: seq<Slice>, top: Row)
    requires AllSorted(l, srcs) && SlicesOk(srcs, live) && NonEmpty(live)
    requires forall i :: 0 <= i < |live| ==> !Z(l, Head(srcs, live[i]), top)
    ensures forall x :: x in Content(srcs, live) ==> !Z(l, x, top)
  {
    if live != [] {
      NotBelow(l, srcs, live[1..], top);
      forall x | x in RowsOf(srcs, live[0]) ensures !Z(l, x, top) {
        var j :| live[0].pos <= j < live[0].end && srcs[live[0].src][j] == x;
        StrictWeak(l, Head(srcs, live[0]), x, top);
      }
    }
  }

  lemma {:induction false} Above(l: Lane, srcs: seq<seq<Row>>, live: seq<Slice>, top: Row)
    requires AllSorted(l, srcs) && SlicesOk(srcs, live) && NonEmpty(live)
    requires forall i :: 0 <= i < |live| ==> Z(l, top, Head(srcs, live[i]))
    ensures !Has(l, Content(srcs, live), top)
  {
    if live != [] {
      Above(l, srcs, live[1..], top);
      HasConcat(l, RowsOf(srcs, live[0]), Content(srcs, live[1..]), top);
      var s := RowsOf(srcs, live[0]);
      forall j | 0 <= j < |s| ensures !Equiv(l, s[j], top) {
        assert s[j] == srcs[live[0].src][live[0].pos + j];
        StrictWeak(l, top, Head(srcs, live[0]), s[j]);
      }
    }
  }

  /** One pull from the heap over the entries. */
  method Pull(l: Lane, srcs: seq<seq<Row>>, ents: seq<Slice>) returns (row: Option<Row>, rest: seq<Slice>)
    requires AllSorted(l, srcs) && SlicesOk(srcs, ents)
    ensures SlicesOk(srcs, rest)
    ensures row.None? ==> Content(srcs, ents) == [] && Content(srcs, rest) == []
    ensures row.Some? ==> LeastLast(l, Content(srcs, ents), row.value)
    ensures row.Some? ==> Content(srcs, rest) == Filter(l, Content(srcs, ents), row.value, true)
  {
    var live := Load(srcs, ents);
    if live == [] {
      return None, live;
    }
    var t := Top(l, srcs, live);
    TopIsLeast(l, srcs, live, t);
    row := Some(Head(srcs, live[t]));
    rest := Advance(l, srcs, live, row.value);
  }

  /** Every source from i on, whole. */
  function Whole(srcs: seq<seq<Row>>, i: nat): (ents: seq<Slice>)
    requires i <= |srcs|
    ensures SlicesOk(srcs, ents)
    decreases |srcs| - i
  {
    if i == |srcs| then [] else [Slice(i, 0, |srcs[i]|)] + Whole(srcs, i + 1)
  }

  lemma {:induction false} WholeContent(srcs: seq<seq<Row>>, i: nat)
    requires i <= |srcs|
    ensures Content(srcs, Whole(srcs, i)) == Flat(srcs[i..])
    decreases |srcs| - i
  {
    if i < |srcs| {
      WholeContent(srcs, i + 1);
      assert srcs[i..] == [srcs[i]] + srcs[i + 1..];
      assert srcs[i][0..|srcs[i]|] == srcs[i];
    }
  }

  /** HITMerge: ties go to the youngest source. */
  method Merge(l: Lane, srcs: seq<seq<Row>>) returns (out: seq<Row>)
    requires AllSorted(l, srcs)
    ensures Digest(l, out, Flat(srcs))
  {
    out := [];
    var ents := Whole(srcs, 0);
    ghost var log := Flat(srcs);
    WholeContent(srcs, 0);
    assert srcs[0..] == srcs;
    var row: Option<Row>;
    row, ents := Pull(l, srcs, ents);
    ghost var left := log;
    while row.Some?
      invariant SlicesOk(srcs, ents) && Sorted(l, out)
      invariant forall r :: Last(l, log, r) <==> r in out || Last(l, left, r)
      invariant forall x, r :: x in out && Last(l, left, r) ==> Z(l, x, r)
      invariant row.Some? ==> LeastLast(l, left, row.value) && Content(srcs, ents) == Filter(l, left, row.value, true)
      invariant row.None? ==> left == []
      decreases |left|
    {
      Take(l, log, out, left, row.value);
      out := out + [row.value];
      left := Content(srcs, ents);
      row, ents := Pull(l, srcs, ents);
    }
    forall r ensures Last(l, out, r) <==> Last(l, log, r) { SortedLast(l, out, r); }
  }

  lemma Take(l: Lane, log: seq<Row>, out: seq<Row>, left: seq<Row>, row: Row)
    requires Sorted(l, out) && LeastLast(l, left, row)
    requires forall r :: Last(l, log, r) <==> r in out || Last(l, left, r)
    requires forall x, r :: x in out && Last(l, left, r) ==> Z(l, x, r)
    ensures var out', left' := out + [row], Filter(l, left, row, true);
            && Sorted(l, out') && |left'| < |left|
            && (forall r :: Last(l, log, r) <==> r in out' || Last(l, left', r))
            && (forall x, r :: x in out' && Last(l, left', r) ==> Z(l, x, r))
  {
    var left' := Filter(l, left, row, true);
    forall r ensures Last(l, left', r) <==> Last(l, left, r) && Z(l, row, r) { FilterLast(l, left, row, true, r); }
    forall r | Last(l, left, r) && !Z(l, row, r) ensures r == row { LastUnique(l, left, r, row); }
    FilterShorter(l, left, row);
  }

  lemma {:induction false} FilterShorter(l: Lane, s: seq<Row>, row: Row)
    ensures |Filter(l, s, row, true)| <= |s|
    ensures row in s ==> |Filter(l, s, row, true)| < |s|
  {
    if s != [] { FilterShorter(l, s[1..], row); }
  }
}
