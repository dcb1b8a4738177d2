/**
  The sparse page index of a run (pup.c, jpup_page): a copy of the first row of every page of `per` rows.
  It narrows a search to one page.  On the keyed lanes that is exact.  On wh128, which holds several rows
  a key, the cell shortcut can start late; the condition is Straddles, exactly.
 */
module PupToc {
  import opened PupOrder

  datatype PageResult = Cell(page: nat) | Window(lo: nat, hi: nat)

  /** The index of a run: no cells at all, or one for each page, a copy of the page's first row. */
  ghost predicate TocOk(rows: seq<Row>, toc: seq<Row>, per: nat) {
    toc == [] ||
    (&& per >= 1
     && |rows| <= PageStart(|toc|, per)
     && forall i {:trigger toc[i]} :: 0 <= i < |toc| ==>
          PageStart(i, per) < |rows| && toc[i] == rows[PageStart(i, per)])
  }

  /** i * per, the first row of page i. */
  function PageStart(i: nat, per: nat): nat {
    if i == 0 then 0 else PageStart(i - 1, per) + per
  }

  lemma {:induction false} PageOrder(i: nat, j: nat, per: nat)
    requires i < j
    ensures PageStart(i, per) + per <= PageStart(j, per)
    decreases j
  {
    if i < j - 1 { PageOrder(i, j - 1, per); }
  }

  lemma TocSorted(l: Lane, rows: seq<Row>, toc: seq<Row>, per: nat)
    requires Sorted(l, rows) && TocOk(rows, toc, per)
    ensures Sorted(l, toc)
  {
    forall i, j | 0 <= i < j < |toc| ensures Z(l, toc[i], toc[j]) { PageOrder(i, j, per); }
  }

  /** The page that can hold the needle: the last cell not greater than it, or the first page. */
  function PageIndex(l: Lane, toc: seq<Row>, key: Row): (i: nat)
    requires toc != [] && Sorted(l, toc)
    ensures i < |toc|
    ensures forall j :: 0 <= j < i ==> Z(l, toc[j], key) || Equiv(l, toc[j], key)
    ensures i > 0 ==> !Z(l, key, toc[i])
    ensures forall j :: i < j < |toc| ==> Z(l, key, toc[j])
  {
    var c := FindGE(l, toc, key);
    if c == |toc| || Z(l, key, toc[c]) then (if c > 0 then c - 1 else 0) else c
  }

  /** jpup_page */
  function Page(l: Lane, rows: seq<Row>, toc: seq<Row>, per: nat, key: Row): (r: PageResult)
    requires Sorted(l, toc)
    ensures r.Window? ==> r.lo <= r.hi <= |rows| && (per > 0 && toc != [] ==> r.hi <= r.lo + per)
  {
    if per == 0 || toc == [] then Window(0, |rows|)
    else
      var i := PageIndex(l, toc, key);
      if i + 1 < |toc| && toc[i + 1].key == key.key then Cell(i + 1)
      else
        var lo := if PageStart(i, per) > |rows| then |rows| else PageStart(i, per);
        Window(lo, if lo + per < |rows| then lo + per else |rows|)
  }

  /** Where a range over this run starts to look: everything before is dropped. */
  function RangeStart(l: Lane, rows: seq<Row>, toc: seq<Row>, per: nat, lo: Row): nat
    requires Sorted(l, toc)
  {
    match Page(l, rows, toc, per, lo)
    case Cell(page) => PageStart(page, per)
    case Window(start, _) => start
  }

  /** A cell after the first is a row with the needle's key. */
  predicate CellHas(toc: seq<Row>, p: int, key: Row) { 0 < p < |toc| && toc[p].key == key.key }

  /**
    The run has rows of the key before a page that starts with one, and the first of them does not itself
    start a page other than the first, unless its val is 0.
  */
  ghost predicate Straddles(l: Lane, rows: seq<Row>, toc: seq<Row>, per: nat, key: Row)
    requires Sorted(l, rows)
  {
    var first := FindGE(l, rows, key);
    && (exists p: nat :: CellHas(toc, p, key) && first < PageStart(p, per))
    && !(exists p: nat :: CellHas(toc, p, key) && first == PageStart(p, per) && toc[p].val > 0)
  }

  /** The cell shortcut fires and the row before the cell's page is not below the needle. */
  predicate Late(l: Lane, rows: seq<Row>, toc: seq<Row>, per: nat, key: Row)
    requires Sorted(l, toc)
  {
    match Page(l, rows, toc, per, key)
    case Cell(page) => 0 < PageStart(page, per) <= |rows| && !Z(l, rows[PageStart(page, per) - 1], key)
    case Window(_, _) => false
  }

  lemma PageStartOrder(i: nat, j: nat, per: nat)
    ensures i < j ==> PageStart(i, per) + per <= PageStart(j, per)
    ensures j < i ==> PageStart(j, per) + per <= PageStart(i, per)
  {
    if i < j { PageOrder(i, j, per); }
    if j < i { PageOrder(j, i, per); }
  }

  /** The shortcut to page i + 1 fired: it is late exactly when the key's first row is before that page. */
  lemma LateAt(l: Lane, rows: seq<Row>, toc: seq<Row>, per: nat, key: Row)
    requires Sorted(l, rows) && TocOk(rows, toc, per) && Sorted(l, toc) && key.val == 0
    requires Page(l, rows, toc, per, key).Cell?
    ensures var i := PageIndex(l, toc, key);
            && i + 1 < |toc| && PageStart(i + 1, per) < |rows| && CellHas(toc, i + 1, key)
            && FindGE(l, rows, key) <= PageStart(i + 1, per)
            && (Late(l, rows, toc, per, key) <==> FindGE(l, rows, key) < PageStart(i + 1, per))
  {
    var i := PageIndex(l, toc, key);
    var at := PageStart(i + 1, per);
    assert rows[at] == toc[i + 1] && !Z(l, rows[at], key);
    PageOrder(i, i + 1, per);
    if FindGE(l, rows, key) == at { assert Z(l, rows[at - 1], key); }
  }

  /** With the shortcut not late, no later cell tells otherwise. */
  lemma NotLate(l: Lane, rows: seq<Row>, toc: seq<Row>, per: nat, key: Row, p: nat)
    requires Sorted(l, rows) && TocOk(rows, toc, per) && Sorted(l, toc) && key.val == 0
    requires !Late(l, rows, toc, per, key) && CellHas(toc, p, key) && FindGE(l, rows, key) < PageStart(p, per)
    ensures var i := PageIndex(l, toc, key); CellHas(toc, i + 1, key) && FindGE(l, rows, key) == PageStart(i + 1, per)
    ensures toc[PageIndex(l, toc, key) + 1].val > 0
  {
    var i, f := PageIndex(l, toc, key), FindGE(l, rows, key);
    assert rows[PageStart(p, per)] == toc[p];
    assert Z(l, rows[f], rows[PageStart(p, per)]);
    assert i < p;
    if i + 1 < p { assert Z(l, toc[i + 1], toc[p]) && Z(l, key, toc[i + 1]); }
    assert toc[i + 1].key == key.key;
    LateAt(l, rows, toc, per, key);
    assert Z(l, key, toc[i + 1]);
  }

  /** When it is late the key's first row starts no page, but the first, with a val of its own. */
  lemma LateFirst(l: Lane, rows: seq<Row>, toc: seq<Row>, per: nat, key: Row, p: nat)
    requires Sorted(l, rows) && TocOk(rows, toc, per) && Sorted(l, toc) && key.val == 0
    requires Late(l, rows, toc, per, key) && CellHas(toc, p, key) && FindGE(l, rows, key) == PageStart(p, per)
    ensures toc[p].val == 0
  {
    var i := PageIndex(l, toc, key);
    LateAt(l, rows, toc, per, key);
    PageStartOrder(p, i + 1, per);
    assert rows[PageStart(p, per)] == toc[p] && Z(l, key, toc[i + 1]);
    CellIsKey(l, toc, key, p);
  }

  lemma CellIsKey(l: Lane, toc: seq<Row>, key: Row, p: nat)
    requires l.Wh128? && Sorted(l, toc) && key.val == 0 && CellHas(toc, p, key) && p <= PageIndex(l, toc, key) &&
             !Z(l, toc[p], key)
    ensures toc[p].val == 0
  {
    assert !Z(l, key, toc[p]);
  }

  /** So the shortcut is late exactly when the run straddles. */
  lemma LateExactly(l: Lane, rows: seq<Row>, toc: seq<Row>, per: nat, key: Row)
    requires Sorted(l, rows) && TocOk(rows, toc, per) && Sorted(l, toc) && key.val == 0
    ensures Late(l, rows, toc, per, key) <==> Straddles(l, rows, toc, per, key)
  {
    if Late(l, rows, toc, per, key) {
      LateAt(l, rows, toc, per, key);
      forall p: nat | CellHas(toc, p, key) && FindGE(l, rows, key) == PageStart(p, per) ensures toc[p].val == 0 {
        LateFirst(l, rows, toc, per, key, p);
      }
    } else {
      forall p: nat | CellHas(toc, p, key) && FindGE(l, rows, key) < PageStart(p, per)
        ensures CellHas(toc, PageIndex(l, toc, key) + 1, key)
        ensures toc[PageIndex(l, toc, key) + 1].val > 0
        ensures FindGE(l, rows, key) == PageStart(PageIndex(l, toc, key) + 1, per)
      {
        NotLate(l, rows, toc, per, key, p);
      }
    }
  }

  /** What the search finds before a cell with the needle's key is a lesser row with that key. */
  lemma BeforeCell(l: Lane, rows: seq<Row>, toc: seq<Row>, per: nat, key: Row, p: nat)
    requires Sorted(l, rows) && TocOk(rows, toc, per) && CellHas(toc, p, key)
    ensures var f := FindGE(l, rows, key);
            f < PageStart(p, per) ==>
              && PageStart(p, per) < |rows| && rows[f].key == rows[PageStart(p, per)].key
              && Z(l, rows[f], rows[PageStart(p, per)])
  {
    var f := FindGE(l, rows, key);
    assert rows[PageStart(p, per)] == toc[p];
  }

  /** On the keyed lanes no run straddles: a key has one row, and the shortcut never fires. */
  lemma KeyedNeverStraddles(l: Lane, rows: seq<Row>, toc: seq<Row>, per: nat, key: Row)
    requires Sorted(l, rows) && TocOk(rows, toc, per) && Keyed(l)
    ensures Sorted(l, toc) && Page(l, rows, toc, per, key).Window?
    ensures !Straddles(l, rows, toc, per, key)
  {
    TocSorted(l, rows, toc, per);
    forall p: nat | CellHas(toc, p, key) ensures FindGE(l, rows, key) >= PageStart(p, per) {
      BeforeCell(l, rows, toc, per, key, p);
    }
  }

  /** On wh128, too, with one row a key there is nothing to straddle. */
  lemma UniqueNeverStraddles(l: Lane, rows: seq<Row>, toc: seq<Row>, per: nat, key: Row)
    requires Sorted(l, rows) && TocOk(rows, toc, per) && key.val == 0
    requires forall i, j :: 0 <= i < j < |rows| ==> rows[i].key != rows[j].key
    ensures !Straddles(l, rows, toc, per, key)
  {
    forall p: nat | CellHas(toc, p, key) ensures FindGE(l, rows, key) >= PageStart(p, per) {
      BeforeCell(l, rows, toc, per, key, p);
    }
  }

  /**
    Range lower bound: what the index drops is below the bound, unless the run straddles.  When it does,
    the row just before the cell's page is dropped although the range should have it.
   */
  lemma RangeStartExact(l: Lane, rows: seq<Row>, toc: seq<Row>, per: nat, lo: Row)
    requires Sorted(l, rows) && TocOk(rows, toc, per) && Sorted(l, toc) && lo.val == 0
    ensures RangeStart(l, rows, toc, per, lo) <= |rows|
    ensures (forall i :: 0 <= i < RangeStart(l, rows, toc, per, lo) ==> Z(l, rows[i], lo))
            <==> !Straddles(l, rows, toc, per, lo)
  {
    LateExactly(l, rows, toc, per, lo);
    RangeStartLate(l, rows, toc, per, lo);
  }

  lemma RangeStartLate(l: Lane, rows: seq<Row>, toc: seq<Row>, per: nat, lo: Row)
    requires Sorted(l, rows) && TocOk(rows, toc, per) && Sorted(l, toc) && lo.val == 0
    ensures RangeStart(l, rows, toc, per, lo) <= |rows|
    ensures (forall i :: 0 <= i < RangeStart(l, rows, toc, per, lo) ==> Z(l, rows[i], lo))
            <==> !Late(l, rows, toc, per, lo)
  {
    if per != 0 && toc != [] {
      var start := RangeStart(l, rows, toc, per, lo);
      match Page(l, rows, toc, per, lo)
      case Cell(page) =>
        assert start < |rows| && rows[start] == toc[page];
        if start > 0 && Z(l, rows[start - 1], lo) {
          forall i | 0 <= i < start ensures Z(l, rows[i], lo) {
            assert i < start - 1 ==> Z(l, rows[i], rows[start - 1]);
          }
        }
      case Window(_, _) =>
        var i := PageIndex(l, toc, lo);
        assert start == PageStart(i, per) < |rows| && rows[start] == toc[i];
        forall k | 0 <= k < start ensures Z(l, rows[k], lo) {
          assert i > 0;
          StrictWeak(l, rows[k], toc[i], lo);
        }
    }
  }

  /** The search of one window: the index of a row with the needle's key, or the number of rows. */
  function WindowFind(l: Lane, rows: seq<Row>, lo: nat, hi: nat, needle: Row): (r: nat)
    requires Sorted(l, rows) && lo <= hi <= |rows|
    ensures r <= |rows|
  {
    var pos := lo + FindGE(l, rows[lo..hi], needle);
    if pos < hi && rows[pos].key == needle.key then pos else |rows|
  }

  /** What the indexed lookup finds: the index of the row it returns, or the number of rows. */
  function PagedFind(l: Lane, rows: seq<Row>, toc: seq<Row>, per: nat, needle: Row): (r: nat)
    requires Sorted(l, rows) && Sorted(l, toc)
    ensures Page(l, rows, toc, per, needle).Window? ==> r <= |rows|
  {
    match Page(l, rows, toc, per, needle)
    case Cell(page) => PageStart(page, per)
    case Window(lo, hi) => WindowFind(l, rows, lo, hi, needle)
  }

  /** What a search of the whole run finds. */
  function WholeFind(l: Lane, rows: seq<Row>, needle: Row): (r: nat)
    requires Sorted(l, rows)
    ensures r <= |rows|
  {
    var pos := FindGE(l, rows, needle);
    if pos < |rows| && rows[pos].key == needle.key then pos else |rows|
  }

  lemma {:induction false} FindUnique(l: Lane, rows: seq<Row>, needle: Row, g: nat)
    requires Sorted(l, rows) && g <= |rows|
    requires forall i :: 0 <= i < g ==> Z(l, rows[i], needle)
    requires g < |rows| ==> !Z(l, rows[g], needle)
    ensures FindGE(l, rows, needle) == g
  {
    if rows != [] && g > 0 { FindUnique(l, rows[1..], needle, g - 1); }
  }

  /** The next page starts above the needle, so the whole-run search stops in this page or at its end. */
  lemma WindowBounds(l: Lane, rows: seq<Row>, toc: seq<Row>, per: nat, needle: Row, i: nat)
    requires Sorted(l, rows) && TocOk(rows, toc, per) && toc != [] && Sorted(l, toc) && needle.val == 0
    requires i == PageIndex(l, toc, needle) && !(i + 1 < |toc| && toc[i + 1].key == needle.key)
    ensures PageStart(i, per) <= FindGE(l, rows, needle) && PageStart(i, per) <= |rows|
    ensures i + 1 < |toc| ==>
              && PageStart(i + 1, per) < |rows| && FindGE(l, rows, needle) <= PageStart(i + 1, per)
              && rows[PageStart(i + 1, per)].key != needle.key
    ensures i + 1 == |toc| ==> |rows| <= PageStart(i, per) + per
  {
    RangeStartLate(l, rows, toc, per, needle);
    assert PageStart(i + 1, per) == PageStart(i, per) + per;
    var g := FindGE(l, rows, needle);
    assert g == |rows| || !Z(l, rows[g], needle);
    if i + 1 < |toc| { assert rows[PageStart(i + 1, per)] == toc[i + 1]; }
  }

  lemma WindowSearch(l: Lane, rows: seq<Row>, needle: Row, lo: nat, hi: nat, g: nat)
    requires Sorted(l, rows) && lo <= g <= hi <= |rows| && g == FindGE(l, rows, needle)
    ensures lo + FindGE(l, rows[lo..hi], needle) == g
  {
    var win := rows[lo..hi];
    assert forall i :: 0 <= i < |win| ==> win[i] == rows[lo + i];
    FindUnique(l, win, needle, g - lo);
  }

  lemma WindowIsWhole(l: Lane, rows: seq<Row>, needle: Row, lo: nat, hi: nat)
    requires Sorted(l, rows) && lo <= FindGE(l, rows, needle) <= hi <= |rows|
    requires hi < |rows| ==> rows[hi].key != needle.key
    ensures WindowFind(l, rows, lo, hi, needle) == WholeFind(l, rows, needle)
  {
    WindowSearch(l, rows, needle, lo, hi, FindGE(l, rows, needle));
  }

  /**
    The indexed lookup hits exactly when the search of the whole run does, on every lane; and it returns
    the same row exactly when the run does not straddle.
   */
  lemma LookupExact(l: Lane, rows: seq<Row>, toc: seq<Row>, per: nat, needle: Row)
    requires Sorted(l, rows) && TocOk(rows, toc, per) && Sorted(l, toc) && needle.val == 0
    ensures PagedFind(l, rows, toc, per, needle) <= |rows|
    ensures PagedFind(l, rows, toc, per, needle) < |rows| <==> WholeFind(l, rows, needle) < |rows|
    ensures PagedFind(l, rows, toc, per, needle) < |rows| ==>
            rows[PagedFind(l, rows, toc, per, needle)].key == needle.key
    ensures PagedFind(l, rows, toc, per, needle) == WholeFind(l, rows, needle) <==>
            !Straddles(l, rows, toc, per, needle)
  {
    LateExactly(l, rows, toc, per, needle);
    if Page(l, rows, toc, per, needle).Cell? {
      CellLookup(l, rows, toc, per, needle);
    } else {
      WindowLookup(l, rows, toc, per, needle);
    }
  }

  lemma CellLookup(l: Lane, rows: seq<Row>, toc: seq<Row>, per: nat, needle: Row)
    requires Sorted(l, rows) && TocOk(rows, toc, per) && Sorted(l, toc) && needle.val == 0
    requires Page(l, rows, toc, per, needle).Cell?
    ensures var f, w := PagedFind(l, rows, toc, per, needle), WholeFind(l, rows, needle);
            w <= f < |rows| && rows[f].key == needle.key && (f == w <==> !Late(l, rows, toc, per, needle))
  {
    var g, at := FindGE(l, rows, needle), PageStart(Page(l, rows, toc, per, needle).page, per);
    assert rows[at] == toc[Page(l, rows, toc, per, needle).page];
    assert !Z(l, rows[at], needle);
    assert g < at ==> Z(l, rows[g], rows[at]);
    assert at > 0 ==> (Z(l, rows[at - 1], needle) <==> g == at);
  }

  lemma WindowLookup(l: Lane, rows: seq<Row>, toc: seq<Row>, per: nat, needle: Row)
    requires Sorted(l, rows) && TocOk(rows, toc, per) && Sorted(l, toc) && needle.val == 0
    requires Page(l, rows, toc, per, needle).Window?
    ensures PagedFind(l, rows, toc, per, needle) == WholeFind(l, rows, needle)
  {
    var w := Page(l, rows, toc, per, needle);
    if per != 0 && toc != [] { WindowBounds(l, rows, toc, per, needle, PageIndex(l, toc, needle)); }
    WindowIsWhole(l, rows, needle, w.lo, w.hi);
  }

  /** The rows (7, 1), (7, 2) and so on. */
  function Sevens(n: nat): seq<Row> { seq(n, (i: nat) => Row(7, i + 1)) }

  /**
    The failure, on concrete runs, whatever the width of a page: wh128, two pages of rows with key 7.  A range from
    7 starts at the second page and loses the whole first one; a lookup of 7 returns the second page's first row.
   */
  lemma StraddleExample(per: nat)
    requires per >= 1
    ensures var rows, toc := Sevens(2 * per), [Row(7, 1), Row(7, per + 1)];
            && Sorted(Wh128, rows) && TocOk(rows, toc, per) && Sorted(Wh128, toc)
            && Straddles(Wh128, rows, toc, per, Row(7, 0))
            && RangeStart(Wh128, rows, toc, per, Row(7, 0)) == per
            && (forall i :: 0 <= i < per ==> !Z(Wh128, rows[i], Row(7, 0)))
            && PagedFind(Wh128, rows, toc, per, Row(7, 0)) == per && WholeFind(Wh128, rows, Row(7, 0)) == 0
  {
    var rows, toc := Sevens(2 * per), [Row(7, 1), Row(7, per + 1)];
    assert PageStart(0, per) == 0 && PageStart(1, per) == per && PageStart(2, per) == 2 * per;
    assert PageIndex(Wh128, toc, Row(7, 0)) == 0;
    FindUnique(Wh128, rows, Row(7, 0), 0);
    assert CellHas(toc, 1, Row(7, 0));
  }

  const TWO_PAGES: seq<Row> := [Row(5, 0), Row(7, 1), Row(7, 2)]

  lemma OnTwoPages()
    ensures Sorted(Wh128, TWO_PAGES) && TocOk(TWO_PAGES, TWO_PAGES, 1)
  {
    assert PageStart(0, 1) == 0 && PageStart(1, 1) == 1 && PageStart(2, 1) == 2 && PageStart(3, 1) == 3;
  }

  /** Rows of a key on two pages, here of one row each, are not enough: the first of them starts its page. */
  lemma OnTwoPagesExample()
    ensures Sorted(Wh128, TWO_PAGES) && TocOk(TWO_PAGES, TWO_PAGES, 1)
    ensures !Straddles(Wh128, TWO_PAGES, TWO_PAGES, 1, Row(7, 0))
  {
    OnTwoPages();
    FindUnique(Wh128, TWO_PAGES, Row(7, 0), 1);
    assert PageStart(1, 1) == 1 && CellHas(TWO_PAGES, 1, Row(7, 0));
  }
}
