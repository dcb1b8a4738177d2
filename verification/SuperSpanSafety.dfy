/**
  Super-span conservation: every unit of a region is in one place, and the region is released once, when nothing
  is left.
*/
module SuperSpanSafety {
  import opened Options
  import opened SuperSpan

  // ----- one region

  predicate Covers(units: seq<Place>, at: nat, n: nat, p: Place) {
    at + n <= |units| && forall i :: at <= i < at + n ==> units[i] == p
  }

  /** Headers and units agree, and remaining_spans counts what is not unmapped. */
  ghost predicate RegionOk(reg: Region) {
    && |reg.units| >= 1
    && reg.remaining == Mapped(reg.units) && reg.released == One(reg.remaining == 0)
    && (reg.live <==> reg.units[0] != Unmapped)
    && (forall at <- reg.heads :: HeadOk(reg.units, at, reg.heads[at]))
    && forall i :: 0 <= i < |reg.units| && reg.units[i].Span? ==> Owned(reg.heads, reg.units[i].head, i)
  }

  /** The span at `at` is exactly the units its header says; the master is the span at 0. */
  predicate HeadOk(units: seq<Place>, at: nat, head: Head) {
    head.count >= 1 && head.master == (at == 0) && head.offset == at && Covers(units, at, head.count, Span(at))
  }

  predicate Owned(heads: map<nat, Head>, at: nat, i: nat) {
    at in heads && at <= i < at + heads[at].count
  }

  // ----- counting

  lemma {:induction false} MappedJoin(a: seq<Place>, b: seq<Place>)
    ensures Mapped(a + b) == Mapped(a) + Mapped(b)
  {
    if b == [] {
      assert a + b == a;
    } else {
      assert (a + b)[..|a + b| - 1] == a + b[..|b| - 1];
      MappedJoin(a, b[..|b| - 1]);
    }
  }

  lemma {:induction false} MappedSame(units: seq<Place>, p: Place)
    requires forall i :: 0 <= i < |units| ==> units[i] == p
    ensures Mapped(units) == if p == Unmapped then 0 else |units|
  {
    if units != [] { MappedSame(units[..|units| - 1], p); }
  }

  /** Moving n units from one place to another. */
  lemma MappedFill(units: seq<Place>, at: nat, n: nat, p: Place, q: Place)
    requires Covers(units, at, n, p)
    ensures Mapped(Fill(units, at, n, q)) ==
            Mapped(units) - (if p == Unmapped then 0 else n) + (if q == Unmapped then 0 else n)
  {
    var a, m, b := units[..at], units[at..at + n], units[at + n..];
    var u := Fill(units, at, n, q);
    FillParts(units, at, n, q);
    MappedParts(a, m, b);
    MappedParts(a, u[at..at + n], b);
    MappedSame(m, p);
    MappedSame(u[at..at + n], q);
  }

  lemma FillParts(units: seq<Place>, at: nat, n: nat, q: Place)
    requires at + n <= |units|
    ensures var u := Fill(units, at, n, q); u == units[..at] + u[at..at + n] + units[at + n..]
    ensures units == units[..at] + units[at..at + n] + units[at + n..]
  {
  }

  lemma MappedParts(a: seq<Place>, b: seq<Place>, c: seq<Place>)
    ensures Mapped(a + b + c) == Mapped(a) + Mapped(b) + Mapped(c)
  {
    MappedJoin(a, b);
    MappedJoin(a + b, c);
  }

  /** A unit that is still mapped is counted. */
  lemma {:induction false} MappedOne(units: seq<Place>, i: nat)
    requires i < |units| && units[i] != Unmapped
    ensures Mapped(units) >= 1
  {
    if i < |units| - 1 { MappedOne(units[..|units| - 1], i); }
  }

  // ----- one region, step by step

  /** The headers other than the one at `at` do not reach into a stretch that is not theirs. */
  lemma HeadsStay(reg: Region, at: nat, n: nat, p: Place, q: Place, b: nat)
    requires RegionOk(reg) && Covers(reg.units, at, n, p) && b in reg.heads && p != Span(b)
    ensures HeadOk(Fill(reg.units, at, n, q), b, reg.heads[b])
  {
    var head, after := reg.heads[b], Fill(reg.units, at, n, q);
    assert HeadOk(reg.units, b, head);
    forall i | b <= i < b + head.count ensures after[i] == Span(b) {
      assert reg.units[i] == Span(b) && !(at <= i < at + n);
    }
  }

  lemma HeadsHere(reg: Region)
    requires RegionOk(reg)
    ensures forall b <- reg.heads :: b < |reg.units| && reg.units[b] == Span(b)
  {
    forall b | b in reg.heads ensures b < |reg.units| && reg.units[b] == Span(b) {
      assert HeadOk(reg.units, b, reg.heads[b]);
    }
  }

  /** Reserved units become a span. */
  lemma CarveOk(reg: Region, at: nat, n: nat, p: Place)
    requires RegionOk(reg) && n >= 1 && Covers(reg.units, at, n, p) && (p.Heap? || p.Global?)
    ensures RegionOk(Carve(reg, at, n)) && at !in reg.heads
  {
    var r := Carve(reg, at, n);
    MappedFill(reg.units, at, n, p, Span(at));
    HeadsHere(reg);
    assert at !in reg.heads;
    forall b | b in r.heads ensures HeadOk(r.units, b, r.heads[b]) {
      if b != at { HeadsStay(reg, at, n, p, Span(at), b); }
    }
    forall i | 0 <= i < |r.units| && r.units[i].Span? ensures Owned(r.heads, r.units[i].head, i) {
      if !(at <= i < at + n) { assert Owned(reg.heads, reg.units[i].head, i); }
    }
  }

  /** A span is unmapped: the region is released when it was the last piece, and only then. */
  lemma UnmapOk(reg: Region, at: nat)
    requires RegionOk(reg) && at in reg.heads
    ensures at + reg.heads[at].count <= |reg.units| && RegionOk(Unmap(reg, at)) && reg.released == 0
    ensures Unmap(reg, at).remaining == reg.remaining - reg.heads[at].count
  {
    var head := reg.heads[at];
    assert HeadOk(reg.units, at, head);
    var r := Unmap(reg, at);
    MappedFill(reg.units, at, head.count, Span(at), Unmapped);
    MappedOne(reg.units, at);
    forall b | b in r.heads ensures HeadOk(r.units, b, r.heads[b]) {
      HeadsStay(reg, at, head.count, Span(at), Unmapped, b);
    }
    forall i | 0 <= i < |r.units| && r.units[i].Span? ensures Owned(r.heads, r.units[i].head, i) {
      assert Owned(reg.heads, reg.units[i].head, i);
    }
  }

  lemma HoldHeads(reg: Region, at: nat, keep: nat, h: nat, b: nat)
    requires RegionOk(reg) && at in reg.heads && keep < reg.heads[at].count && at + reg.heads[at].count <= |reg.units|
    requires b in Hold(reg, at, keep, h).heads
    ensures HeadOk(Hold(reg, at, keep, h).units, b, Hold(reg, at, keep, h).heads[b])
  {
    assert HeadOk(reg.units, at, reg.heads[at]);
    if b != at { HeadsStay(reg, at + keep, reg.heads[at].count - keep, Span(at), Heap(h), b); }
  }

  lemma HoldOwned(reg: Region, at: nat, keep: nat, h: nat, i: nat)
    requires RegionOk(reg) && at in reg.heads && keep < reg.heads[at].count && at + reg.heads[at].count <= |reg.units|
    requires i < |reg.units| && Hold(reg, at, keep, h).units[i].Span?
    ensures Owned(Hold(reg, at, keep, h).heads, Hold(reg, at, keep, h).units[i].head, i)
  {
    assert HeadOk(reg.units, at, reg.heads[at]);
    assert !(at + keep <= i < at + reg.heads[at].count);
    assert Owned(reg.heads, reg.units[i].head, i);
  }

  /** A span's tail, or all of it, becomes reserve. */
  lemma HoldOk(reg: Region, at: nat, keep: nat, h: nat)
    requires RegionOk(reg) && at in reg.heads && keep < reg.heads[at].count
    ensures at + reg.heads[at].count <= |reg.units| && RegionOk(Hold(reg, at, keep, h))
  {
    assert HeadOk(reg.units, at, reg.heads[at]);
    var r, tail := Hold(reg, at, keep, h), reg.heads[at].count - keep;
    MappedFill(reg.units, at + keep, tail, Span(at), Heap(h));
    forall b | b in r.heads ensures HeadOk(r.units, b, r.heads[b]) {
      HoldHeads(reg, at, keep, h, b);
    }
    forall i | 0 <= i < |r.units| && r.units[i].Span? ensures Owned(r.heads, r.units[i].head, i) {
      HoldOwned(reg, at, keep, h, i);
    }
  }

  lemma FreshOk(k: nat, h: nat, reserve: nat, rest: nat)
    requires k >= 1
    ensures var r := Fresh(k, h, reserve, rest);
            RegionOk(r) && Covers(r.units, k, reserve, Heap(h)) && Covers(r.units, k + reserve, rest, Global)
  {
    var a, b, c := seq(k, _ => Span(0)), seq(reserve, _ => Heap(h)), seq(rest, _ => Global);
    MappedParts(a, b, c);
    MappedSame(a, Span(0));
    MappedSame(b, Heap(h));
    MappedSame(c, Global);
  }

  // ----- the whole state

  ghost predicate ReserveOk(s: State, rv: Reserve, p: Place) {
    rv.count > 0 ==> rv.region < |s.regions| && Covers(s.regions[rv.region].units, rv.at, rv.count, p)
  }

  predicate In(rv: Reserve, r: nat, i: nat) { rv.region == r && rv.at <= i < rv.at + rv.count }

  /** A reserved unit is inside the reserve it is said to be in. */
  predicate UnitOk(s: State, r: nat, i: nat)
    requires r < |s.regions| && i < |s.regions[r].units|
  {
    match s.regions[r].units[i]
    case Heap(h) => h < |s.heaps| && In(s.heaps[h], r, i)
    case Global => In(s.global, r, i)
    case _ => true
  }

  ghost predicate Inv(s: State) {
    && (forall r :: 0 <= r < |s.regions| ==> RegionOk(s.regions[r]))
    && (forall h :: 0 <= h < |s.heaps| ==> ReserveOk(s, s.heaps[h], Heap(h)))
    && ReserveOk(s, s.global, Global)
    && forall r :: 0 <= r < |s.regions| ==> UnitsOk(s, r)
  }

  ghost predicate UnitsOk(s: State, r: nat)
    requires r < |s.regions|
  {
    forall i :: 0 <= i < |s.regions[r].units| ==> UnitOk(s, r, i)
  }

  // ----- one stretch of units changes place

  /** Units at..at+n of region r go from place p to place q; if p is a reserve, from its front. */
  datatype Move = Move(r: nat, at: nat, n: nat, p: Place, q: Place)

  predicate CanMove(s: State, m: Move) {
    && m.r < |s.regions| && m.n >= 1 && m.p != m.q && Covers(s.regions[m.r].units, m.at, m.n, m.p)
    && (m.p.Heap? ==> m.p.h < |s.heaps| && Front(s.heaps[m.p.h], m))
    && (m.p.Global? ==> Front(s.global, m))
    && (m.q.Heap? ==> m.q.h < |s.heaps| && s.heaps[m.q.h].count == 0)
    && !m.q.Global?
  }

  predicate Front(rv: Reserve, m: Move) { rv.region == m.r && rv.at == m.at && m.n <= rv.count }

  function ReserveAfter(rv: Reserve, place: Place, m: Move): Reserve {
    if place == m.p && m.n <= rv.count then Advance(rv, m.n)
    else if place == m.q then Reserve(m.r, m.at, m.n) else rv
  }

  /** t is s after the move; the region's headers are as they may be. */
  ghost predicate MovedTo(s: State, t: State, m: Move)
    requires CanMove(s, m)
  {
    && |t.regions| == |s.regions| && (forall r :: 0 <= r < |s.regions| && r != m.r ==> t.regions[r] == s.regions[r])
    && t.regions[m.r].units == Fill(s.regions[m.r].units, m.at, m.n, m.q) && RegionOk(t.regions[m.r])
    && |t.heaps| == |s.heaps|
    && (forall h :: 0 <= h < |s.heaps| ==> t.heaps[h] == ReserveAfter(s.heaps[h], Heap(h), m))
    && t.global == ReserveAfter(s.global, Global, m)
  }

  lemma MoveReserve(s: State, t: State, m: Move, rv: Reserve, place: Place)
    requires CanMove(s, m) && MovedTo(s, t, m) && ReserveOk(s, rv, place)
    requires place == m.p ==> Front(rv, m)
    ensures ReserveOk(t, ReserveAfter(rv, place, m), place)
  {
    var rv' := ReserveAfter(rv, place, m);
    if rv'.count > 0 {
      forall i | rv'.at <= i < rv'.at + rv'.count ensures t.regions[rv'.region].units[i] == place {
        if rv.count > 0 && rv.at <= i < rv.at + rv.count && rv'.region == rv.region {
          assert s.regions[rv.region].units[i] == place;
        }
      }
    }
  }

  lemma MoveUnit(s: State, t: State, m: Move, r: nat, i: nat)
    requires CanMove(s, m) && MovedTo(s, t, m) && r < |s.regions| && i < |s.regions[r].units| && UnitOk(s, r, i)
    ensures UnitOk(t, r, i)
  {
  }

  lemma MoveKeeps(s: State, t: State, m: Move)
    requires Inv(s) && CanMove(s, m) && MovedTo(s, t, m)
    ensures Inv(t)
  {
    forall h | 0 <= h < |t.heaps| ensures ReserveOk(t, t.heaps[h], Heap(h)) {
      MoveReserve(s, t, m, s.heaps[h], Heap(h));
    }
    MoveReserve(s, t, m, s.global, Global);
    forall r | 0 <= r < |t.regions| ensures UnitsOk(t, r) {
      assert UnitsOk(s, r);
      forall i | 0 <= i < |t.regions[r].units| ensures UnitOk(t, r, i) {
        assert UnitOk(s, r, i);
        MoveUnit(s, t, m, r, i);
      }
    }
  }

  // ----- the steps

  /** The address is of a span of k units. */
  predicate Handed(s: State, a: Address, k: nat) {
    a.region < |s.regions| && a.at in s.regions[a.region].heads && s.regions[a.region].heads[a.at].count == k
  }

  lemma TakeHeapKeeps(s: State, h: nat, k: nat)
    requires Inv(s) && h < |s.heaps| && 1 <= k <= s.heaps[h].count
    ensures InRegion(s, s.heaps[h]) && Inv(TakeHeap(s, h, k).0)
    ensures Handed(TakeHeap(s, h, k).0, TakeHeap(s, h, k).1, k)
  {
    var rv := s.heaps[h];
    assert ReserveOk(s, rv, Heap(h));
    CarveOk(s.regions[rv.region], rv.at, k, Heap(h));
    MoveKeeps(s, TakeHeap(s, h, k).0, Move(rv.region, rv.at, k, Heap(h), Span(rv.at)));
  }

  lemma TakeGlobalKeeps(s: State, k: nat)
    requires Inv(s) && 1 <= k <= s.global.count
    ensures InRegion(s, s.global) && Inv(TakeGlobal(s, k).0)
    ensures Handed(TakeGlobal(s, k).0, TakeGlobal(s, k).1, k)
  {
    var rv := s.global;
    CarveOk(s.regions[rv.region], rv.at, k, Global);
    MoveKeeps(s, TakeGlobal(s, k).0, Move(rv.region, rv.at, k, Global, Span(rv.at)));
  }

  lemma UnmapSpanKeeps(s: State, a: Address)
    requires Inv(s) && a.region < |s.regions| && a.at in s.regions[a.region].heads
    ensures SpanAt(s, a) && Inv(UnmapSpan(s, a))
  {
    var reg := s.regions[a.region];
    assert HeadOk(reg.units, a.at, reg.heads[a.at]);
    UnmapOk(reg, a.at);
    MoveKeeps(s, UnmapSpan(s, a), Move(a.region, a.at, reg.heads[a.at].count, Span(a.at), Unmapped));
  }

  lemma HoldSpanKeeps(s: State, h: nat, a: Address, keep: nat)
    requires Inv(s) && h < |s.heaps| && s.heaps[h].count == 0
    requires a.region < |s.regions| && a.at in s.regions[a.region].heads && keep < s.regions[a.region].heads[a.at].count
    ensures SpanAt(s, a) && Inv(HoldSpan(s, h, a, keep))
    ensures keep >= 1 ==> Handed(HoldSpan(s, h, a, keep), a, keep)
  {
    var reg := s.regions[a.region];
    var count := reg.heads[a.at].count;
    assert HeadOk(reg.units, a.at, reg.heads[a.at]);
    HoldOk(reg, a.at, keep, h);
    MoveKeeps(s, HoldSpan(s, h, a, keep), Move(a.region, a.at + keep, count - keep, Span(a.at), Heap(h)));
  }

  lemma AddRegionKeeps(s: State, k: nat, h: nat, reserve: nat, rest: nat)
    requires Inv(s) && h < |s.heaps| && k >= 1
    requires (reserve > 0 ==> s.heaps[h].count == 0) && (rest > 0 ==> s.global.count == 0)
    ensures Inv(AddRegion(s, k, h, reserve, rest))
    ensures Handed(AddRegion(s, k, h, reserve, rest), Address(|s.regions|, 0), k)
  {
    FreshOk(k, h, reserve, rest);
    var t := AddRegion(s, k, h, reserve, rest);
    forall g | 0 <= g < |t.heaps| ensures ReserveOk(t, t.heaps[g], Heap(g)) {
      assert ReserveOk(s, s.heaps[g], Heap(g));
    }
    forall r | 0 <= r < |t.regions| ensures UnitsOk(t, r) {
      if r < |s.regions| { assert UnitsOk(s, r); }
      forall i | 0 <= i < |t.regions[r].units| ensures UnitOk(t, r, i) {
        if r < |s.regions| { assert UnitOk(s, r, i); }
      }
    }
  }
}
