/**
  Where spans lie in memory: at their place in their region, which lies where the kernel put it.  And what the
  operations on super-spans leave alone: every header but that of the span they are asked to give up.
*/
module SpanAddresses {
  import opened Division
  import opened SuperSpan
  import opened SuperSpanSafety
  import opened SuperSpanTheorems

  // ----- headers

  predicate IsHead(s: State, a: Address) { a.region < |s.regions| && a.at in s.regions[a.region].heads }

  function HeadOf(s: State, a: Address): Head
    requires IsHead(s, a)
  {
    s.regions[a.region].heads[a.at]
  }

  predicate SameHead(s: State, t: State, a: Address) { IsHead(s, a) && IsHead(t, a) && HeadOf(t, a) == HeadOf(s, a) }

  function Heads(s: State): set<Address> {
    set r: nat, at | r < |s.regions| && at in s.regions[r].heads :: Address(r, at)
  }

  lemma HeadsAre(s: State, a: Address)
    ensures a in Heads(s) <==> IsHead(s, a)
  {
  }

  // ----- what stays

  /** A region keeps its size, and only loses memory. */
  predicate Shrinks(a: Region, b: Region) { |b.units| == |a.units| && b.remaining <= a.remaining }

  /** At most one region more, and every header as it was, but for that of `gone`. */
  ghost predicate Onward(s: State, t: State, gone: set<Address>) {
    && |s.regions| <= |t.regions| <= |s.regions| + 1
    && (forall r :: 0 <= r < |s.regions| ==> Shrinks(s.regions[r], t.regions[r]))
    && forall a :: IsHead(s, a) && a !in gone ==> SameHead(s, t, a)
  }

  /** The same, and no region more. */
  ghost predicate Within(s: State, t: State, gone: set<Address>) {
    |t.regions| == |s.regions| && Onward(s, t, gone)
  }

  lemma OnwardOn(s: State, t: State, u: State, gone: set<Address>, lost: set<Address>)
    requires Within(s, t, gone) && Onward(t, u, lost)
    ensures Onward(s, u, gone + lost)
  {
    forall a | IsHead(s, a) && a !in gone + lost ensures SameHead(s, u, a) {
      assert SameHead(s, t, a) && SameHead(t, u, a);
    }
  }

  lemma OnwardStill(s: State, t: State, u: State)
    requires Within(s, t, {}) && Onward(t, u, {})
    ensures Onward(s, u, {})
  {
    forall a | IsHead(s, a) ensures SameHead(s, u, a) {
      assert SameHead(s, t, a) && SameHead(t, u, a);
    }
  }

  /** What was no header before cannot have been lost. */
  lemma OnwardLess(s: State, t: State, gone: set<Address>)
    requires Onward(s, t, gone) && forall a <- gone :: !IsHead(s, a)
    ensures Onward(s, t, {})
  {
  }

  lemma TakeHeapOnward(s: State, h: nat, k: nat)
    requires Inv(s) && h < |s.heaps| && 1 <= k <= s.heaps[h].count
    ensures InRegion(s, s.heaps[h]) && Within(s, TakeHeap(s, h, k).0, {}) && !IsHead(s, TakeHeap(s, h, k).1)
  {
    var rv := s.heaps[h];
    assert ReserveOk(s, rv, Heap(h));
    CarveOk(s.regions[rv.region], rv.at, k, Heap(h));
    MappedFill(s.regions[rv.region].units, rv.at, k, Heap(h), Span(rv.at));
  }

  lemma TakeGlobalOnward(s: State, k: nat)
    requires Inv(s) && 1 <= k <= s.global.count
    ensures InRegion(s, s.global) && Within(s, TakeGlobal(s, k).0, {}) && !IsHead(s, TakeGlobal(s, k).1)
  {
    var rv := s.global;
    CarveOk(s.regions[rv.region], rv.at, k, Global);
  }

  lemma UnmapOnward(s: State, a: Address)
    requires Inv(s) && IsHead(s, a)
    ensures SpanAt(s, a) && Within(s, UnmapSpan(s, a), {a})
  {
    UnmapSpanKeeps(s, a);
    UnmapOk(s.regions[a.region], a.at);
  }

  lemma HoldOnward(s: State, h: nat, a: Address, keep: nat)
    requires Inv(s) && h < |s.heaps| && IsHead(s, a) && keep < HeadOf(s, a).count
    ensures SpanAt(s, a) && Within(s, HoldSpan(s, h, a, keep), {a})
  {
    HoldOk(s.regions[a.region], a.at, keep, h);
  }

  lemma CacheReserveOnward(s: State, h: nat)
    requires Inv(s) && h < |s.heaps|
    ensures s.heaps[h].count > 0 ==> InRegion(s, s.heaps[h])
    ensures Within(s, CacheReserve(s, h), {})
  {
    if s.heaps[h].count > 0 { TakeHeapOnward(s, h, s.heaps[h].count); }
  }

  lemma UnmapGlobalOnward(s: State)
    requires Inv(s)
    ensures s.global.count > 0 ==> InRegion(s, s.global)
    ensures Within(s, UnmapGlobal(s), {})
  {
    if s.global.count > 0 {
      TakeGlobalKeeps(s, s.global.count);
      TakeGlobalOnward(s, s.global.count);
      var (t, a) := TakeGlobal(s, s.global.count);
      UnmapOnward(t, a);
      OnwardOn(s, t, UnmapSpan(t, a), {}, {a});
      OnwardLess(s, UnmapSpan(t, a), {} + {a});
    }
  }

  lemma AddSplitOnward(s: State, c: Config, h: nat, k: nat, extra: nat)
    requires h < |s.heaps|
    ensures Onward(s, AddSplit(s, c, h, k, extra), {}) && |AddSplit(s, c, h, k, extra).regions| == |s.regions| + 1
  {
  }

  lemma MapExtraOnward(s: State, c: Config, h: nat, k: nat, extra: nat)
    requires Inv(s) && h < |s.heaps|
    ensures (s.heaps[h].count > 0 ==> InRegion(s, s.heaps[h])) && (s.global.count > 0 ==> InRegion(s, s.global))
    ensures Onward(s, MapExtra(s, c, h, k, extra).state, {})
  {
    CacheReserveKeeps(s, h);
    CacheReserveOnward(s, h);
    var s1 := if extra > 0 then CacheReserve(s, h) else s;
    UnmapGlobalOnward(s);
    UnmapGlobalOnward(s1);
    var s2 := if extra > Quota(c) then UnmapGlobal(s1) else s1;
    OnwardStill(s, s1, s2);
    AddSplitOnward(s2, c, h, k, extra);
    OnwardStill(s, s2, AddSplit(s2, c, h, k, extra));
  }

  lemma MapNewOnward(s: State, c: Config, h: nat, k: nat)
    requires Sound(s, c) && h < |s.heaps| && k >= 1
    ensures (s.heaps[h].count > 0 ==> InRegion(s, s.heaps[h])) && (s.global.count > 0 ==> InRegion(s, s.global))
    ensures Onward(s, MapNew(s, c, h, k).state, {})
  {
    var extra := AlignCount(c, k) - k;
    MapExtraOnward(s, c, h, k, extra);
    MapNewIs(s, c, h, k, extra);
  }

  lemma MapGlobalOnward(s: State, c: Config, h: nat, k: nat)
    requires Sound(s, c) && h < |s.heaps| && 1 <= k <= FromGlobal(s, c, h, k)
    ensures InRegion(s, s.global) && Onward(s, MapGlobal(s, c, h, k).state, {})
  {
    var n := FromGlobal(s, c, h, k);
    TakeGlobalKeeps(s, n);
    TakeGlobalOnward(s, n);
    var (t, a) := TakeGlobal(s, n);
    if n > k {
      HoldOnward(t, h, a, k);
      OnwardOn(s, t, HoldSpan(t, h, a, k), {}, {a});
      OnwardLess(s, HoldSpan(t, h, a, k), {} + {a});
    }
  }

  lemma MapOnward(s: State, c: Config, h: nat, k: nat, memory: bool)
    requires Sound(s, c) && h < |s.heaps| && 1 <= k <= LARGE_CLASSES
    ensures (s.heaps[h].count > 0 ==> InRegion(s, s.heaps[h])) && (s.global.count > 0 ==> InRegion(s, s.global))
    ensures s.global.count >= k ==> FromGlobal(s, c, h, k) >= k
    ensures Onward(s, Map(s, c, h, k, memory).state, {})
  {
    MapNewOnward(s, c, h, k);
    if s.global.count >= k { QuotaCovers(s, c, h, k); }
    if k <= s.heaps[h].count {
      TakeHeapOnward(s, h, k);
    } else if UsesGlobal(c) && s.global.count >= k {
      MapGlobalOnward(s, c, h, k);
    }
  }

  lemma NewHeapOnward(s: State, c: Config, memory: bool)
    requires Sound(s, c)
    ensures s.global.count > 0 ==> InRegion(s, s.global)
    ensures Onward(s, NewHeap(s, c, memory).state, {})
  {
    UnmapGlobalKeeps(s);
    var t := s.(heaps := s.heaps + [EMPTY]);
    MoreHeaps(s);
    if s.global.count >= Wanted(c) {
      TakeGlobalOnward(t, Wanted(c));
      OnwardStill(s, t, TakeGlobal(t, Wanted(c)).0);
    } else if memory && LargePage(c) {
      HeapsFit(c);
      AddSplitOnward(t, c, |s.heaps|, Spans(c), c.spansPerPage - Spans(c));
    }
  }

  lemma FreeLargeOnward(s: State, h: nat, a: Address, cold: bool)
    requires Inv(s) && h < |s.heaps| && IsHead(s, a)
    ensures SpanAt(s, a) && Within(s, FreeLarge(s, h, a, cold), {a})
  {
    var reg := s.regions[a.region];
    assert HeadOk(reg.units, a.at, reg.heads[a.at]);
    if reg.heads[a.at].count > 1 { HoldOnward(s, h, a, 0); }
  }

  /** The span an operation is asked to give up. */
  function Gone(e: Event): set<Address> {
    match e
    case FreeSpan(_, a, _) => {a}
    case UnmapPiece(a) => {a}
    case _ => {}
  }

  /** No operation touches the header of any other span. */
  lemma StepOnward(s: State, c: Config, e: Event, t: State)
    requires Sound(s, c) && Step(c, s, e, t)
    ensures Sound(t, c) && Onward(s, t, Gone(e))
  {
    match e
    case MapSpan(h, k, memory) =>
      MapKeeps(s, c, h, k, memory);
      MapOnward(s, c, h, k, memory);
    case MakeHeap(memory) =>
      NewHeapExactly(s, c, memory);
      NewHeapOnward(s, c, memory);
    case OrphanHeap => MoreHeaps(s);
    case FreeSpan(h, a, cold) =>
      FreeLargeKeeps(s, c, h, a, cold);
      FreeLargeOnward(s, h, a, cold);
    case UnmapPiece(a) =>
      UnmapSpanKeeps(s, a);
      UnmapOnward(s, a);
  }

  // ----- addresses

  /** Two stretches of memory, of m bytes at a and n bytes at b. */
  predicate Apart(a: nat, m: nat, b: nat, n: nat) { a + m <= b || b + n <= a }

  function Bytes(s: State, r: nat, span: nat): nat
    requires r < |s.regions|
  {
    |s.regions[r].units| * span
  }

  /** The regions not released yet lie at span boundaries, and apart. */
  ghost predicate Laid(s: State, bases: seq<nat>, span: nat) {
    && span > 0 && |bases| == |s.regions|
    && (forall r :: 0 <= r < |bases| ==> bases[r] > 0 && bases[r] % span == 0)
    && forall q, r :: 0 <= q < r < |bases| && s.regions[q].remaining > 0 && s.regions[r].remaining > 0 ==>
         Apart(bases[q], Bytes(s, q, span), bases[r], Bytes(s, r, span))
  }

  /** Where a span is. */
  function Base(bases: seq<nat>, span: nat, a: Address): nat
    requires a.region < |bases|
  {
    bases[a.region] + a.at * span
  }

  /** A span lies in its region, which is not released, and at a span boundary. */
  lemma SpanInside(s: State, bases: seq<nat>, span: nat, a: Address)
    requires Inv(s) && Laid(s, bases, span) && IsHead(s, a)
    ensures s.regions[a.region].remaining > 0 && HeadOf(s, a).count >= 1
    ensures bases[a.region] <= Base(bases, span, a)
    ensures Base(bases, span, a) + HeadOf(s, a).count * span <= bases[a.region] + Bytes(s, a.region, span)
    ensures Base(bases, span, a) > 0 && Base(bases, span, a) % span == 0
  {
    var reg := s.regions[a.region];
    assert RegionOk(reg) && HeadOk(reg.units, a.at, reg.heads[a.at]);
    MappedOne(reg.units, a.at);
    SumOfTimes(a.at, HeadOf(s, a).count, |reg.units|, span);
    RemTimes(a.at, span);
    RemSum(bases[a.region], a.at * span, span);
  }

  lemma SumOfTimes(x: nat, y: nat, n: nat, d: nat)
    requires x + y <= n
    ensures x * d + y * d <= n * d
  {
    Times(d, x + y, n);
    assert (x + y) * d == x * d + y * d;
  }

  lemma RemSum(a: nat, b: nat, d: nat)
    requires d > 0 && a % d == 0 && b % d == 0
    ensures (a + b) % d == 0
  {
    RemPlus(a, b, d);
  }

  /** The units of two spans of a region are others. */
  lemma UnitsApart(s: State, a: Address, b: Address)
    requires Inv(s) && IsHead(s, a) && IsHead(s, b) && a.region == b.region && a.at != b.at
    ensures a.at + HeadOf(s, a).count <= b.at || b.at + HeadOf(s, b).count <= a.at
  {
    var reg := s.regions[a.region];
    assert RegionOk(reg) && HeadOk(reg.units, a.at, reg.heads[a.at]) && HeadOk(reg.units, b.at, reg.heads[b.at]);
    assert reg.units[a.at] == Span(a.at) && reg.units[b.at] == Span(b.at);
  }

  /** Two headers never cover the same memory. */
  lemma HeadersApart(s: State, bases: seq<nat>, span: nat, a: Address, b: Address)
    requires Inv(s) && Laid(s, bases, span) && IsHead(s, a) && IsHead(s, b) && a != b
    ensures Apart(Base(bases, span, a), HeadOf(s, a).count * span, Base(bases, span, b), HeadOf(s, b).count * span)
  {
    SpanInside(s, bases, span, a);
    SpanInside(s, bases, span, b);
    if a.region == b.region {
      UnitsApart(s, a, b);
      if a.at < b.at {
        SumOfTimes(a.at, HeadOf(s, a).count, b.at, span);
      } else {
        SumOfTimes(b.at, HeadOf(s, b).count, a.at, span);
      }
    } else if a.region < b.region {
      assert Apart(bases[a.region], Bytes(s, a.region, span), bases[b.region], Bytes(s, b.region, span));
    } else {
      assert Apart(bases[b.region], Bytes(s, b.region, span), bases[a.region], Bytes(s, a.region, span));
    }
  }

  /** In every run: the headers of regions that are laid out apart cover memory apart. */
  lemma HeadersApartInRuns(c: Config, states: seq<State>, events: seq<Event>, i: nat, bases: seq<nat>, span: nat,
                           a: Address, b: Address)
    requires Run(c, states, events) && i <= |events| && Laid(states[i], bases, span)
    requires IsHead(states[i], a) && IsHead(states[i], b) && a != b
    ensures var s := states[i];
            Apart(Base(bases, span, a), HeadOf(s, a).count * span, Base(bases, span, b), HeadOf(s, b).count * span)
  {
    EveryRun(c, states, events, i);
    HeadersApart(states[i], bases, span, a, b);
  }

  /** A new region has to be laid apart from those that are not released; then all are. */
  lemma LaidOn(s: State, t: State, gone: set<Address>, bases: seq<nat>, later: seq<nat>, span: nat)
    requires Laid(s, bases, span) && Onward(s, t, gone) && |later| == |t.regions| && bases <= later
    requires |t.regions| > |s.regions| ==> Vacant(s, bases, span, later[|s.regions|], Bytes(t, |s.regions|, span))
    ensures Laid(t, later, span)
  {
    forall q, r | 0 <= q < r < |later| && t.regions[q].remaining > 0 && t.regions[r].remaining > 0
      ensures Apart(later[q], Bytes(t, q, span), later[r], Bytes(t, r, span))
    {
      assert Shrinks(s.regions[q], t.regions[q]);
      if r < |bases| {
        assert Shrinks(s.regions[r], t.regions[r]);
        assert Apart(bases[q], Bytes(s, q, span), bases[r], Bytes(s, r, span));
      }
    }
  }

  /**
    What the kernel promises of `bytes` of memory it maps at `base`: at a span boundary, clear of every region
    in use.
  */
  ghost predicate Vacant(s: State, bases: seq<nat>, span: nat, base: nat, bytes: nat)
    requires |bases| == |s.regions| && span > 0
  {
    && base > 0 && base % span == 0
    && forall r :: 0 <= r < |bases| && s.regions[r].remaining > 0 ==> Apart(bases[r], Bytes(s, r, span), base, bytes)
  }
}
