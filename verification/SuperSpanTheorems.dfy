/** The operations on super-spans keep every region tiled, in every run; and where one does not. */
module SuperSpanTheorems {
  import opened Division
  import opened SuperSpan
  import opened SuperSpanSafety

  /** There is a global reserve only where more spans are mapped at once than a heap may keep. */
  ghost predicate Sound(s: State, c: Config) {
    Inv(s) && WholePages(c) && (s.global.count > 0 ==> c.mapCount > DEFAULT_MAP_COUNT)
  }

  /** Rounding up to whole maps adds less than a map. */
  lemma AlignBound(c: Config, k: nat)
    requires WholePages(c) && k >= 1
    ensures AlignCount(c, k) - k < c.mapCount
  {
    if k > c.mapCount && k % c.mapCount == 0 { RemChain(k, c.mapCount, c.spansPerPage); }
  }

  /** What is mapped is at least one map, and whole pages. */
  lemma AlignWhole(c: Config, k: nat)
    requires WholePages(c)
    ensures AlignCount(c, k) >= c.mapCount && AlignCount(c, k) % c.spansPerPage == 0
  {
    var n := if k > c.mapCount then k else c.mapCount;
    if c.spansPerPage > 1 && n % c.spansPerPage != 0 {
      var q := n / c.mapCount;
      RemExact(n, c.mapCount);
      RemTimes(q + 1, c.mapCount);
      assert (q + 1) * c.mapCount == q * c.mapCount + c.mapCount;
      RemChain((q + 1) * c.mapCount, c.mapCount, c.spansPerPage);
    }
  }

  /** What a span of k units is given from the global reserve falls short exactly when k is over the heap's quota. */
  lemma ShortExactly(s: State, c: Config, h: nat, k: nat)
    requires h < |s.heaps| && s.global.count >= k
    ensures FromGlobal(s, c, h, k) < k <==> s.heaps[h].count == 0 && Quota(c) < k
  {
  }

  /** And that never happens: with a global reserve the quota covers every large request. */
  lemma QuotaCovers(s: State, c: Config, h: nat, k: nat)
    requires Sound(s, c) && h < |s.heaps| && 1 <= k <= LARGE_CLASSES && s.global.count >= k
    ensures FromGlobal(s, c, h, k) >= k
  {
    ShortExactly(s, c, h, k);
  }

  lemma CacheReserveKeeps(s: State, h: nat)
    requires Inv(s) && h < |s.heaps|
    ensures s.heaps[h].count > 0 ==> InRegion(s, s.heaps[h])
    ensures var t := CacheReserve(s, h);
            Inv(t) && |t.heaps| == |s.heaps| && t.heaps[h].count == 0 && t.global == s.global
    ensures |CacheReserve(s, h).regions| == |s.regions|
  {
    if s.heaps[h].count > 0 { TakeHeapKeeps(s, h, s.heaps[h].count); }
  }

  lemma UnmapGlobalKeeps(s: State)
    requires Inv(s)
    ensures s.global.count > 0 ==> InRegion(s, s.global)
    ensures var t := UnmapGlobal(s); Inv(t) && t.heaps == s.heaps && t.global.count == 0 && |t.regions| == |s.regions|
  {
    if s.global.count > 0 {
      TakeGlobalKeeps(s, s.global.count);
      var (t, a) := TakeGlobal(s, s.global.count);
      UnmapSpanKeeps(t, a);
    }
  }

  lemma AddSplitKeeps(s: State, c: Config, h: nat, k: nat, extra: nat)
    requires Inv(s) && h < |s.heaps| && k >= 1 && (extra > 0 ==> s.heaps[h].count == 0) && extra < c.mapCount
    requires s.global.count > 0 ==> extra <= Quota(c) && c.mapCount > DEFAULT_MAP_COUNT
    ensures var t := AddSplit(s, c, h, k, extra);
            Inv(t) && Handed(t, Address(|s.regions|, 0), k) && (t.global.count > 0 ==> c.mapCount > DEFAULT_MAP_COUNT)
  {
    if extra > Quota(c) {
      AddRegionKeeps(s, k, h, Quota(c), extra - Quota(c));
    } else {
      AddRegionKeeps(s, k, h, extra, 0);
    }
  }

  lemma MapExtraKeeps(s: State, c: Config, h: nat, k: nat, extra: nat)
    requires Sound(s, c) && h < |s.heaps| && k >= 1 && extra < c.mapCount
    ensures (s.heaps[h].count > 0 ==> InRegion(s, s.heaps[h])) && (s.global.count > 0 ==> InRegion(s, s.global))
    ensures var g := MapExtra(s, c, h, k, extra); g.Given? && Sound(g.state, c) && Handed(g.state, g.span, k)
  {
    CacheReserveKeeps(s, h);
    var s1 := if extra > 0 then CacheReserve(s, h) else s;
    UnmapGlobalKeeps(s);
    UnmapGlobalKeeps(s1);
    var s2 := if extra > Quota(c) then UnmapGlobal(s1) else s1;
    AddSplitKeeps(s2, c, h, k, extra);
  }

  lemma MapNewKeeps(s: State, c: Config, h: nat, k: nat)
    requires Sound(s, c) && h < |s.heaps| && k >= 1
    ensures (s.heaps[h].count > 0 ==> InRegion(s, s.heaps[h])) && (s.global.count > 0 ==> InRegion(s, s.global))
    ensures var g := MapNew(s, c, h, k); g.Given? && Sound(g.state, c) && Handed(g.state, g.span, k)
  {
    AlignBound(c, k);
    var extra := AlignCount(c, k) - k;
    MapExtraKeeps(s, c, h, k, extra);
    MapNewIs(s, c, h, k, extra);
  }

  lemma MapNewIs(s: State, c: Config, h: nat, k: nat, extra: nat)
    requires h < |s.heaps| && WholePages(c) && extra == AlignCount(c, k) - k
    requires (s.heaps[h].count > 0 ==> InRegion(s, s.heaps[h])) && (s.global.count > 0 ==> InRegion(s, s.global))
    ensures MapNew(s, c, h, k) == MapExtra(s, c, h, k, extra)
  {
  }

  lemma MapGlobalKeeps(s: State, c: Config, h: nat, k: nat)
    requires Sound(s, c) && h < |s.heaps| && 1 <= k <= FromGlobal(s, c, h, k) && s.heaps[h].count < k
    ensures InRegion(s, s.global)
    ensures var g := MapGlobal(s, c, h, k); g.Given? && Sound(g.state, c) && Handed(g.state, g.span, k)
  {
    var n := FromGlobal(s, c, h, k);
    TakeGlobalKeeps(s, n);
    var (t, a) := TakeGlobal(s, n);
    if n > k { HoldSpanKeeps(t, h, a, k); }
  }

  /** Mapping a span, small, medium or large: what is handed out has the units its header says. */
  lemma MapKeeps(s: State, c: Config, h: nat, k: nat, memory: bool)
    requires Sound(s, c) && h < |s.heaps| && 1 <= k <= LARGE_CLASSES
    ensures (s.heaps[h].count > 0 ==> InRegion(s, s.heaps[h])) && (s.global.count > 0 ==> InRegion(s, s.global))
    ensures s.global.count >= k ==> FromGlobal(s, c, h, k) >= k
    ensures var g := Map(s, c, h, k, memory); Sound(g.state, c) && (g.Given? ==> Handed(g.state, g.span, k))
  {
    CacheReserveKeeps(s, h);
    UnmapGlobalKeeps(s);
    if s.global.count >= k { QuotaCovers(s, c, h, k); }
    if k <= s.heaps[h].count {
      TakeHeapKeeps(s, h, k);
    } else if UsesGlobal(c) && s.global.count >= k {
      MapGlobalKeeps(s, c, h, k);
    } else {
      MapNewKeeps(s, c, h, k);
    }
  }

  /** Neither reserve holds k units for the heap. */
  predicate Unreserved(s: State, c: Config, h: nat, k: nat)
    requires h < |s.heaps|
  {
    s.heaps[h].count < k && !(UsesGlobal(c) && s.global.count >= k)
  }

  /**
    Where the units come from: new memory is asked for, and missed, exactly if neither reserve holds them; and then one
    region is mapped, of which the heap keeps what is over up to its quota, and the global reserve what is over that.
  */
  lemma MapServes(s: State, c: Config, h: nat, k: nat, memory: bool)
    requires Sound(s, c) && h < |s.heaps| && 1 <= k <= LARGE_CLASSES
    ensures (s.heaps[h].count > 0 ==> InRegion(s, s.heaps[h])) && (s.global.count > 0 ==> InRegion(s, s.global))
    ensures s.global.count >= k ==> FromGlobal(s, c, h, k) >= k
    ensures var g := Map(s, c, h, k, memory);
            && (g.NoMemory? <==> !memory && Unreserved(s, c, h, k)) && (g.NoMemory? ==> g.state == s)
            && (g.Given? ==> |g.state.heaps| == |s.heaps| && if Unreserved(s, c, h, k) then FromNew(s, g.state, c, h, k)
                                                             else FromReserve(s, g.state, c, h, k))
  {
    MapKeeps(s, c, h, k, memory);
    if Unreserved(s, c, h, k) {
      if memory { NewServes(s, c, h, k); }
    } else if k > s.heaps[h].count {
      GlobalServes(s, c, h, k);
    }
  }

  /** The units are from a reserve, the heap's if that will do; no region is mapped. */
  predicate FromReserve(s: State, t: State, c: Config, h: nat, k: nat)
    requires h < |s.heaps| == |t.heaps|
  {
    && |t.regions| == |s.regions|
    && if k <= s.heaps[h].count then t.global == s.global && t.heaps[h].count + k == s.heaps[h].count
       else if s.heaps[h].count > 0 then t.global.count + k == s.global.count && t.heaps[h] == s.heaps[h]
       else t.global.count + k + t.heaps[h].count == s.global.count &&
            (t.heaps[h].count + k == Quota(c) || t.global.count == 0)
  }

  predicate FromNew(s: State, t: State, c: Config, h: nat, k: nat)
    requires h < |s.heaps| == |t.heaps| && WholePages(c)
  {
    var extra := AlignCount(c, k) - k;
    && |t.regions| == |s.regions| + 1 && |t.regions[|s.regions|].units| == k + extra
    && (if extra == 0 then t.heaps[h] == s.heaps[h]
        else t.heaps[h] == Reserve(|s.regions|, k, if extra > Quota(c) then Quota(c) else extra))
    && if extra > Quota(c) then t.global == Reserve(|s.regions|, k + Quota(c), extra - Quota(c))
       else t.global == s.global
  }

  lemma GlobalServes(s: State, c: Config, h: nat, k: nat)
    requires Sound(s, c) && h < |s.heaps| && 1 <= k <= FromGlobal(s, c, h, k) && s.heaps[h].count < k
    ensures InRegion(s, s.global)
    ensures var t := MapGlobal(s, c, h, k).state; |t.heaps| == |s.heaps| && FromReserve(s, t, c, h, k)
  {
    MapGlobalKeeps(s, c, h, k);
    TakeGlobalKeeps(s, FromGlobal(s, c, h, k));
  }

  lemma NewServes(s: State, c: Config, h: nat, k: nat)
    requires Sound(s, c) && h < |s.heaps| && k >= 1
    ensures (s.heaps[h].count > 0 ==> InRegion(s, s.heaps[h])) && (s.global.count > 0 ==> InRegion(s, s.global))
    ensures var t := MapNew(s, c, h, k).state; |t.heaps| == |s.heaps| && FromNew(s, t, c, h, k)
  {
    CacheReserveKeeps(s, h);
    var extra := AlignCount(c, k) - k;
    var s1 := if extra > 0 then CacheReserve(s, h) else s;
    UnmapGlobalKeeps(s);
    UnmapGlobalKeeps(s1);
  }

  // ----- new heaps

  lemma MoreHeaps(s: State)
    requires Inv(s)
    ensures Inv(s.(heaps := s.heaps + [EMPTY]))
  {
    var t := s.(heaps := s.heaps + [EMPTY]);
    forall h | 0 <= h < |t.heaps| ensures ReserveOk(t, t.heaps[h], Heap(h)) {
      if h < |s.heaps| { assert ReserveOk(s, s.heaps[h], Heap(h)); }
    }
    forall r | 0 <= r < |t.regions| ensures UnitsOk(t, r) {
      assert UnitsOk(s, r);
      forall i | 0 <= i < |t.regions[r].units| ensures UnitOk(t, r, i) {
        assert UnitOk(s, r, i);
      }
    }
  }

  /** The configurations with which a new heap's large page has more left than the heap may keep. */
  predicate LeavesMore(c: Config) {
    LargePage(c) && c.spansPerPage - Spans(c) > Quota(c)
  }

  /** Then a new page's leftover goes over what there is of the global reserve. */
  predicate Overwrites(s: State, c: Config, memory: bool) {
    memory && LeavesMore(c) && 0 < s.global.count < Wanted(c)
  }

  /**
    _rpmalloc_heap_allocate_new puts the new leftover over the global reserve without looking: exactly then
    spans are lost.
  */
  lemma NewHeapExactly(s: State, c: Config, memory: bool)
    requires Sound(s, c)
    ensures s.global.count > 0 ==> InRegion(s, s.global)
    ensures Sound(NewHeap(s, c, memory).state, c) <==> !Overwrites(s, c, memory)
  {
    UnmapGlobalKeeps(s);
    if Overwrites(s, c, memory) {
      NewHeapLoses(s, c);
    } else {
      NewHeapKeeps(s, c, memory);
    }
  }

  lemma NewHeapKeeps(s: State, c: Config, memory: bool)
    requires Sound(s, c) && (s.global.count > 0 ==> InRegion(s, s.global)) && !Overwrites(s, c, memory)
    ensures Sound(NewHeap(s, c, memory).state, c)
  {
    if s.global.count >= Wanted(c) {
      MoreHeaps(s);
      TakeGlobalKeeps(s.(heaps := s.heaps + [EMPTY]), Wanted(c));
    } else if memory {
      MoreHeaps(s);
      NewHeapMapped(s, s.(heaps := s.heaps + [EMPTY]), c);
    }
  }

  lemma NewHeapMapped(s: State, t: State, c: Config)
    requires Inv(t) && t == s.(heaps := s.heaps + [EMPTY]) && WholePages(c)
    requires s.global.count > 0 ==> InRegion(s, s.global) && c.mapCount > DEFAULT_MAP_COUNT
    requires s.global.count < Wanted(c) && !Overwrites(s, c, true)
    ensures var u := NewHeap(s, c, true).state;
            Inv(u) && (u.global.count > 0 ==> c.mapCount > DEFAULT_MAP_COUNT)
  {
    var h := |s.heaps|;
    if LargePage(c) {
      HeapsFit(c);
      NewPageKeeps(t, c, h, Spans(c));
    } else {
      AddRegionKeeps(t, Wanted(c), h, 0, 0);
    }
  }

  lemma NewPageKeeps(t: State, c: Config, h: nat, spans: nat)
    requires Inv(t) && h < |t.heaps| && t.heaps[h].count == 0 && 1 <= spans <= c.spansPerPage <= c.mapCount
    requires t.global.count > 0 ==> c.spansPerPage - spans <= Quota(c) && c.mapCount > DEFAULT_MAP_COUNT
    ensures var u := NewPage(t, c, h, spans); Inv(u) && (u.global.count > 0 ==> c.mapCount > DEFAULT_MAP_COUNT)
  {
    var extra := c.spansPerPage - spans;
    var u := AddSplit(t, c, h, spans, extra);
    assert Inv(u) && (u.global.count > 0 ==> c.mapCount > DEFAULT_MAP_COUNT) by {
      AddSplitKeeps(t, c, h, spans, extra);
    }
    assert NewPage(t, c, h, spans) == u;
  }

  /**
    Where the memory of a new heap comes from: the global reserve if it has room for 16 heaps, else a new region, a
    whole page if those are large, of which the new heap's reserve and then the global one get the rest.
  */
  lemma NewHeapServes(s: State, c: Config, memory: bool)
    requires Sound(s, c)
    ensures s.global.count > 0 ==> InRegion(s, s.global)
    ensures var g, h := NewHeap(s, c, memory), |s.heaps|;
            && (g.NoMemory? <==> !memory && s.global.count < Wanted(c)) && (g.NoMemory? ==> g.state == s)
            && (g.Given? ==> |g.state.heaps| == h + 1 && g.state.heaps[..h] == s.heaps)
            && (g.Given? && s.global.count >= Wanted(c) ==>
                  && |g.state.regions| == |s.regions| && g.state.heaps[h] == EMPTY
                  && g.state.global.count + Wanted(c) == s.global.count)
            && (g.Given? && s.global.count < Wanted(c) ==>
                  && |g.state.regions| == |s.regions| + 1
                  && if LargePage(c)
                     then |g.state.regions[|s.regions|].units| == c.spansPerPage &&
                          g.state.heaps[h].count == LeftForHeap(c)
                     else |g.state.regions[|s.regions|].units| == Wanted(c) && g.state.heaps[h] == EMPTY)
  {
    UnmapGlobalKeeps(s);
    if LargePage(c) { HeapsFit(c); }
    if s.global.count >= Wanted(c) { TakenGlobal(s, s.(heaps := s.heaps + [EMPTY]), Wanted(c)); }
  }

  /** What a large page leaves the new heap: no more than its quota. */
  function LeftForHeap(c: Config): nat
    requires WholePages(c) && LargePage(c)
  {
    HeapsFit(c);
    var left := c.spansPerPage - Spans(c);
    if left > Quota(c) then Quota(c) else left
  }

  lemma TakenGlobal(s: State, t: State, k: nat)
    requires t == s.(heaps := s.heaps + [EMPTY]) && 1 <= k <= s.global.count && InRegion(s, s.global)
    ensures var u := TakeGlobal(t, k).0; u.heaps == t.heaps && u.global.count + k == s.global.count
    ensures |TakeGlobal(t, k).0.regions| == |s.regions|
  {
  }

  lemma NewHeapLoses(s: State, c: Config)
    requires Sound(s, c) && Overwrites(s, c, true)
    ensures InRegion(s, s.global) && !Inv(NewHeap(s, c, true).state)
  {
    HeapsFit(c);
    var u, r, i := NewHeap(s, c, true).state, s.global.region, s.global.at;
    assert s.regions[r].units[i] == Global;
    assert u.regions[r] == s.regions[r] && u.global.region == |s.regions|;
    assert !UnitOk(u, r, i);
    assert !UnitsOk(u, r);
  }

  // ----- freeing

  lemma FreeLargeKeeps(s: State, c: Config, h: nat, a: Address, cold: bool)
    requires Sound(s, c) && h < |s.heaps| && a.region < |s.regions| && a.at in s.regions[a.region].heads
    ensures SpanAt(s, a) && Sound(FreeLarge(s, h, a, cold), c)
    ensures var t, n := FreeLarge(s, h, a, cold), s.regions[a.region].heads[a.at].count;
            if n > 1 && cold && s.heaps[h].count == 0
            then t.heaps == s.heaps[h := Reserve(a.region, a.at, n)] && t.global == s.global && !SpanAt(t, a)
            else t == s
  {
    var reg := s.regions[a.region];
    assert HeadOk(reg.units, a.at, reg.heads[a.at]);
    if reg.heads[a.at].count > 1 && cold && s.heaps[h].count == 0 { HoldSpanKeeps(s, h, a, 0); }
  }

  // ----- runs

  datatype Event =
    | MapSpan(h: nat, k: nat, memory: bool)
    | MakeHeap(memory: bool)
    | OrphanHeap                                   // one of the other heaps on a new heap's pages
    | FreeSpan(h: nat, a: Address, cold: bool)
    | UnmapPiece(a: Address)

  predicate Possible(s: State, c: Config, e: Event) {
    match e
    case MapSpan(h, k, _) => h < |s.heaps| && 1 <= k <= LARGE_CLASSES
    case MakeHeap(_) => true
    case OrphanHeap => true
    case FreeSpan(h, a, _) => h < |s.heaps| && a.region < |s.regions| && a.at in s.regions[a.region].heads
    case UnmapPiece(a) => a.region < |s.regions| && a.at in s.regions[a.region].heads
  }

  /** The state after an event. */
  ghost predicate Follows(s: State, c: Config, e: Event, t: State)
    requires Sound(s, c) && Possible(s, c, e)
  {
    match e
    case MapSpan(h, k, memory) => MapKeeps(s, c, h, k, memory); t == Map(s, c, h, k, memory).state
    case MakeHeap(memory) => NewHeapExactly(s, c, memory); t == NewHeap(s, c, memory).state
    case OrphanHeap => t == s.(heaps := s.heaps + [EMPTY])
    case FreeSpan(h, a, cold) => FreeLargeKeeps(s, c, h, a, cold); t == FreeLarge(s, h, a, cold)
    case UnmapPiece(a) => UnmapSpanKeeps(s, a); t == UnmapSpan(s, a)
  }

  predicate Loses(s: State, c: Config, e: Event) {
    e.MakeHeap? && Overwrites(s, c, e.memory)
  }

  /** A run, state by state, from no memory at all, in which no new heap overwrites the global reserve. */
  ghost predicate Run(c: Config, states: seq<State>, events: seq<Event>) {
    && WholePages(c) && |states| == |events| + 1 && states[0] == State([], [], EMPTY)
    && forall i :: 0 <= i < |events| ==> Step(c, states[i], events[i], states[i + 1])
  }

  ghost predicate Step(c: Config, s: State, e: Event, t: State) {
    Possible(s, c, e) && !Loses(s, c, e) && (Sound(s, c) ==> Follows(s, c, e, t))
  }

  lemma RunOn(c: Config, states: seq<State>, events: seq<Event>, e: Event, t: State)
    requires Run(c, states, events) && Step(c, states[|events|], e, t)
    ensures Run(c, states + [t], events + [e])
  {
  }

  lemma {:induction false} EveryRun(c: Config, states: seq<State>, events: seq<Event>, i: nat)
    requires Run(c, states, events) && i <= |events|
    ensures Sound(states[i], c)
  {
    if i > 0 {
      EveryRun(c, states, events, i - 1);
      var s, e := states[i - 1], events[i - 1];
      assert Step(c, s, e, states[i]);
      match e
      case MapSpan(h, k, memory) => MapKeeps(s, c, h, k, memory);
      case MakeHeap(memory) => NewHeapExactly(s, c, memory);
      case OrphanHeap => MoreHeaps(s);
      case FreeSpan(h, a, cold) => FreeLargeKeeps(s, c, h, a, cold);
      case UnmapPiece(a) => UnmapSpanKeeps(s, a);
    }
  }

  /** What serving a span takes from the reserves. */
  lemma MapCounts(s: State, c: Config, h: nat, k: nat)
    requires Sound(s, c) && h < |s.heaps| && 1 <= k <= LARGE_CLASSES
    requires k <= s.heaps[h].count || (0 < s.heaps[h].count && UsesGlobal(c) && k <= s.global.count)
    ensures (s.heaps[h].count > 0 ==> InRegion(s, s.heaps[h])) && (s.global.count > 0 ==> InRegion(s, s.global))
    ensures s.global.count >= k ==> FromGlobal(s, c, h, k) >= k
    ensures var t := Map(s, c, h, k, true).state;
            && Sound(t, c) && |t.heaps| == |s.heaps|
            && if k <= s.heaps[h].count then t.heaps[h].count == s.heaps[h].count - k && t.global == s.global
               else t.heaps[h] == s.heaps[h] && t.global.count == s.global.count - k
  {
    MapKeeps(s, c, h, k, true);
  }

  // ----- the runs that come to it

  ghost predicate RunTo(c: Config, states: seq<State>, events: seq<Event>, s: State) {
    Run(c, states, events) && states[|events|] == s && Sound(s, c)
  }

  /** The first heap on large pages that leave more: its reserve is full, and the rest is the global one. */
  lemma FirstHeap(c: Config) returns (states: seq<State>, events: seq<Event>, s: State)
    requires WholePages(c) && LeavesMore(c)
    ensures RunTo(c, states, events, s) && events == [MakeHeap(true)] && |s.heaps| == 1 && UsesGlobal(c)
    ensures s.heaps[0].count == Quota(c) == DEFAULT_MAP_COUNT
    ensures s.global.count == c.spansPerPage - Spans(c) - DEFAULT_MAP_COUNT > 0
  {
    HeapsFit(c);
    var s0 := State([], [], EMPTY);
    NewHeapExactly(s0, c, true);
    s := NewHeap(s0, c, true).state;
    states, events := [s0, s], [MakeHeap(true)];
    assert Step(c, s0, MakeHeap(true), s);
  }

  /** A span more for that heap, from its reserve or the global one. */
  lemma NextSpan(c: Config, states: seq<State>, events: seq<Event>, s: State, k: nat)
    returns (states': seq<State>, events': seq<Event>, t: State)
    requires RunTo(c, states, events, s) && UsesGlobal(c) && |s.heaps| == 1 && 1 <= k <= LARGE_CLASSES
    requires k <= s.heaps[0].count || (0 < s.heaps[0].count && k <= s.global.count)
    ensures RunTo(c, states', events', t) && events' == events + [MapSpan(0, k, true)] && |t.heaps| == 1
    ensures if k <= s.heaps[0].count then t.heaps[0].count == s.heaps[0].count - k && t.global == s.global
            else t.heaps[0] == s.heaps[0] && t.global.count == s.global.count - k
  {
    MapCounts(s, c, 0, k);
    t := Map(s, c, 0, k, true).state;
    assert Step(c, s, MapSpan(0, k, true), t);
    RunOn(c, states, events, MapSpan(0, k, true), t);
    states', events' := states + [t], events + [MapSpan(0, k, true)];
  }

  /** With one span in the heap's reserve larger ones come from the global reserve, until it has one left. */
  lemma {:induction false} ToTheLast(c: Config, states: seq<State>, events: seq<Event>, s: State)
    returns (states': seq<State>, events': seq<Event>, t: State)
    requires RunTo(c, states, events, s) && UsesGlobal(c) && |s.heaps| == 1 && s.heaps[0].count == 1
    requires s.global.count >= 1 && s.global.count != 2
    ensures RunTo(c, states', events', t) && t.global.count == 1
    decreases s.global.count
  {
    states', events', t := states, events, s;
    var n := s.global.count - 1;
    if n > 0 {
      var k := if n == LARGE_CLASSES + 1 then n - 2 else if n > LARGE_CLASSES then LARGE_CLASSES else n;
      states', events', t := NextSpan(c, states, events, s, k);
      states', events', t := ToTheLast(c, states', events', t);
    }
  }

  /** 256 heaps take no more than 16 times what 16 do. */
  lemma SixteenTimes(c: Config)
    requires LargePage(c)
    ensures Spans(c) <= 16 * Wanted(c)
  {
    HeapsFit(c);
    HeapSpansHold(c.sizes, HEAPS);
    var bytes, span := HeapBytes(c.sizes), c.sizes.span;
    assert bytes * HeapCount(c) <= 16 * (bytes * HEAPS);
    assert (16 * Wanted(c)) * span == 16 * (Wanted(c) * span);
    HeapSpansLeast(c.sizes, HeapCount(c), 16 * Wanted(c));
  }

  lemma PastSixtyFour(n: nat)
    requires PowerOfTwo(n) && n > 64
    ensures n >= 128
  {
    assert PowerOfTwo(64);
    PowersDivide(64, n);
  }

  /** Where pages leave more and heaps want two spans or more, some run comes to a heap that loses spans. */
  lemma LosingRun(c: Config) returns (states: seq<State>, events: seq<Event>)
    requires WholePages(c) && PowerOfTwo(c.spansPerPage) && LeavesMore(c) && Wanted(c) >= 2
    ensures Run(c, states, events) && Overwrites(states[|events|], c, true)
  {
    var s;
    states, events, s := FirstHeap(c);
    if s.global.count >= Wanted(c) {
      if s.global.count == 2 {
        PastSixtyFour(c.spansPerPage);
        SixteenTimes(c);
      }
      states, events, s := NextSpan(c, states, events, s, LARGE_CLASSES);
      states, events, s := ToTheLast(c, states, events, s);
    }
  }

  /**
    Which configurations can lose spans to a new heap: those whose pages leave more than a heap's quota and whose
    16 heaps take more than one span.  With any other no run does.
  */
  lemma LosesExactly(c: Config)
    requires WholePages(c) && PowerOfTwo(c.spansPerPage)
    ensures (exists states, events :: Run(c, states, events) && Overwrites(states[|events|], c, true))
            <==> LeavesMore(c) && Wanted(c) >= 2
  {
    if LeavesMore(c) && Wanted(c) >= 2 {
      var states, events := LosingRun(c);
    }
  }

  /** The sizes of a 64-bit build: spans of 64 KiB, span_t of 88 bytes, heap_t of 56408. */
  const DEFAULT_SIZES: Sizes := Sizes(0x1_0000, 88, 56408)

  function DefaultPages(spans: nat): Config { Config(spans, spans, DEFAULT_SIZES) }

  /** 16 of these heaps take 14 spans, 256 of them 221. */
  lemma DefaultHeaps()
    ensures HeapBytes(DEFAULT_SIZES) == 56416
    ensures HeapSpans(DEFAULT_SIZES, 16) == 14 && HeapSpans(DEFAULT_SIZES, 256) == 221
  {
    RemMultiple(3525, 16, 8);
    RemMultiple(14, 0x1_0000, 50775);
    RemMultiple(221, 0x1_0000, 24663);
  }

  /** Pages of 8 MiB hold 148 of them: 16 are made. */
  lemma Pages128()
    ensures var c := DefaultPages(128); WholePages(c) && LargePage(c) && Spans(c) == Wanted(c) == 14 && LeavesMore(c)
  {
    var c := DefaultPages(128);
    DefaultHeaps();
    RemMultiple(1, 128, 0);
    RemMultiple(148, 56416, 38952);
    assert Room(c) == 148;
  }

  /** Pages of 16 MiB hold 297: 256 are made, and what they leave is within a heap's quota. */
  lemma Pages256()
    ensures var c := DefaultPages(256); WholePages(c) && LargePage(c) && Spans(c) == 221 && !LeavesMore(c)
  {
    var c := DefaultPages(256);
    DefaultHeaps();
    RemMultiple(1, 256, 0);
    RemMultiple(297, 56416, 21576);
    assert Room(c) == 297;
  }

  /** A heap and two large spans leave one span in the global reserve. */
  lemma ThreeCalls(c: Config) returns (states: seq<State>, events: seq<Event>, s: State)
    requires WholePages(c) && LeavesMore(c) && c.spansPerPage - Spans(c) == 114
    ensures RunTo(c, states, events, s) && s.global.count == 1
    ensures events == [MakeHeap(true)] + [MapSpan(0, 63, true)] + [MapSpan(0, 49, true)]
  {
    states, events, s := FirstHeap(c);
    states, events, s := NextSpan(c, states, events, s, 63);
    states, events, s := NextSpan(c, states, events, s, 49);
  }

  /**
    The failure, from no memory at all: on pages of 128 spans a heap, two large spans, and a second heap, which
    loses the one span the others have left in the global reserve.
  */
  lemma OverwriteExample() returns (states: seq<State>, events: seq<Event>, s: State)
    ensures RunTo(DefaultPages(128), states, events, s)
    ensures events == [MakeHeap(true)] + [MapSpan(0, 63, true)] + [MapSpan(0, 49, true)]
    ensures s.global.count == 1 && Overwrites(s, DefaultPages(128), true)
    ensures InRegion(s, s.global) && !Inv(NewHeap(s, DefaultPages(128), true).state)
  {
    var c := DefaultPages(128);
    Pages128();
    states, events, s := ThreeCalls(c);
    NewHeapLoses(s, c);
  }

  /** With pages no larger than a span no new heap ever does. */
  lemma DefaultNeverLoses(s: State, c: Config, e: Event)
    requires c.spansPerPage == 1 && Possible(s, c, e)
    ensures !Loses(s, c, e)
  {
  }

  /** A handed-out unit is in exactly one span, a reserved one in the reserve it names, an unmapped one in none. */
  ghost predicate PlacedOnce(s: State, r: nat, u: nat)
    requires r < |s.regions| && u < |s.regions[r].units|
  {
    var reg := s.regions[r];
    && (reg.units[u].Span? ==> Owned(reg.heads, reg.units[u].head, u))
    && (forall b <- reg.heads :: Owned(reg.heads, b, u) ==> reg.units[u] == Span(b))
    && UnitOk(s, r, u)
  }

  /**
    At every moment of a run: remaining_spans is the number of units not unmapped; the region has been
    released once if nothing of it is left and not at all otherwise; and every unit is in one place.
  */
  lemma Conservation(c: Config, states: seq<State>, events: seq<Event>, i: nat, r: nat)
    requires Run(c, states, events) && i <= |events| && r < |states[i].regions|
    ensures var reg := states[i].regions[r];
            && reg.remaining == Mapped(reg.units)
            && reg.released == (if forall u :: 0 <= u < |reg.units| ==> reg.units[u] == Unmapped then 1 else 0)
            && forall u :: 0 <= u < |reg.units| ==> PlacedOnce(states[i], r, u)
  {
    EveryRun(c, states, events, i);
    var s, reg := states[i], states[i].regions[r];
    assert RegionOk(reg) && UnitsOk(s, r);
    if forall u :: 0 <= u < |reg.units| ==> reg.units[u] == Unmapped {
      MappedSame(reg.units, Unmapped);
    } else {
      var u :| 0 <= u < |reg.units| && reg.units[u] != Unmapped;
      MappedOne(reg.units, u);
    }
    forall u | 0 <= u < |reg.units| ensures PlacedOnce(s, r, u) {
      assert UnitOk(s, r, u);
      forall b | b in reg.heads && Owned(reg.heads, b, u) ensures reg.units[u] == Span(b) {
        assert HeadOk(reg.units, b, reg.heads[b]);
      }
    }
  }
}
