/**
  The allocator as a whole (rpmalloc.c): the block protocol of every size class of every heap, the large and
  huge spans in use, the spans in the caches, and the regions all of them are cut from.  A span goes from use to
  use by its header alone: a class or a large allocation takes a span that is in the caches, whatever the caches
  are, and only the kernel is taken at its word, that it maps memory where nothing is mapped.
*/
module Allocator {
  import opened Options
  import opened Division
  import opened SpanAddresses
  import S = SuperSpan
  import T = SuperSpanTheorems
  import P = SpanProtocol
  import PS = SpanSafety
  import SpanTheorems
  import SpanUse
  import A = AlignedBlocks
  import B = Blocks
  import SizeClass

  type Address = S.Address

  datatype Config = Config(blocks: B.Config, maps: S.Config)

  /** One size class of one heap: its protocol state, and where the spans of that state are. */
  datatype Pool = Pool(class_idx: nat, st: P.State, at: seq<Address>)

  /** Pages mapped for one block: the size asked for, and the alignment, or 0 where none was. */
  datatype HugeSpan = HugeSpan(pages: nat, size: nat, alignment: nat)

  datatype World = World(
    sup: S.State,
    bases: seq<nat>,              // where the kernel mapped each region
    pools: seq<Pool>,
    large: map<Address, nat>,     // the large spans in use, with the size asked for
    huge: map<nat, HugeSpan>,     // the huge ones, by address
    heaps: set<Address>,          // the spans heaps themselves lie in
    cached: multiset<Address>)    // the spans in any cache, on a deferred list, or on the way into or out of one

  // ----- who uses a span

  datatype Use = InPool(p: nat, s: nat) | AsLarge | AsHeap | InCache

  predicate Bound(pool: Pool, s: nat) {
    s < |pool.st.spans| && s < |pool.at| && pool.st.spans[s].phase != P.Cached
  }

  predicate Holds(w: World, u: Use, a: Address) {
    match u
    case InPool(p, s) => p < |w.pools| && Bound(w.pools[p], s) && w.pools[p].at[s] == a
    case AsLarge => a in w.large
    case AsHeap => a in w.heaps
    case InCache => a in w.cached
  }

  /** No span has two uses, and none is cached twice. */
  ghost predicate Exclusive(w: World) {
    && (forall a, u, v :: Holds(w, u, a) && Holds(w, v, a) ==> u == v)
    && forall a :: w.cached[a] <= 1
  }

  /** After a step span a has the use `to`, or none, and every other span the uses it had. */
  ghost predicate Transfer(w: World, w': World, a: Address, to: Option<Use>) {
    && (forall u, x :: Holds(w', u, x) <==> if x == a then to == Some(u) else Holds(w, u, x))
    && forall x :: w'.cached[x] <= 1
  }

  lemma TransferKeeps(w: World, w': World, a: Address, to: Option<Use>)
    requires Exclusive(w) && Transfer(w, w', a, to)
    ensures Exclusive(w')
  {
  }

  // ----- the invariant

  /** Every span used has a header, with the size its use needs. */
  ghost predicate Headed(c: Config, w: World, u: Use, a: Address)
    requires c.blocks.span > 0 && Holds(w, u, a)
  {
    && IsHead(w.sup, a)
    && (u.InPool? ==> HeadOf(w.sup, a).count == 1)
    && (u.AsLarge? ==> LargeSize(c, w.large[a]) && HeadOf(w.sup, a).count >= Spans(c, w.large[a]))
  }

  predicate LargeSize(c: Config, size: nat) {
    c.blocks.used >= SizeClass.SMALL_CLASSES && SizeClass.MediumLimit(c.blocks.used) < size <= B.LargeLimit(c.blocks)
  }

  predicate HugeSize(c: Config, size: nat) {
    && c.blocks.used >= SizeClass.SMALL_CLASSES
    && SizeClass.MediumLimit(c.blocks.used) < size && B.LargeLimit(c.blocks) < size
  }

  /** The spans, and the pages, a request comes to with its header. */
  function Spans(c: Config, size: nat): nat
    requires c.blocks.span > 0
  {
    Ceil(size + SizeClass.HEADER, c.blocks.span)
  }

  function Pages(c: Config, size: nat): nat
    requires c.blocks.page > 0
  {
    Ceil(size + SizeClass.HEADER, c.blocks.page)
  }

  ghost predicate AllHeaded(c: Config, w: World)
    requires c.blocks.span > 0
  {
    forall u, a :: Holds(w, u, a) ==> Headed(c, w, u, a)
  }

  ghost predicate PoolOk(c: B.Config, pool: Pool) {
    && pool.class_idx < c.used && pool.class_idx < |c.table| && c.table[pool.class_idx].class_idx == pool.class_idx
    && pool.st.n == c.table[pool.class_idx].block_count && PS.Inv(pool.st) && |pool.at| == |pool.st.spans|
  }

  ghost predicate PoolsOk(c: B.Config, pools: seq<Pool>) {
    forall p :: 0 <= p < |pools| ==> PoolOk(c, pools[p])
  }

  /** The huge spans lie at span boundaries, clear of each other and of the regions in use. */
  ghost predicate HugeOk(c: Config, sup: S.State, bases: seq<nat>, huge: map<nat, HugeSpan>)
    requires c.blocks.span > 0 && c.blocks.page > 0 && |bases| == |sup.regions|
  {
    && (forall b <- huge :: b > 0 && b % c.blocks.span == 0 && HugeFits(c, b, huge[b]))
    && (forall b, r :: b in huge && 0 <= r < |bases| && sup.regions[r].remaining > 0 ==>
          Apart(bases[r], Bytes(sup, r, c.blocks.span), b, HugeBytes(c, huge[b])))
    && forall b, d :: b in huge && d in huge && b != d ==> Apart(b, HugeBytes(c, huge[b]), d, HugeBytes(c, huge[d]))
  }

  function HugeBytes(c: Config, h: HugeSpan): nat { h.pages * c.blocks.page }

  /** As many pages as the request comes to; or, aligned, as the loop ended with. */
  predicate HugeFits(c: Config, base: nat, h: HugeSpan)
    requires c.blocks.span > 0 && c.blocks.page > 0
  {
    if h.alignment == 0 then HugeSize(c, h.size) && h.pages == Pages(c, h.size)
    else
      && PowerOfTwo(h.alignment) && c.blocks.page < h.alignment < c.blocks.span
      && !A.Unfit(c.blocks, h.alignment, h.size, h.pages, base)
  }

  /** The memory: the regions, where they are, and the huge spans. */
  ghost predicate MemoryOk(c: Config, sup: S.State, bases: seq<nat>, huge: map<nat, HugeSpan>) {
    && B.ConfigOk(c.blocks) && c.blocks.span > 0 && T.Sound(sup, c.maps) && Laid(sup, bases, c.blocks.span)
    && HugeOk(c, sup, bases, huge)
  }

  /** The uses of spans. */
  ghost predicate UsesOk(c: Config, w: World) {
    c.blocks.span > 0 && Exclusive(w) && AllHeaded(c, w)
  }

  ghost predicate Inv(c: Config, w: World) {
    MemoryOk(c, w.sup, w.bases, w.huge) && PoolsOk(c.blocks, w.pools) && UsesOk(c, w)
  }

  // ----- the steps

  datatype Event =
    | Local(p: nat, act: P.Action)                      // any step of the block protocol but the next
    | Initialise(p: nat, s: nat, k: nat, a: Address)    // a class takes span a
    | TakeLarge(a: Address, size: nat)
    | FreeLarge(h: nat, a: Address, cold: bool)
    | Supply(e: T.Event, base: nat)                     // a span is mapped, or a heap made; a new region is at base
    | Unmap(a: Address)                                 // a cached span is unmapped
    | TakeHuge(base: nat, pages: HugeSpan)              // pages are mapped at base, for a huge or an aligned block
    | FreeHuge(base: nat)

  /** Clear of everything in use: what the kernel promises of new memory. */
  ghost predicate Clear(c: Config, w: World, base: nat, bytes: nat)
    requires c.blocks.span > 0 && c.blocks.page > 0 && |w.bases| == |w.sup.regions|
  {
    && Vacant(w.sup, w.bases, c.blocks.span, base, bytes)
    && forall b <- w.huge :: Apart(b, HugeBytes(c, w.huge[b]), base, bytes)
  }

  /** The span a protocol step puts back, if it does. */
  function Back(pool: Pool, a: P.Action): multiset<Address>
    requires P.Enabled(pool.st, a)
  {
    match SpanUse.Released(pool.st, a)
    case Some(s) => if s < |pool.at| then multiset{pool.at[s]} else multiset{}
    case None => multiset{}
  }

  predicate CanStep(w: World, p: nat, a: P.Action) { p < |w.pools| && P.Enabled(w.pools[p].st, a) && !a.AllocNew? }

  function AfterLocal(w: World, p: nat, a: P.Action): World
    requires CanStep(w, p, a)
  {
    var pool := w.pools[p];
    w.(pools := w.pools[p := pool.(st := P.Apply(pool.st, a))], cached := w.cached + Back(pool, a))
  }

  /** The class has come to the point where it needs a new span. */
  predicate WantsSpan(w: World, p: nat, s: nat, k: nat) {
    p < |w.pools| && P.Enabled(w.pools[p].st, P.AllocNew(s, k)) && s < |w.pools[p].at|
  }

  /** The caches have the span, and its header says one unit. */
  predicate CanInitialise(w: World, p: nat, s: nat, k: nat, a: Address) {
    WantsSpan(w, p, s, k) && a in w.cached && IsHead(w.sup, a) && HeadOf(w.sup, a).count == 1
  }

  function AfterInitialise(w: World, p: nat, s: nat, k: nat, a: Address): World
    requires CanInitialise(w, p, s, k, a)
  {
    var pool := w.pools[p];
    w.(pools := w.pools[p := pool.(st := P.Apply(pool.st, P.AllocNew(s, k)), at := pool.at[s := a])],
       cached := w.cached - multiset{a})
  }

  /** The caches have the span, and its header says enough units. */
  predicate CanTakeLarge(c: Config, w: World, a: Address, size: nat)
    requires c.blocks.span > 0
  {
    a in w.cached && LargeSize(c, size) && IsHead(w.sup, a) && HeadOf(w.sup, a).count >= Spans(c, size)
  }

  function AfterTakeLarge(w: World, a: Address, size: nat): World {
    w.(large := w.large[a := size], cached := w.cached - multiset{a})
  }

  /** Freed, a large span becomes the heap's reserve or goes to the caches. */
  ghost predicate FreesLarge(c: Config, w: World, h: nat, a: Address, cold: bool, w': World) {
    && a in w.large && T.Step(c.maps, w.sup, T.FreeSpan(h, a, cold), w'.sup)
    && w' == w.(sup := w'.sup, large := w.large - {a},
                cached := if IsHead(w'.sup, a) then w.cached + multiset{a} else w.cached)
  }

  /** The new spans go to the caches, but for those heaps are to lie in. */
  ghost predicate Supplies(c: Config, w: World, e: T.Event, base: nat, w': World)
    requires c.blocks.span > 0 && c.blocks.page > 0 && |w.bases| == |w.sup.regions|
  {
    var more := Heads(w'.sup) - Heads(w.sup);
    && !e.FreeSpan? && !e.UnmapPiece? && T.Step(c.maps, w.sup, e, w'.sup)
    && |w'.bases| == |w'.sup.regions|
    && w'.bases == (if |w'.sup.regions| > |w.sup.regions| then w.bases + [base] else w.bases)
    && (|w'.sup.regions| > |w.sup.regions| ==> Clear(c, w, base, Bytes(w'.sup, |w.sup.regions|, c.blocks.span)))
    && w' == if e.MapSpan? then w.(sup := w'.sup, bases := w'.bases, cached := w.cached + multiset(more))
             else w.(sup := w'.sup, bases := w'.bases, heaps := w.heaps + more)
  }

  ghost predicate Unmaps(c: Config, w: World, a: Address, w': World) {
    && a in w.cached && T.Step(c.maps, w.sup, T.UnmapPiece(a), w'.sup)
    && w' == w.(sup := w'.sup, cached := w.cached - multiset{a})
  }

  predicate Plain(c: Config, w: World) { c.blocks.span > 0 && c.blocks.page > 0 && |w.bases| == |w.sup.regions| }

  ghost predicate Next(c: Config, w: World, e: Event, w': World)
    requires Plain(c, w)
  {
    match e
    case Local(p, act) => CanStep(w, p, act) && w' == AfterLocal(w, p, act)
    case Initialise(p, s, k, a) => CanInitialise(w, p, s, k, a) && w' == AfterInitialise(w, p, s, k, a)
    case TakeLarge(a, size) => CanTakeLarge(c, w, a, size) && w' == AfterTakeLarge(w, a, size)
    case FreeLarge(h, a, cold) => FreesLarge(c, w, h, a, cold, w')
    case Supply(e, base) => Supplies(c, w, e, base, w')
    case Unmap(a) => Unmaps(c, w, a, w')
    case TakeHuge(base, h) =>
      HugeFits(c, base, h) && Clear(c, w, base, HugeBytes(c, h)) && w' == w.(huge := w.huge[base := h])
    case FreeHuge(base) => base in w.huge && w' == w.(huge := w.huge - {base})
  }

  // ----- each step keeps the invariant

  /** Spans go on as they were but for `moved`, and none still used has lost its header. */
  ghost predicate Carries(c: Config, w: World, w': World, moved: Option<Address>, gone: set<Address>)
    requires c.blocks.span > 0
  {
    && Onward(w.sup, w'.sup, gone)
    && forall u, x :: Holds(w', u, x) && Some(x) != moved ==>
         Holds(w, u, x) && x !in gone && (u.AsLarge? ==> w'.large[x] == w.large[x])
  }

  lemma CarriesHeads(c: Config, w: World, w': World, moved: Option<Address>, gone: set<Address>)
    requires c.blocks.span > 0 && AllHeaded(c, w) && Carries(c, w, w', moved, gone)
    requires moved.Some? ==> forall u :: Holds(w', u, moved.value) ==> Headed(c, w', u, moved.value)
    ensures AllHeaded(c, w')
  {
    forall u, x | Holds(w', u, x) ensures Headed(c, w', u, x) {
      if Some(x) != moved { assert Headed(c, w, u, x) && SameHead(w.sup, w'.sup, x); }
    }
  }

  /** The spans in the caches, but for span `into`, are those that were, but for span `from`. */
  ghost predicate CachedBut(st: P.State, st': P.State, into: Option<nat>, from: Option<nat>) {
    && |st'.spans| == |st.spans|
    && (forall s :: 0 <= s < |st.spans| ==>
          (st'.spans[s].phase == P.Cached <==> into == Some(s) || (st.spans[s].phase == P.Cached && from != Some(s))))
    && (into.Some? ==> into.value < |st.spans| && st.spans[into.value].phase != P.Cached)
  }

  function WithPool(w: World, p: nat, pool: Pool, cached: multiset<Address>): World
    requires p < |w.pools|
  {
    w.(pools := w.pools[p := pool], cached := cached)
  }

  lemma OneMore(m: multiset<Address>, a: Address)
    requires a !in m && forall x :: m[x] <= 1
    ensures forall x :: (m + multiset{a})[x] == if x == a then 1 else m[x]
    ensures forall x :: x in m + multiset{a} <==> x == a || x in m
  {
    forall x ensures (m + multiset{a})[x] == if x == a then 1 else m[x] {}
    forall x ensures x in m + multiset{a} <==> x == a || x in m {
      assert (m + multiset{a})[x] == if x == a then 1 else m[x];
    }
  }

  lemma OneLess(m: multiset<Address>, a: Address)
    requires a in m && forall x :: m[x] <= 1
    ensures forall x :: (m - multiset{a})[x] == if x == a then 0 else m[x]
    ensures forall x :: x in m - multiset{a} <==> x != a && x in m
  {
    forall x ensures (m - multiset{a})[x] == if x == a then 0 else m[x] {}
    forall x ensures x in m - multiset{a} <==> x != a && x in m {
      assert (m - multiset{a})[x] == if x == a then 0 else m[x];
    }
  }

  /** Span a goes from one use to another, or to none. */
  ghost predicate Shifts(w: World, w': World, a: Address, from: Use, to: Option<Use>) {
    && Holds(w, from, a)
    && (forall u, x :: Holds(w', u, x) <==> (x == a && to == Some(u)) || (Holds(w, u, x) && !(x == a && u == from)))
    && forall x :: w'.cached[x] <= 1
  }

  /** What was its only use is that no more. */
  lemma ShiftTransfers(w: World, w': World, a: Address, from: Use, to: Option<Use>)
    requires Exclusive(w) && Shifts(w, w', a, from, to)
    ensures Transfer(w, w', a, to) && Exclusive(w')
  {
    forall u, x ensures Holds(w', u, x) <==> if x == a then to == Some(u) else Holds(w, u, x) {
      if x == a { assert Holds(w, u, x) ==> u == from; }
    }
    TransferKeeps(w, w', a, to);
  }

  /** A span that a class releases goes to the caches, and no other changes its use. */
  lemma ReleaseShifts(w: World, p: nat, st': P.State, r: nat)
    requires p < |w.pools| && |w.pools[p].at| == |w.pools[p].st.spans| && Exclusive(w)
    requires CachedBut(w.pools[p].st, st', Some(r), None)
    ensures var a := w.pools[p].at[r];
            Shifts(w, WithPool(w, p, w.pools[p].(st := st'), w.cached + multiset{a}), a, InPool(p, r), Some(InCache))
  {
    var a := w.pools[p].at[r];
    assert Holds(w, InPool(p, r), a) && !Holds(w, InCache, a);
    OneMore(w.cached, a);
  }

  lemma NoTransfer(w: World, p: nat, st': P.State)
    requires p < |w.pools| && |w.pools[p].at| == |w.pools[p].st.spans| && Exclusive(w)
    requires CachedBut(w.pools[p].st, st', None, None)
    ensures var w' := WithPool(w, p, w.pools[p].(st := st'), w.cached);
            Exclusive(w') && forall u, x :: Holds(w', u, x) <==> Holds(w, u, x)
  {
    var w' := WithPool(w, p, w.pools[p].(st := st'), w.cached);
    forall u, x ensures Holds(w', u, x) <==> Holds(w, u, x) {
    }
  }

  lemma LocalPools(c: B.Config, w: World, p: nat, act: P.Action)
    requires CanStep(w, p, act) && PoolsOk(c, w.pools)
    ensures PoolsOk(c, AfterLocal(w, p, act).pools)
  {
    assert PoolOk(c, w.pools[p]);
    SpanUse.StepMoves(w.pools[p].st, act);
    SpanTheorems.StepKeeps(w.pools[p].st, act);
  }

  lemma LocalUses(c: Config, w: World, p: nat, act: P.Action)
    requires UsesOk(c, w) && CanStep(w, p, act) && PoolOk(c.blocks, w.pools[p])
    ensures UsesOk(c, AfterLocal(w, p, act))
  {
    var pool, w' := w.pools[p], AfterLocal(w, p, act);
    SpanUse.StepMoves(pool.st, act);
    var r := SpanUse.Released(pool.st, act);
    assert CachedBut(pool.st, w'.pools[p].st, r, None);
    if r.Some? {
      var a := pool.at[r.value];
      ReleaseShifts(w, p, w'.pools[p].st, r.value);
      ShiftTransfers(w, w', a, InPool(p, r.value), Some(InCache));
      assert Headed(c, w, InPool(p, r.value), a);
      CarriesHeads(c, w, w', Some(a), {});
    } else {
      assert w'.cached == w.cached;
      NoTransfer(w, p, w'.pools[p].st);
      CarriesHeads(c, w, w', None, {});
    }
  }

  lemma LocalKeeps(c: Config, w: World, p: nat, act: P.Action)
    requires Inv(c, w) && CanStep(w, p, act)
    ensures Inv(c, AfterLocal(w, p, act))
  {
    LocalPools(c.blocks, w, p, act);
    LocalUses(c, w, p, act);
  }

  // a class takes a span

  lemma TakeShifts(w: World, p: nat, st': P.State, s: nat, a: Address)
    requires p < |w.pools| && |w.pools[p].at| == |w.pools[p].st.spans| && Exclusive(w) && a in w.cached
    requires s < |w.pools[p].st.spans| && w.pools[p].st.spans[s].phase == P.Cached
    requires CachedBut(w.pools[p].st, st', None, Some(s))
    ensures Shifts(w, WithPool(w, p, w.pools[p].(st := st', at := w.pools[p].at[s := a]), w.cached - multiset{a}),
                   a, InCache, Some(InPool(p, s)))
  {
    OneLess(w.cached, a);
  }

  lemma InitialisePools(c: B.Config, w: World, p: nat, s: nat, k: nat, a: Address)
    requires CanInitialise(w, p, s, k, a) && PoolsOk(c, w.pools)
    ensures PoolsOk(c, AfterInitialise(w, p, s, k, a).pools)
  {
    assert PoolOk(c, w.pools[p]);
    SpanUse.StepMoves(w.pools[p].st, P.AllocNew(s, k));
    SpanTheorems.StepKeeps(w.pools[p].st, P.AllocNew(s, k));
  }

  lemma InitialiseUses(c: Config, w: World, p: nat, s: nat, k: nat, a: Address)
    requires UsesOk(c, w) && CanInitialise(w, p, s, k, a) && PoolOk(c.blocks, w.pools[p])
    ensures UsesOk(c, AfterInitialise(w, p, s, k, a))
  {
    var pool, w' := w.pools[p], AfterInitialise(w, p, s, k, a);
    SpanUse.StepMoves(pool.st, P.AllocNew(s, k));
    assert CachedBut(pool.st, w'.pools[p].st, None, Some(s));
    TakeShifts(w, p, w'.pools[p].st, s, a);
    ShiftTransfers(w, w', a, InCache, Some(InPool(p, s)));
    CarriesHeads(c, w, w', Some(a), {});
  }

  lemma InitialiseKeeps(c: Config, w: World, p: nat, s: nat, k: nat, a: Address)
    requires Inv(c, w) && CanInitialise(w, p, s, k, a)
    ensures Inv(c, AfterInitialise(w, p, s, k, a))
  {
    InitialisePools(c.blocks, w, p, s, k, a);
    InitialiseUses(c, w, p, s, k, a);
  }

  // large spans

  lemma TakeLargeKeeps(c: Config, w: World, a: Address, size: nat)
    requires Inv(c, w) && CanTakeLarge(c, w, a, size)
    ensures Inv(c, AfterTakeLarge(w, a, size))
  {
    var w' := AfterTakeLarge(w, a, size);
    OneLess(w.cached, a);
    assert Shifts(w, w', a, InCache, Some(AsLarge));
    ShiftTransfers(w, w', a, InCache, Some(AsLarge));
    CarriesHeads(c, w, w', Some(a), {});
  }

  lemma FreeLargeUses(c: Config, w: World, a: Address, w': World)
    requires UsesOk(c, w) && a in w.large && Onward(w.sup, w'.sup, {a})
    requires w' == w.(sup := w'.sup, large := w.large - {a},
                      cached := if IsHead(w'.sup, a) then w.cached + multiset{a} else w.cached)
    ensures UsesOk(c, w')
  {
    assert Holds(w, AsLarge, a) && !Holds(w, InCache, a);
    OneMore(w.cached, a);
    var to := if IsHead(w'.sup, a) then Some(InCache) else None;
    assert Shifts(w, w', a, AsLarge, to);
    ShiftTransfers(w, w', a, AsLarge, to);
    CarriesHeads(c, w, w', Some(a), {a});
  }

  lemma FreeLargeKeeps(c: Config, w: World, h: nat, a: Address, cold: bool, w': World)
    requires Inv(c, w) && FreesLarge(c, w, h, a, cold, w')
    ensures Inv(c, w')
  {
    StepOnward(w.sup, c.maps, T.FreeSpan(h, a, cold), w'.sup);
    SameRegions(w.sup, c.maps, T.FreeSpan(h, a, cold), w'.sup);
    MemoryKeeps(c, w.sup, w.bases, w.huge, w'.sup, {a});
    FreeLargeUses(c, w, a, w');
  }

  /** Freeing and unmapping make no region. */
  lemma SameRegions(s: S.State, c: S.Config, e: T.Event, t: S.State)
    requires T.Sound(s, c) && T.Step(c, s, e, t) && (e.FreeSpan? || e.UnmapPiece?)
    ensures |t.regions| == |s.regions|
  {
    match e
    case FreeSpan(h, a, cold) => FreeLargeOnward(s, h, a, cold);
    case UnmapPiece(a) => UnmapOnward(s, a);
  }

  /** The regions stay where they are, and so do the huge spans. */
  lemma MemoryKeeps(c: Config, sup: S.State, bases: seq<nat>, huge: map<nat, HugeSpan>, t: S.State, gone: set<Address>)
    requires MemoryOk(c, sup, bases, huge) && Onward(sup, t, gone) && |t.regions| == |sup.regions| && T.Sound(t, c.maps)
    ensures MemoryOk(c, t, bases, huge)
  {
    LaidOn(sup, t, gone, bases, bases, c.blocks.span);
    forall b, r | b in huge && 0 <= r < |bases| && t.regions[r].remaining > 0
      ensures Apart(bases[r], Bytes(t, r, c.blocks.span), b, HugeBytes(c, huge[b]))
    {
      assert Shrinks(sup.regions[r], t.regions[r]);
    }
  }

  lemma UnmapUses(c: Config, w: World, a: Address, w': World)
    requires UsesOk(c, w) && a in w.cached && Onward(w.sup, w'.sup, {a})
    requires w' == w.(sup := w'.sup, cached := w.cached - multiset{a})
    ensures UsesOk(c, w')
  {
    OneLess(w.cached, a);
    assert Shifts(w, w', a, InCache, None);
    ShiftTransfers(w, w', a, InCache, None);
    CarriesHeads(c, w, w', Some(a), {a});
  }

  lemma UnmapKeeps(c: Config, w: World, a: Address, w': World)
    requires Inv(c, w) && Unmaps(c, w, a, w')
    ensures Inv(c, w')
  {
    StepOnward(w.sup, c.maps, T.UnmapPiece(a), w'.sup);
    SameRegions(w.sup, c.maps, T.UnmapPiece(a), w'.sup);
    MemoryKeeps(c, w.sup, w.bases, w.huge, w'.sup, {a});
    UnmapUses(c, w, a, w');
  }

  // ----- new spans

  /** New spans have a use each, the same one; they had none before. */
  lemma SupplyUses(c: Config, w: World, more: set<Address>, w': World, toHeaps: bool)
    requires UsesOk(c, w) && Onward(w.sup, w'.sup, {}) && more == Heads(w'.sup) - Heads(w.sup)
    requires w'.pools == w.pools && w'.large == w.large
    requires if toHeaps then w'.cached == w.cached && w'.heaps == w.heaps + more
             else w'.heaps == w.heaps && w'.cached == w.cached + multiset(more)
    ensures UsesOk(c, w')
  {
    var use := if toHeaps then AsHeap else InCache;
    forall u, x ensures Holds(w', u, x) <==> Holds(w, u, x) || (u == use && x in more) {
    }
    forall u, x | Holds(w, u, x) ensures x !in more {
      assert Headed(c, w, u, x);
      HeadsAre(w.sup, x);
    }
    forall x ensures w'.cached[x] <= 1 {
      if x in w.cached { assert Holds(w, InCache, x); }
    }
    forall u, x | Holds(w', u, x) ensures Headed(c, w', u, x) {
      if Holds(w, u, x) {
        assert Headed(c, w, u, x) && SameHead(w.sup, w'.sup, x);
      } else {
        HeadsAre(w'.sup, x);
      }
    }
  }

  /** A region more, laid where nothing is in use. */
  lemma RegionMore(c: Config, sup: S.State, bases: seq<nat>, huge: map<nat, HugeSpan>, t: S.State, base: nat)
    requires MemoryOk(c, sup, bases, huge) && Onward(sup, t, {}) && |t.regions| == |sup.regions| + 1 &&
             T.Sound(t, c.maps)
    requires Vacant(sup, bases, c.blocks.span, base, Bytes(t, |sup.regions|, c.blocks.span))
    requires forall b <- huge :: Apart(b, HugeBytes(c, huge[b]), base, Bytes(t, |sup.regions|, c.blocks.span))
    ensures MemoryOk(c, t, bases + [base], huge)
  {
    LaidOn(sup, t, {}, bases, bases + [base], c.blocks.span);
    HugeStays(c, sup, bases, huge, t, base);
  }

  lemma HugeStays(c: Config, sup: S.State, bases: seq<nat>, huge: map<nat, HugeSpan>, t: S.State, base: nat)
    requires c.blocks.span > 0 && c.blocks.page > 0 && |bases| == |sup.regions| && HugeOk(c, sup, bases, huge)
    requires Onward(sup, t, {}) && |t.regions| == |sup.regions| + 1
    requires forall b <- huge :: Apart(b, HugeBytes(c, huge[b]), base, Bytes(t, |sup.regions|, c.blocks.span))
    ensures HugeOk(c, t, bases + [base], huge)
  {
    var later := bases + [base];
    forall b, r | b in huge && 0 <= r < |later| && t.regions[r].remaining > 0
      ensures Apart(later[r], Bytes(t, r, c.blocks.span), b, HugeBytes(c, huge[b]))
    {
      if r < |bases| { assert Shrinks(sup.regions[r], t.regions[r]); }
    }
  }

  lemma SupplyKeeps(c: Config, w: World, e: T.Event, base: nat, w': World)
    requires Inv(c, w) && Supplies(c, w, e, base, w')
    ensures Inv(c, w')
  {
    StepOnward(w.sup, c.maps, e, w'.sup);
    if |w'.sup.regions| == |w.sup.regions| {
      MemoryKeeps(c, w.sup, w.bases, w.huge, w'.sup, {});
    } else {
      RegionMore(c, w.sup, w.bases, w.huge, w'.sup, base);
    }
    SupplyUses(c, w, Heads(w'.sup) - Heads(w.sup), w', !e.MapSpan?);
  }

  // ----- what can happen

  /** Whenever the super-spans can map a span or make a heap, the whole can, wherever the kernel has room. */
  lemma SupplyServed(c: Config, w: World, e: T.Event, base: nat, sup: S.State) returns (w': World)
    requires Inv(c, w) && !e.FreeSpan? && !e.UnmapPiece? && T.Step(c.maps, w.sup, e, sup)
    requires |sup.regions| > |w.sup.regions| ==> Clear(c, w, base, Bytes(sup, |w.sup.regions|, c.blocks.span))
    ensures Next(c, w, Supply(e, base), w') && w'.sup == sup
  {
    StepOnward(w.sup, c.maps, e, sup);
    var more := Heads(sup) - Heads(w.sup);
    var bases := if |sup.regions| > |w.sup.regions| then w.bases + [base] else w.bases;
    w' := if e.MapSpan? then w.(sup := sup, bases := bases, cached := w.cached + multiset(more))
          else w.(sup := sup, bases := bases, heaps := w.heaps + more);
  }

  /** A request for more than large spans hold is served by pages of its own, wherever the kernel has room. */
  lemma HugeServed(c: Config, w: World, base: nat, size: nat) returns (w': World)
    requires Inv(c, w) && HugeSize(c, size) && Clear(c, w, base, Pages(c, size) * c.blocks.page)
    ensures Next(c, w, TakeHuge(base, HugeSpan(Pages(c, size), size, 0)), w')
    ensures base in w'.huge && w'.huge[base].size == size
  {
    w' := w.(huge := w.huge[base := HugeSpan(Pages(c, size), size, 0)]);
  }

  // ----- huge spans

  lemma HugeBlock(c: Config, base: nat, h: HugeSpan)
    requires B.ConfigOk(c.blocks) && HugeFits(c, base, h) && base > 0 && base % c.blocks.span == 0
    ensures HugeBytes(c, h) >= SizeClass.HEADER > 0 && B.BlockOk(c.blocks, B.Huge(base, h.pages))
  {
    if h.alignment == 0 {
      CeilExact(h.size + SizeClass.HEADER, c.blocks.page);
    } else {
      A.FitIsAligned(c.blocks, h.alignment, h.size, h.pages, base);
    }
  }

  lemma TakeHugeKeeps(c: Config, w: World, base: nat, h: HugeSpan)
    requires Inv(c, w) && HugeFits(c, base, h) && Clear(c, w, base, HugeBytes(c, h))
    ensures base !in w.huge && Inv(c, w.(huge := w.huge[base := h]))
  {
    HugeBlock(c, base, h);
    if base in w.huge { HugeBlock(c, base, w.huge[base]); }
    SameUses(c, w, w.(huge := w.huge[base := h]));
  }

  lemma FreeHugeKeeps(c: Config, w: World, base: nat)
    requires Inv(c, w) && base in w.huge
    ensures Inv(c, w.(huge := w.huge - {base}))
  {
    SameUses(c, w, w.(huge := w.huge - {base}));
  }

  lemma SameUses(c: Config, w: World, w': World)
    requires UsesOk(c, w) && w' == w.(huge := w'.huge)
    ensures UsesOk(c, w')
  {
    assert forall u, x :: Holds(w', u, x) <==> Holds(w, u, x);
    CarriesHeads(c, w, w', None, {});
  }

  /** Every step keeps the invariant. */
  lemma NextKeeps(c: Config, w: World, e: Event, w': World)
    requires Inv(c, w) && Next(c, w, e, w')
    ensures Inv(c, w')
  {
    match e
    case Local(p, act) => LocalKeeps(c, w, p, act);
    case Initialise(p, s, k, a) => InitialiseKeeps(c, w, p, s, k, a);
    case TakeLarge(a, size) => TakeLargeKeeps(c, w, a, size);
    case FreeLarge(h, a, cold) => FreeLargeKeeps(c, w, h, a, cold, w');
    case Supply(e, base) => SupplyKeeps(c, w, e, base, w');
    case Unmap(a) => UnmapKeeps(c, w, a, w');
    case TakeHuge(base, h) => TakeHugeKeeps(c, w, base, h);
    case FreeHuge(base) => FreeHugeKeeps(c, w, base);
  }

  // ----- runs

  /** Nothing is mapped, and every span of every class is still to come. */
  ghost predicate Start(c: Config, w: World) {
    && B.ConfigOk(c.blocks) && S.WholePages(c.maps)
    && w.sup == S.State([], [], S.EMPTY) && w.bases == [] && w.large == map[] && w.huge == map[]
    && w.heaps == {} && w.cached == multiset{}
    && forall p :: 0 <= p < |w.pools| ==> StartPool(c.blocks, w.pools[p])
  }

  ghost predicate StartPool(c: B.Config, pool: Pool) {
    && pool.class_idx < c.used && pool.class_idx < |c.table| && c.table[pool.class_idx].class_idx == pool.class_idx
    && pool.st.n == c.table[pool.class_idx].block_count && P.Initial(pool.st) && |pool.at| == |pool.st.spans|
  }

  lemma StartKeeps(c: Config, w: World)
    requires Start(c, w)
    ensures Inv(c, w)
  {
    forall p | 0 <= p < |w.pools| ensures PoolOk(c.blocks, w.pools[p]) {
      assert StartPool(c.blocks, w.pools[p]);
      SpanTheorems.StartKeeps(w.pools[p].st);
    }
    forall u, a ensures !Holds(w, u, a) {
      if u.InPool? && u.p < |w.pools| { assert StartPool(c.blocks, w.pools[u.p]); }
    }
    assert Exclusive(w) && AllHeaded(c, w);
  }

  /** A run of the whole allocator, state by state, from the start. */
  ghost predicate Run(c: Config, states: seq<World>, events: seq<Event>) {
    && |states| == |events| + 1 && Start(c, states[0])
    && forall i :: 0 <= i < |events| ==> Step(c, states[i], events[i], states[i + 1])
  }

  ghost predicate Step(c: Config, w: World, e: Event, w': World) {
    Plain(c, w) && Next(c, w, e, w')
  }

  lemma {:induction false} EveryRun(c: Config, states: seq<World>, events: seq<Event>, n: nat)
    requires Run(c, states, events) && n <= |events|
    ensures Inv(c, states[n])
  {
    if n == 0 {
      StartKeeps(c, states[0]);
    } else {
      EveryRun(c, states, events, n - 1);
      assert Step(c, states[n - 1], events[n - 1], states[n]);
      NextKeeps(c, states[n - 1], events[n - 1], states[n]);
    }
  }

  // ----- live allocations

  /** A block of a size class, a large span, a huge one. */
  datatype Alloc = Small(p: nat, s: nat, b: nat) | Large(a: Address) | Huge(base: nat)

  predicate IsLive(w: World, l: Alloc) {
    match l
    case Small(p, s, b) => p < |w.pools| && P.UserHolds(w.pools[p].st, s, b)
    case Large(a) => a in w.large
    case Huge(base) => base in w.huge
  }

  lemma SmallIs(c: Config, w: World, p: nat, s: nat, b: nat)
    requires Inv(c, w) && IsLive(w, Small(p, s, b))
    ensures s < |w.pools[p].at| && Holds(w, InPool(p, s), w.pools[p].at[s])
    ensures IsHead(w.sup, w.pools[p].at[s]) && HeadOf(w.sup, w.pools[p].at[s]).count == 1
    ensures PoolOk(c.blocks, w.pools[p]) && b < w.pools[p].st.n
  {
    var pool := w.pools[p];
    assert PoolOk(c.blocks, pool);
    assert PS.SpanOk(pool.st, s);
    assert Holds(w, InPool(p, s), pool.at[s]);
    assert Headed(c, w, InPool(p, s), pool.at[s]);
  }

  /** Its span has a header. */
  predicate Located(c: Config, w: World, l: Alloc) {
    && Plain(c, w) && IsLive(w, l)
    && match l
       case Small(p, s, _) => s < |w.pools[p].at| && IsHead(w.sup, w.pools[p].at[s])
       case Large(a) => IsHead(w.sup, a)
       case Huge(_) => true
  }

  lemma LiveLocated(c: Config, w: World, l: Alloc)
    requires Inv(c, w) && IsLive(w, l)
    ensures Located(c, w, l)
  {
    if l.Small? { SmallIs(c, w, l.p, l.s, l.b); }
    if l.Large? { assert Holds(w, AsLarge, l.a) && Headed(c, w, AsLarge, l.a); }
  }

  /** Where the allocation is. */
  function BlockAt(c: Config, w: World, l: Alloc): B.Block
    requires Located(c, w, l)
  {
    match l
    case Small(p, s, b) => B.InSpan(Base(w.bases, c.blocks.span, w.pools[p].at[s]), w.pools[p].class_idx, b)
    case Large(a) => B.Large(Base(w.bases, c.blocks.span, a), HeadOf(w.sup, a).count)
    case Huge(base) => B.Huge(base, w.huge[base].pages)
  }

  lemma LiveOk(c: Config, w: World, l: Alloc)
    requires Inv(c, w) && IsLive(w, l)
    ensures Located(c, w, l) && B.BlockOk(c.blocks, BlockAt(c, w, l))
  {
    LiveLocated(c, w, l);
    match l
    case Small(p, s, b) =>
      SmallIs(c, w, p, s, b);
      SpanInside(w.sup, w.bases, c.blocks.span, w.pools[p].at[s]);
    case Large(a) =>
      assert Holds(w, AsLarge, a) && Headed(c, w, AsLarge, a);
      SpanInside(w.sup, w.bases, c.blocks.span, a);
    case Huge(base) =>
      HugeBlock(c, base, w.huge[base]);
  }

  /** The span an allocation lies in, if it is not huge, and what it is used for. */
  function SpanAt(w: World, l: Alloc): Address
    requires IsLive(w, l) && (l.Small? ==> l.s < |w.pools[l.p].at|) && !l.Huge?
  {
    if l.Small? then w.pools[l.p].at[l.s] else l.a
  }

  function UseOf(l: Alloc): Use
    requires !l.Huge?
  {
    if l.Small? then InPool(l.p, l.s) else AsLarge
  }

  lemma SpanHeld(c: Config, w: World, l: Alloc)
    requires Inv(c, w) && Located(c, w, l) && !l.Huge?
    ensures Holds(w, UseOf(l), SpanAt(w, l)) && IsHead(w.sup, SpanAt(w, l))
    ensures var base := Base(w.bases, c.blocks.span, SpanAt(w, l));
            && BlockAt(c, w, l).base == base
            && B.SpanEnd(c.blocks, BlockAt(c, w, l)) == base + HeadOf(w.sup, SpanAt(w, l)).count * c.blocks.span
  {
    if l.Small? {
      SmallIs(c, w, l.p, l.s, l.b);
    } else {
      assert Holds(w, AsLarge, l.a) && Headed(c, w, AsLarge, l.a);
    }
  }

  /** Two spans, of different uses or different large allocations. */
  lemma SpansApart(c: Config, w: World, l: Alloc, m: Alloc)
    requires Inv(c, w) && Located(c, w, l) && Located(c, w, m) && !l.Huge? && !m.Huge? &&
             (l.Large? || UseOf(l) != UseOf(m)) && l != m
    ensures B.Placed(c.blocks, BlockAt(c, w, l), BlockAt(c, w, m))
  {
    SpanHeld(c, w, l);
    SpanHeld(c, w, m);
    assert SpanAt(w, l) != SpanAt(w, m);
    HeadersApart(w.sup, w.bases, c.blocks.span, SpanAt(w, l), SpanAt(w, m));
  }

  lemma HugeApart(c: Config, w: World, l: Alloc, m: Alloc)
    requires Inv(c, w) && Located(c, w, l) && Located(c, w, m) && l.Huge? && l != m
    ensures B.Placed(c.blocks, BlockAt(c, w, l), BlockAt(c, w, m)) &&
            B.Placed(c.blocks, BlockAt(c, w, m), BlockAt(c, w, l))
  {
    if m.Huge? {
      assert Apart(l.base, HugeBytes(c, w.huge[l.base]), m.base, HugeBytes(c, w.huge[m.base]));
    } else {
      SpanHeld(c, w, m);
      var a := SpanAt(w, m);
      SpanInside(w.sup, w.bases, c.blocks.span, a);
      assert Apart(w.bases[a.region], Bytes(w.sup, a.region, c.blocks.span), l.base, HugeBytes(c, w.huge[l.base]));
    }
  }

  /** Two blocks of one span, or of spans apart. */
  lemma LiveApart(c: Config, w: World, l: Alloc, m: Alloc)
    requires Inv(c, w) && Located(c, w, l) && Located(c, w, m) && l != m
    ensures B.Placed(c.blocks, BlockAt(c, w, l), BlockAt(c, w, m))
  {
    if l.Huge? || m.Huge? {
      if l.Huge? { HugeApart(c, w, l, m); } else { HugeApart(c, w, m, l); }
    } else if l.Small? && m.Small? && UseOf(l) == UseOf(m) {
      SpanHeld(c, w, l);
      SpanHeld(c, w, m);
    } else {
      SpansApart(c, w, l, m);
    }
  }

  // ----- what the steps do to live allocations

  /** The allocation a step makes. */
  function Allocates(w: World, e: Event): Option<Alloc>
    requires e.Local? ==> CanStep(w, e.p, e.act)
    requires e.Initialise? ==> CanInitialise(w, e.p, e.s, e.k, e.a)
  {
    match e
    case Local(p, act) =>
      (match SpanUse.HandedOut(w.pools[p].st, act)
       case Some(x) => Some(Small(p, x.s, x.b))
       case None => None)
    case Initialise(p, s, _, _) => Some(Small(p, s, 0))
    case TakeLarge(a, _) => Some(Large(a))
    case TakeHuge(base, _) => Some(Huge(base))
    case _ => None
  }

  /** The allocation a step frees. */
  function Frees(e: Event): Option<Alloc> {
    match e
    case Local(p, act) =>
      (match SpanUse.TakenBack(act)
       case Some(x) => Some(Small(p, x.s, x.b))
       case None => None)
    case FreeLarge(_, a, _) => Some(Large(a))
    case FreeHuge(base) => Some(Huge(base))
    case _ => None
  }

  lemma LocalLive(w: World, p: nat, act: P.Action, l: Alloc)
    requires CanStep(w, p, act) && PS.Inv(w.pools[p].st)
    ensures IsLive(AfterLocal(w, p, act), l) <==>
              Allocates(w, Local(p, act)) == Some(l) || (IsLive(w, l) && Frees(Local(p, act)) != Some(l))
    ensures Allocates(w, Local(p, act)) == Some(l) ==> !IsLive(w, l)
  {
    SpanUse.StepMoves(w.pools[p].st, act);
  }

  lemma InitialiseLive(w: World, p: nat, s: nat, k: nat, a: Address, l: Alloc)
    requires CanInitialise(w, p, s, k, a) && PS.Inv(w.pools[p].st)
    ensures IsLive(AfterInitialise(w, p, s, k, a), l) <==> l == Small(p, s, 0) || IsLive(w, l)
    ensures !IsLive(w, Small(p, s, 0))
  {
    SpanUse.StepMoves(w.pools[p].st, P.AllocNew(s, k));
  }

  lemma ChangeOfLive(c: Config, w: World, e: Event, w': World, l: Alloc)
    requires Plain(c, w) && Next(c, w, e, w') && PoolsOk(c.blocks, w.pools) && Exclusive(w)
    requires e.TakeHuge? ==> e.base !in w.huge
    ensures IsLive(w', l) <==> Allocates(w, e) == Some(l) || (IsLive(w, l) && Frees(e) != Some(l))
    ensures Allocates(w, e) == Some(l) ==> !IsLive(w, l)
  {
    match e
    case Local(p, act) =>
      assert PoolOk(c.blocks, w.pools[p]);
      LocalLive(w, p, act, l);
    case Initialise(p, s, k, a) =>
      assert PoolOk(c.blocks, w.pools[p]);
      InitialiseLive(w, p, s, k, a, l);
    case TakeLarge(a, size) => CachedNotLarge(w, a);
    case _ =>
  }

  /**
    A step makes the allocation it makes, which was not live before; frees the one it frees; and leaves the
    others live.
  */
  lemma LiveChange(c: Config, w: World, e: Event, w': World, l: Alloc)
    requires Inv(c, w) && Next(c, w, e, w')
    ensures IsLive(w', l) <==> Allocates(w, e) == Some(l) || (IsLive(w, l) && Frees(e) != Some(l))
    ensures Allocates(w, e) == Some(l) ==> !IsLive(w, l)
  {
    if e.TakeHuge? { TakeHugeKeeps(c, w, e.base, e.pages); }
    ChangeOfLive(c, w, e, w', l);
  }

  lemma CachedNotLarge(w: World, a: Address)
    requires Exclusive(w) && a in w.cached
    ensures a !in w.large
  {
    assert Holds(w, InCache, a) && !Holds(w, AsLarge, a);
  }

  /** The regions stay where they are. */
  lemma BasesStay(c: Config, w: World, e: Event, w': World)
    requires Plain(c, w) && Next(c, w, e, w')
    ensures w.bases <= w'.bases
  {
  }

  /** The span of an allocation that stays live keeps its header. */
  lemma HeaderStays(c: Config, w: World, e: Event, w': World, u: Use, a: Address)
    requires Plain(c, w) && T.Sound(w.sup, c.maps) && UsesOk(c, w)
    requires Next(c, w, e, w') && Holds(w, u, a) && Holds(w', u, a) && !u.InCache?
    ensures SameHead(w.sup, w'.sup, a)
  {
    assert Headed(c, w, u, a);
    match e
    case FreeLarge(h, x, cold) => FreedHeader(c, w, h, x, cold, w', u, a);
    case Unmap(x) =>
      StepOnward(w.sup, c.maps, T.UnmapPiece(x), w'.sup);
      assert Holds(w, InCache, x);
    case Supply(e, base) => StepOnward(w.sup, c.maps, e, w'.sup);
    case _ =>
  }

  lemma FreedHeader(c: Config, w: World, h: nat, x: Address, cold: bool, w': World, u: Use, a: Address)
    requires T.Sound(w.sup, c.maps) && Exclusive(w) && FreesLarge(c, w, h, x, cold, w') && IsHead(w.sup, a)
    requires Holds(w, u, a) && Holds(w', u, a) && !u.InCache?
    ensures SameHead(w.sup, w'.sup, a)
  {
    StepOnward(w.sup, c.maps, T.FreeSpan(h, x, cold), w'.sup);
    assert Holds(w, AsLarge, x) && !Holds(w', AsLarge, x);
  }

  lemma SmallStays(c: Config, w: World, e: Event, w': World, p: nat, s: nat, b: nat)
    requires Plain(c, w) && Next(c, w, e, w') && IsLive(w, Small(p, s, b)) && s < |w.pools[p].at|
    ensures p < |w'.pools| && w'.pools[p].class_idx == w.pools[p].class_idx
    ensures s < |w'.pools[p].at| && w'.pools[p].at[s] == w.pools[p].at[s]
  {
    if e.Local? {
      assert w'.pools == AfterLocal(w, e.p, e.act).pools;
    } else if e.Initialise? {
      assert w'.pools == AfterInitialise(w, e.p, e.s, e.k, e.a).pools;
    } else {
      OtherPools(c, w, e, w');
    }
  }

  lemma OtherPools(c: Config, w: World, e: Event, w': World)
    requires Plain(c, w) && Next(c, w, e, w') && !e.Local? && !e.Initialise?
    ensures w'.pools == w.pools
  {
  }

  lemma LargeStays(c: Config, w: World, e: Event, w': World, a: Address)
    requires Inv(c, w) && Next(c, w, e, w') && a in w.large && a in w'.large
    ensures SameHead(w.sup, w'.sup, a)
  {
    assert Holds(w, AsLarge, a) && Holds(w', AsLarge, a);
    HeaderStays(c, w, e, w', AsLarge, a);
  }

  lemma HugeStaysAt(c: Config, w: World, e: Event, w': World, base: nat)
    requires Plain(c, w) && Next(c, w, e, w') && base in w.huge && base in w'.huge &&
             (e.TakeHuge? ==> e.base !in w.huge)
    ensures w'.huge[base] == w.huge[base]
  {
  }

  lemma StaysAt(c: Config, w: World, e: Event, w': World, l: Alloc)
    requires Plain(c, w) && Next(c, w, e, w') && Located(c, w, l) && Located(c, w', l)
    requires l.Large? ==> SameHead(w.sup, w'.sup, l.a)
    requires e.TakeHuge? ==> e.base !in w.huge
    ensures BlockAt(c, w', l) == BlockAt(c, w, l)
  {
    BasesStay(c, w, e, w');
    match l
    case Small(p, s, b) => SmallStays(c, w, e, w', p, s, b);
    case Large(a) =>
    case Huge(base) => HugeStaysAt(c, w, e, w', base);
  }

  /** An allocation stays where it is until it is freed. */
  lemma LiveStays(c: Config, w: World, e: Event, w': World, l: Alloc)
    requires Inv(c, w) && Next(c, w, e, w') && IsLive(w, l) && Frees(e) != Some(l)
    ensures Located(c, w, l) && Located(c, w', l) && BlockAt(c, w', l) == BlockAt(c, w, l)
  {
    LiveChange(c, w, e, w', l);
    LiveLocated(c, w, l);
    if e.TakeHuge? { TakeHugeKeeps(c, w, e.base, e.pages); }
    if l.Large? { LargeStays(c, w, e, w', l.a); }
    NextKeeps(c, w, e, w');
    LiveLocated(c, w', l);
    StaysAt(c, w, e, w', l);
  }

  // ----- sizes

  /** The request a live allocation was made for: a small one by the class it chose, the others as recorded. */
  predicate AskedFor(c: Config, w: World, l: Alloc, size: nat)
    requires IsLive(w, l)
  {
    match l
    case Small(p, _, _) =>
      && c.blocks.used >= SizeClass.SMALL_CLASSES && size <= SizeClass.MediumLimit(c.blocks.used)
      && size <= SizeClass.MEDIUM_MAX && |c.blocks.table| == SizeClass.CLASSES
      && SizeClass.Chosen(c.blocks.table, size) == w.pools[p].class_idx
    case Large(a) => w.large[a] == size
    case Huge(base) => w.huge[base].size == size
  }

  /** What the pages were aligned to; 0 for every other allocation. */
  function AlignmentOf(w: World, l: Alloc): nat
    requires IsLive(w, l)
  {
    if l.Huge? then w.huge[l.base].alignment else 0
  }

  /** The pointer handed out: to the block's start, or to the first aligned address in it. */
  function PointerOf(c: Config, w: World, l: Alloc): nat
    requires Located(c, w, l) && B.ConfigOk(c.blocks) && B.BlockOk(c.blocks, BlockAt(c, w, l))
  {
    var start := B.Start(c.blocks, BlockAt(c, w, l));
    if AlignmentOf(w, l) == 0 then start else AlignUp(start, AlignmentOf(w, l))
  }

  /** It has been granted what it asked for, and from the pointer on the block holds it. */
  lemma LiveHolds(c: Config, w: World, l: Alloc, size: nat)
    requires Inv(c, w) && IsLive(w, l) && AskedFor(c, w, l, size)
    ensures Located(c, w, l) && B.BlockOk(c.blocks, BlockAt(c, w, l))
    ensures var b, p, a := BlockAt(c, w, l), PointerOf(c, w, l), AlignmentOf(w, l);
            && B.Start(c.blocks, b) <= p && p + size <= B.End(c.blocks, b)
            && if a == 0 then B.Granted(c.blocks, size, b) else A.Aligned(c.blocks, a, size, A.Handout(p, b))
  {
    LiveOk(c, w, l);
    if AlignmentOf(w, l) > 0 {
      PagesHold(c, l.base, w.huge[l.base]);
    } else {
      LiveGranted(c, w, l, size);
      B.GrantedHolds(c.blocks, size, BlockAt(c, w, l));
    }
  }

  lemma LiveGranted(c: Config, w: World, l: Alloc, size: nat)
    requires Inv(c, w) && Located(c, w, l) && AskedFor(c, w, l, size) && AlignmentOf(w, l) == 0
    requires B.BlockOk(c.blocks, BlockAt(c, w, l))
    ensures B.Granted(c.blocks, size, BlockAt(c, w, l))
  {
    if l.Large? { assert Holds(w, AsLarge, l.a) && Headed(c, w, AsLarge, l.a); }
  }

  lemma PagesHold(c: Config, base: nat, h: HugeSpan)
    requires B.ConfigOk(c.blocks) && HugeFits(c, base, h) && base > 0 && h.alignment > 0
    ensures var b, p := B.Huge(base, h.pages), AlignUp(base + SizeClass.HEADER, h.alignment);
            && B.BlockOk(c.blocks, b) && A.Aligned(c.blocks, h.alignment, h.size, A.Handout(p, b))
            && B.Start(c.blocks, b) <= p && p + h.size <= B.End(c.blocks, b)
  {
    A.FitIsAligned(c.blocks, h.alignment, h.size, h.pages, base);
    AlignUpExact(base + SizeClass.HEADER, h.alignment);
  }

  // ----- the sizes of a run

  /** What each allocation was asked for. */
  type Ledger = map<Alloc, nat>

  ghost predicate LedgerOk(c: Config, w: World, asked: Ledger) {
    forall l :: IsLive(w, l) ==> l in asked && AskedFor(c, w, l, asked[l])
  }

  /** A step, with the size that is asked for if it makes an allocation. */
  ghost predicate Books(c: Config, w: World, asked: Ledger, e: Event, size: nat, w': World, asked': Ledger) {
    && Step(c, w, e, w')
    && match Allocates(w, e)
       case Some(l) => IsLive(w', l) && AskedFor(c, w', l, size) && asked' == asked[l := size]
       case None => asked' == asked
  }

  lemma AskedStays(c: Config, w: World, e: Event, w': World, l: Alloc, size: nat)
    requires Inv(c, w) && Next(c, w, e, w') && IsLive(w, l) && IsLive(w', l) && AskedFor(c, w, l, size)
    requires Frees(e) != Some(l)
    ensures AskedFor(c, w', l, size)
  {
    if e.TakeHuge? { TakeHugeKeeps(c, w, e.base, e.pages); }
    match l
    case Small(p, s, b) =>
      SmallIs(c, w, p, s, b);
      SmallStays(c, w, e, w', p, s, b);
    case Large(a) =>
      if e.TakeLarge? { CachedNotLarge(w, e.a); }
    case Huge(base) => HugeStaysAt(c, w, e, w', base);
  }

  lemma BooksKeep(c: Config, w: World, asked: Ledger, e: Event, size: nat, w': World, asked': Ledger)
    requires Inv(c, w) && LedgerOk(c, w, asked) && Books(c, w, asked, e, size, w', asked')
    ensures LedgerOk(c, w', asked')
  {
    forall l | IsLive(w', l) ensures l in asked' && AskedFor(c, w', l, asked'[l]) {
      LiveChange(c, w, e, w', l);
      if Allocates(w, e) != Some(l) { AskedStays(c, w, e, w', l, asked[l]); }
    }
  }

  /** A run with its sizes. */
  ghost predicate LedgerRun(c: Config, states: seq<World>, events: seq<Event>, sizes: seq<nat>, books: seq<Ledger>) {
    && Run(c, states, events) && |sizes| == |events| && |books| == |states|
    && forall i :: 0 <= i < |events| ==>
         Books(c, states[i], books[i], events[i], sizes[i], states[i + 1], books[i + 1])
  }

  lemma {:induction false} EveryLedger(c: Config, states: seq<World>, events: seq<Event>, sizes: seq<nat>,
                                       books: seq<Ledger>, n: nat)
    requires LedgerRun(c, states, events, sizes, books) && n <= |events|
    ensures Inv(c, states[n]) && LedgerOk(c, states[n], books[n])
  {
    if n == 0 {
      StartKeeps(c, states[0]);
      NoneLive(c, states[0], books[0]);
    } else {
      EveryLedger(c, states, events, sizes, books, n - 1);
      assert Books(c, states[n - 1], books[n - 1], events[n - 1], sizes[n - 1], states[n], books[n]);
      NextKeeps(c, states[n - 1], events[n - 1], states[n]);
      BooksKeep(c, states[n - 1], books[n - 1], events[n - 1], sizes[n - 1], states[n], books[n]);
    }
  }

  lemma NoneLive(c: Config, w: World, asked: Ledger)
    requires Start(c, w)
    ensures LedgerOk(c, w, asked)
  {
    forall l ensures !IsLive(w, l) {
      if l.Small? && l.p < |w.pools| { assert StartPool(c.blocks, w.pools[l.p]); }
    }
  }

  /**
    In every run, at any moment, every live allocation has from its pointer on, in its block, the bytes it was asked
    for when it was made.
  */
  lemma RequestsHold(c: Config, states: seq<World>, events: seq<Event>, sizes: seq<nat>, books: seq<Ledger>, n: nat,
                     l: Alloc)
    requires LedgerRun(c, states, events, sizes, books) && n <= |events| && IsLive(states[n], l)
    ensures l in books[n] && Located(c, states[n], l) && B.ConfigOk(c.blocks)
    ensures var b := BlockAt(c, states[n], l);
            && B.BlockOk(c.blocks, b) && B.Start(c.blocks, b) <= PointerOf(c, states[n], l)
            && PointerOf(c, states[n], l) + books[n][l] <= B.End(c.blocks, b)
  {
    EveryLedger(c, states, events, sizes, books, n);
    LiveHolds(c, states[n], l, books[n][l]);
  }

  /**
    In every run of the whole allocator, at any moment, any two live allocations are bytes apart, and each lies
    behind the header of its span, inside the span.
  */
  lemma NoOverlap(c: Config, states: seq<World>, events: seq<Event>, n: nat, l: Alloc, m: Alloc)
    requires Run(c, states, events) && n <= |events| && IsLive(states[n], l) && IsLive(states[n], m) && l != m
    ensures Located(c, states[n], l) && Located(c, states[n], m) && B.ConfigOk(c.blocks)
    ensures var a, b := BlockAt(c, states[n], l), BlockAt(c, states[n], m);
            && B.BlockOk(c.blocks, a) && B.BlockOk(c.blocks, b)
            && (B.End(c.blocks, a) <= B.Start(c.blocks, b) || B.End(c.blocks, b) <= B.Start(c.blocks, a))
            && a.base + SizeClass.HEADER <= B.Start(c.blocks, a) <= B.End(c.blocks, a) <= B.SpanEnd(c.blocks, a)
  {
    EveryRun(c, states, events, n);
    LiveOk(c, states[n], l);
    LiveOk(c, states[n], m);
    LiveApart(c, states[n], l, m);
    B.BlockInside(c.blocks, BlockAt(c, states[n], l));
    B.Disjoint(c.blocks, BlockAt(c, states[n], l), BlockAt(c, states[n], m));
  }
}
