/**
  What the whole allocator takes from its caches, taken from a heap's caches as they are: the span found has the
  header the request needs, and nobody else has it.
*/
module AllocatorCaches {
  import opened Options
  import opened Division
  import opened SpanAddresses
  import opened HeapCaches
  import opened Allocator
  import P = SpanProtocol
  import SizeClass

  /**
    The heap's caches have spans that are in the caches of the whole, and their headers say what the heap takes
    them for.
  */
  ghost predicate Backed(w: World, caches: Caches, sizes: map<Address, nat>) {
    forall x: Address :: InCaches(caches, x) > 0 ==>
      && InCaches(caches, x) <= w.cached[x]
      && IsHead(w.sup, x) && HasSize(sizes, x, HeadOf(w.sup, x).count)
  }

  /** What comes out of the caches was in them. */
  lemma BackedTake(w: World, w': World, c: Caches, d: Caches, sizes: map<Address, nat>, x: Address)
    requires Backed(w, c, sizes) && Trades(c, d, [], [x])
    requires w'.sup == w.sup && w'.cached == w.cached - multiset{x}
    ensures x in w.cached && IsHead(w.sup, x) && HasSize(sizes, x, HeadOf(w.sup, x).count) && Backed(w', d, sizes)
  {
    TradesInside(c, d, [], [x], x);
    assert InCaches(c, x) > 0;
    forall y: Address | InCaches(d, y) > 0
      ensures InCaches(d, y) <= w'.cached[y] && IsHead(w'.sup, y) && HasSize(sizes, y, HeadOf(w'.sup, y).count)
    {
      TradesInside(c, d, [], [x], y);
      assert multiset([x])[y] == One(x == y);
    }
  }

  lemma BackedStay(w: World, c: Caches, d: Caches, sizes: map<Address, nat>)
    requires Backed(w, c, sizes) && Trades(c, d, [], [])
    ensures Backed(w, d, sizes)
  {
    forall y: Address | InCaches(d, y) > 0
      ensures InCaches(d, y) <= w.cached[y] && IsHead(w.sup, y) && HasSize(sizes, y, HeadOf(w.sup, y).count)
    {
      TradesInside(c, d, [], [], y);
    }
  }

  /** What goes into them is in them. */
  lemma BackedGive(w: World, w': World, c: Caches, d: Caches, sizes: map<Address, nat>, x: Address)
    requires Backed(w, c, sizes) && Trades(c, d, [x], [])
    requires w'.sup == w.sup && w'.cached == w.cached + multiset{x}
    requires IsHead(w.sup, x) && HasSize(sizes, x, HeadOf(w.sup, x).count)
    ensures Backed(w', d, sizes)
  {
    forall y: Address | InCaches(d, y) > 0
      ensures InCaches(d, y) <= w'.cached[y] && IsHead(w'.sup, y) && HasSize(sizes, y, HeadOf(w'.sup, y).count)
    {
      TradesInside(c, d, [x], [], y);
      assert multiset([x])[y] == One(x == y);
    }
  }

  /** A large request comes to no more spans than the caches have levels. */
  lemma LargeSpans(c: Allocator.Config, size: nat)
    requires c.blocks.span > 0 && LargeSize(c, size)
    ensures 1 <= Spans(c, size) <= LARGE
  {
    CeilBound(size + SizeClass.HEADER, c.blocks.span, LARGE);
  }

  /** A large request served from a heap's caches: the step of the whole is possible, and the caches stay backed. */
  method TakeLarge(c: Allocator.Config, ghost w: World, h: HeapCache, size: nat, reserved: nat)
    returns (found: Found, ghost w': World)
    requires c.blocks.span > 0 && LargeSize(c, size)
    requires h.Valid() && Unshared(h.Now(), h.inUse) && Backed(w, h.Now(), h.sizes)
    modifies h`stacks, h`shared, h`unmapped, h`hugeUnmapped, h`deferred, h`classes, h`inUse
    ensures h.Valid() && Unshared(h.Now(), h.inUse) && Backed(w', h.Now(), h.sizes)
    ensures if found.Cached? then CanTakeLarge(c, w, found.span, size) && w' == AfterTakeLarge(w, found.span, size)
            else w' == w
    ensures Looked(old(h.Now()), Spans(c, size), reserved, found)
  {
    LargeSpans(c, size);
    ghost var before := h.Now();
    found := h.ExtractNew(None, Spans(c, size), reserved);
    w' := w;
    if found.Cached? {
      w' := AfterTakeLarge(w, found.span, size);
      BackedTake(w, w', before, h.Now(), h.sizes, found.span);
    } else {
      BackedStay(w, before, h.Now(), h.sizes);
    }
  }

  /** So is a class's request for a span: the class may take what is found, which its header says is one unit. */
  method TakeSpan(ghost w: World, h: HeapCache, class_idx: Option<nat>, reserved: nat, ghost p: nat, ghost s: nat,
                  ghost k: nat)
    returns (found: Found, ghost w': World)
    requires h.Valid() && Unshared(h.Now(), h.inUse) && Backed(w, h.Now(), h.sizes) && WantsSpan(w, p, s, k)
    requires class_idx.Some? ==> class_idx.value < |h.classes|
    modifies h`stacks, h`shared, h`unmapped, h`hugeUnmapped, h`deferred, h`classes, h`inUse
    ensures h.Valid() && Unshared(h.Now(), h.inUse) && Backed(w', h.Now(), h.sizes)
    ensures if found.Cached? then CanInitialise(w, p, s, k, found.span) && w' == AfterInitialise(w, p, s, k, found.span)
            else w' == w
    ensures Served(old(h.Now()), class_idx, 1, reserved, found)
  {
    ghost var before := h.Now();
    found := h.ExtractNew(class_idx, 1, reserved);
    if found.Cached? {
      BackedTake(w, w.(cached := w.cached - multiset{found.span}), before, h.Now(), h.sizes, found.span);
      w' := AfterInitialise(w, p, s, k, found.span);
    } else {
      BackedStay(w, before, h.Now(), h.sizes);
      w' := w;
    }
  }

  /** The step of the whole that a large span given back is. */
  function AfterGiveLarge(w: World, a: Address): World {
    w.(large := w.large - {a}, cached := w.cached + multiset{a})
  }

  lemma LargeGiven(c: Allocator.Config, w: World, a: Address, owner: nat)
    requires a in w.large && IsHead(w.sup, a) && owner < |w.sup.heaps|
    ensures var w' := AfterGiveLarge(w, a); FreesLarge(c, w, owner, a, false, w') && a in w'.cached
  {
  }

  /** A large span freed goes to the heap's caches: they stay backed. */
  method GiveLarge(c: Allocator.Config, ghost w: World, h: HeapCache, a: Address, n: nat, owner: nat)
    returns (ghost w': World)
    requires a in w.large && IsHead(w.sup, a) && n == HeadOf(w.sup, a).count && owner < |w.sup.heaps|
    requires h.Valid() && Unshared(h.Now(), h.inUse) && Backed(w, h.Now(), h.sizes)
    requires a in h.inUse && HasSize(h.sizes, a, n) && 1 <= n <= LARGE
    modifies h`stacks, h`shared, h`unmapped, h`inUse
    ensures h.Valid() && Unshared(h.Now(), h.inUse) && Backed(w', h.Now(), h.sizes)
    ensures FreesLarge(c, w, owner, a, false, w') && a in w'.cached
  {
    ghost var before := h.Now();
    h.Free(a, n);
    LargeGiven(c, w, a, owner);
    w' := AfterGiveLarge(w, a);
    BackedGive(w, w', before, h.Now(), h.sizes, a);
  }

  /** Freed by another thread it goes on the heap's deferred list; to the whole that is the same step. */
  method DeferLarge(c: Allocator.Config, ghost w: World, h: HeapCache, a: Address, n: nat, owner: nat)
    returns (ghost w': World)
    requires a in w.large && IsHead(w.sup, a) && n == HeadOf(w.sup, a).count && owner < |w.sup.heaps|
    requires h.Valid() && Unshared(h.Now(), h.inUse) && Backed(w, h.Now(), h.sizes)
    requires a in h.inUse && HasSize(h.sizes, a, n) && 1 <= n <= LARGE
    modifies h`deferred, h`inUse
    ensures h.Valid() && Unshared(h.Now(), h.inUse) && Backed(w', h.Now(), h.sizes)
    ensures FreesLarge(c, w, owner, a, false, w') && a in w'.cached
  {
    ghost var before := h.Now();
    h.Defer(Deferred(a, n));
    LargeGiven(c, w, a, owner);
    w' := AfterGiveLarge(w, a);
    BackedGive(w, w', before, h.Now(), h.sizes, a);
  }

  /** A span the owner's protocol releases becomes the class's spare one. */
  method GiveSpan(ghost w: World, h: HeapCache, a: Address, class_idx: nat, ghost p: nat, ghost act: P.Action)
    returns (ghost w': World)
    requires CanStep(w, p, act) && Back(w.pools[p], act) == multiset{a}
    requires h.Valid() && Unshared(h.Now(), h.inUse) && Backed(w, h.Now(), h.sizes) && class_idx < |h.classes|
    requires IsHead(w.sup, a) && HeadOf(w.sup, a).count == 1 && a in h.inUse && HasSize(h.sizes, a, 1)
    modifies h`stacks, h`shared, h`unmapped, h`classes, h`inUse
    ensures h.Valid() && Unshared(h.Now(), h.inUse) && Backed(w', h.Now(), h.sizes)
    ensures w' == AfterLocal(w, p, act) && a in w'.cached
  {
    ghost var before := h.Now();
    h.Release(a, class_idx);
    w' := AfterLocal(w, p, act);
    BackedGive(w, w', before, h.Now(), h.sizes, a);
  }
}
