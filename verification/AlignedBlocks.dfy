/**
  Aligned allocation (rpmalloc.c): a block that is aligned as it stands, or one with room to move up in, or
  pages mapped again and again until an aligned address lies within a span's reach of their start.

  What _rpmalloc_allocate returns for each size, and where the kernel puts each number of pages, is given.
*/
module AlignedBlocks {
  import opened Options
  import opened Division
  import opened SizeClass
  import opened Blocks

  /** A block, and the pointer into it that is handed out. */
  datatype Handout = Handout(p: nat, block: Block)

  ghost predicate Allocator(c: Config, blocks: nat -> Option<Block>)
    requires ConfigOk(c)
  {
    forall n: nat :: blocks(n).Some? ==> Granted(c, n, blocks(n).value)
  }

  /** Mappings are whole pages, and from a span's size up they start at a span boundary. */
  ghost predicate Kernel(c: Config, maps: nat -> Option<nat>)
    requires ConfigOk(c)
  {
    forall n: nat :: maps(n).Some? ==> maps(n).value > 0 && (n * c.page >= c.span ==> maps(n).value % c.span == 0)
  }

  /** The promise: aligned, inside the block, and a pointer the block can be found again from. */
  ghost predicate Aligned(c: Config, alignment: nat, size: nat, r: Handout)
    requires ConfigOk(c) && alignment > 0
  {
    r.p % alignment == 0 && Inside(c, r.block, r.p) && r.p + size <= End(c, r.block)
  }

  // ----- a block aligned as it stands

  /** Spans start at multiples of every smaller power of two. */
  lemma BaseAligned(c: Config, base: nat, a: nat)
    requires ConfigOk(c) && base % c.span == 0 && PowerOfTwo(a) && a <= c.span
    ensures base % a == 0
  {
    PowersDivide(a, c.span);
    RemChain(base, c.span, a);
  }

  /** A block is aligned to a, up to the header's size, when the block size is. */
  lemma StartAligned(c: Config, b: Block, a: nat)
    requires ConfigOk(c) && BlockOk(c, b) && PowerOfTwo(a) && a <= HEADER
    requires b.InSpan? ==> BlockSize(c, b) % a == 0
    ensures Start(c, b) % a == 0
  {
    BaseAligned(c, b.base, a);
    assert PowerOfTwo(HEADER) by { Powers(); }
    PowersDivide(a, HEADER);
    RemPlus(b.base, HEADER, a);
    if b.InSpan? {
      RemTimes(b.idx, BlockSize(c, b));
      BlockInside(c, b);
      InSpanInside(c, b);
      RemChain(b.idx * BlockSize(c, b), BlockSize(c, b), a);
      RemPlus(b.base + HEADER, b.idx * BlockSize(c, b), a);
    }
  }

  lemma Powers()
    ensures PowerOfTwo(16) && PowerOfTwo(128)
  {
    assert PowerOfTwo(2) && PowerOfTwo(4) && PowerOfTwo(8) && PowerOfTwo(16) && PowerOfTwo(32) && PowerOfTwo(64);
  }

  /** Block sizes are multiples of 16; those chosen for a multiple of 128 are multiples of 128. */
  lemma SizesAligned(c: Config, size: nat, b: Block)
    requires ConfigOk(c) && Granted(c, size, b) && b.InSpan?
    ensures BlockSize(c, b) % 16 == 0
    ensures size > 0 && size % 128 == 0 ==> BlockSize(c, b) % 128 == 0
  {
    ChosenFits(c.span, c.table, c.used, size);
    SizeMultiple(b.class_idx);
    if size > 0 && size % 128 == 0 {
      if size <= SMALL_LIMIT {
        SmallChosen(size);
      } else {
        assert b.class_idx >= SMALL_CLASSES;
      }
    }
  }

  /** A small multiple of 128 is the size of its class. */
  lemma SmallChosen(size: nat)
    requires 0 < size <= SMALL_LIMIT && size % 128 == 0
    ensures SizeOf((size + 15) / 16) == size
  {
    RemExact(size, 128);
    var q := size / 128;
    assert size == q * 128 && (size + 15) / 16 == 8 * q;
  }

  /** size rounded up to the header's size, at least once. */
  function Rounded(size: nat): nat {
    if size > 0 then Ceil(size, HEADER) * HEADER else HEADER
  }

  lemma RoundedIs(size: nat)
    ensures Rounded(size) >= size && Rounded(size) > 0 && Rounded(size) % 128 == 0 &&
            Rounded(size) < size + 2 * HEADER
  {
    CeilExact(size, HEADER);
    RemTimes(Ceil(size, HEADER), HEADER);
    RemMultiple(1, 128, 0);
  }

  /** The two cases in which nothing is moved. */
  lemma AsItStands(c: Config, alignment: nat, size: nat, request: nat, b: Block)
    requires ConfigOk(c) && PowerOfTwo(alignment) && alignment <= HEADER && size <= request && Granted(c, request, b)
    requires alignment > 16 ==> b.InSpan? && request > 0 && request % 128 == 0
    ensures Aligned(c, alignment, size, Handout(Start(c, b), b))
  {
    GrantedHolds(c, request, b);
    BlockInside(c, b);
    Powers();
    if b.InSpan? {
      SizesAligned(c, request, b);
      InSpanInside(c, b);
      if alignment <= 16 {
        PowersDivide(alignment, 16);
        RemChain(BlockSize(c, b), 16, alignment);
      } else {
        PowersDivide(alignment, 128);
        RemChain(BlockSize(c, b), 128, alignment);
      }
    }
    StartAligned(c, b, alignment);
    HugeReach(c, b);
  }

  lemma HugeReach(c: Config, b: Block)
    requires ConfigOk(c) && BlockOk(c, b)
    ensures Start(c, b) < b.base + c.span
  {
    BlockInside(c, b);
  }

  // ----- a block with room to move up in

  lemma MovedUp(c: Config, alignment: nat, size: nat, b: Block)
    requires ConfigOk(c) && PowerOfTwo(alignment) && 16 < alignment < c.span && Granted(c, size + alignment, b)
    ensures Aligned(c, alignment, size, Handout(AlignUp(Start(c, b), alignment), b))
  {
    var p := AlignUp(Start(c, b), alignment);
    GrantedHolds(c, size + alignment, b);
    AlignUpExact(Start(c, b), alignment);
    BlockInside(c, b);
    if b.InSpan? {
      InSpanInside(c, b);
    } else {
      BelowSpan(c, alignment, b);
    }
  }

  /** Behind the header of a span the next multiple of an alignment below the span size is in the same span. */
  lemma BelowSpan(c: Config, alignment: nat, b: Block)
    requires ConfigOk(c) && PowerOfTwo(alignment) && alignment < c.span && BlockOk(c, b) && !b.InSpan?
    ensures AlignUp(b.base + HEADER, alignment) < b.base + c.span
    ensures alignment > HEADER ==> AlignUp(b.base + HEADER, alignment) == b.base + alignment
  {
    BaseAligned(c, b.base, alignment);
    if alignment <= HEADER {
      Powers();
      PowersDivide(alignment, HEADER);
      RemPlus(b.base, HEADER, alignment);
    } else {
      AlignBehind(b.base, HEADER, alignment);
    }
  }

  /** From the span size on the aligned pointer is a span away or more, and leads to another header than the block's. */
  lemma SpanAlignmentLost(c: Config, alignment: nat, b: Block)
    requires ConfigOk(c) && BlockOk(c, b) && PowerOfTwo(alignment) && alignment >= c.span
    ensures SpanOf(c, AlignUp(Start(c, b), alignment)) == AlignUp(Start(c, b), alignment) >= b.base + c.span
  {
    var p := AlignUp(Start(c, b), alignment);
    AlignUpExact(Start(c, b), alignment);
    PowersDivide(c.span, alignment);
    RemChain(p, alignment, c.span);
    BlockInside(c, b);
    NextMultiple(b.base, p, c.span);
  }

  /** Between two multiples lies a whole span. */
  lemma NextMultiple(a: nat, b: nat, d: nat)
    requires d > 0 && a % d == 0 && b % d == 0 && a < b
    ensures b >= a + d
  {
    RemExact(a, d);
    RemExact(b, d);
    var i, j := a / d, b / d;
    if j <= i { Times(d, j, i); } else { Times(d, i + 1, j); assert (i + 1) * d == i * d + d; }
  }

  // ----- pages of its own

  function ExtraPages(c: Config, alignment: nat): nat
    requires c.page > 0
  {
    alignment / c.page
  }

  function FirstPages(c: Config, alignment: nat, size: nat): nat
    requires c.page > 0
  {
    var n := 1 + Ceil(size, c.page);
    if ExtraPages(c, alignment) > n then 1 + ExtraPages(c, alignment) else n
  }

  function LimitPages(c: Config, alignment: nat, size: nat): nat
    requires c.page > 0
  {
    var n := (c.span / c.page) * 2;
    if n < FirstPages(c, alignment, size) * 2 then FirstPages(c, alignment, size) * 2 else n
  }

  /** The test that sends the loop round again. */
  predicate Unfit(c: Config, alignment: nat, size: nat, pages: nat, base: nat)
    requires c.span > 0 && alignment > 0
  {
    var p := AlignUp(base + HEADER, alignment);
    AlignUpExact(base + HEADER, alignment);
    p - base >= c.span || p + size > base + pages * c.page || SpanOf(c, p) != base
  }

  /** A map that passes is an aligned block. */
  lemma FitIsAligned(c: Config, alignment: nat, size: nat, pages: nat, base: nat)
    requires ConfigOk(c) && PowerOfTwo(alignment) && c.page < alignment < c.span && base > 0
    requires !Unfit(c, alignment, size, pages, base)
    ensures Aligned(c, alignment, size, Handout(AlignUp(base + HEADER, alignment), Huge(base, pages)))
  {
    var p := AlignUp(base + HEADER, alignment);
    AlignUpExact(base + HEADER, alignment);
    RemExact(p, c.span);
    RemTimes(p / c.span, c.span);
    assert base == (p / c.span) * c.span;
  }

  /** With a span's worth of pages and room for the alignment, a map passes. */
  lemma EnoughFits(c: Config, alignment: nat, size: nat, pages: nat, base: nat)
    requires ConfigOk(c) && PowerOfTwo(alignment) && c.page < alignment < c.span
    requires base > 0 && base % c.span == 0 && pages >= ExtraPages(c, alignment) + Ceil(size, c.page)
    ensures !Unfit(c, alignment, size, pages, base)
  {
    AlignedBase(c, alignment, base);
    PagesReach(c, alignment, size, pages);
  }

  lemma AlignedBase(c: Config, alignment: nat, base: nat)
    requires ConfigOk(c) && PowerOfTwo(alignment) && HEADER < alignment < c.span && base % c.span == 0
    ensures AlignUp(base + HEADER, alignment) == base + alignment && SpanOf(c, base + alignment) == base
  {
    BaseAligned(c, base, alignment);
    AlignBehind(base, HEADER, alignment);
    RemBehind(base, alignment, c.span);
  }

  lemma PagesReach(c: Config, alignment: nat, size: nat, pages: nat)
    requires ConfigOk(c) && PowerOfTwo(alignment) && c.page < alignment
    requires pages >= ExtraPages(c, alignment) + Ceil(size, c.page)
    ensures alignment + size <= pages * c.page
  {
    CeilExact(size, c.page);
    PowersDivide(c.page, alignment);
    RemExact(alignment, c.page);
    Sum(ExtraPages(c, alignment), Ceil(size, c.page), pages, c.page);
  }

  lemma Sum(x: nat, y: nat, n: nat, d: nat)
    requires x + y <= n
    ensures x * d + y * d <= n * d
  {
    Times(d, x + y, n);
    assert (x + y) * d == x * d + y * d;
  }

  /** The page limit of the loop allows for both. */
  lemma LimitIsEnough(c: Config, alignment: nat, size: nat)
    requires ConfigOk(c) && PowerOfTwo(alignment) && c.page < alignment < c.span
    ensures LimitPages(c, alignment, size) * c.page >= c.span
    ensures LimitPages(c, alignment, size) >= ExtraPages(c, alignment) + Ceil(size, c.page)
  {
    PowersDivide(c.page, c.span);
    RemExact(c.span, c.page);
    Times(c.page, c.span / c.page, LimitPages(c, alignment, size));
  }

  /** The kernel maps so many pages, where they cannot be used. */
  predicate InVain(c: Config, alignment: nat, size: nat, maps: nat -> Option<nat>, pages: nat)
    requires c.span > 0 && alignment > 0
  {
    maps(pages).Some? && Unfit(c, alignment, size, pages, maps(pages).value)
  }

  ghost predicate AllInVain(c: Config, alignment: nat, size: nat, maps: nat -> Option<nat>, pages: nat)
    requires c.span > 0 && c.page > 0 && alignment > 0
  {
    forall n :: FirstPages(c, alignment, size) <= n < pages ==> InVain(c, alignment, size, maps, n)
  }

  /** The kernel refuses the page count the loop comes to, which is within its limits. */
  ghost predicate Refuses(c: Config, alignment: nat, size: nat, maps: nat -> Option<nat>, pages: nat)
    requires c.span > 0 && c.page > 0 && alignment > 0
  {
    && FirstPages(c, alignment, size) <= pages <= LimitPages(c, alignment, size) && maps(pages).None?
    && AllInVain(c, alignment, size, maps, pages)
  }

  lemma OneMoreInVain(c: Config, alignment: nat, size: nat, maps: nat -> Option<nat>, pages: nat)
    requires c.span > 0 && c.page > 0 && alignment > 0
    requires AllInVain(c, alignment, size, maps, pages) && InVain(c, alignment, size, maps, pages)
    ensures AllInVain(c, alignment, size, maps, pages + 1)
  {
  }

  /** A map that can be used ends the loop before any refusal. */
  lemma NeverRefused(c: Config, alignment: nat, size: nat, maps: nat -> Option<nat>, pages: nat, n: nat)
    requires c.span > 0 && c.page > 0 && alignment > 0 && FirstPages(c, alignment, size) <= pages
    requires AllInVain(c, alignment, size, maps, pages)
    requires maps(pages).Some? && !InVain(c, alignment, size, maps, pages)
    ensures !Refuses(c, alignment, size, maps, n)
  {
    if FirstPages(c, alignment, size) <= n < pages { assert InVain(c, alignment, size, maps, n); }
  }

  /** At the limit a map can be used. */
  lemma LimitFits(c: Config, alignment: nat, size: nat, maps: nat -> Option<nat>)
    requires ConfigOk(c) && PowerOfTwo(alignment) && c.page < alignment < c.span && Kernel(c, maps)
    ensures !InVain(c, alignment, size, maps, LimitPages(c, alignment, size))
  {
    var limit := LimitPages(c, alignment, size);
    LimitIsEnough(c, alignment, size);
    if maps(limit).Some? { EnoughFits(c, alignment, size, limit, maps(limit).value); }
  }

  /**
    The retry loop: it ends with an aligned block, unless the kernel refuses a page count it comes to; it never
    runs into its limit.
  */
  method MapPages(c: Config, alignment: nat, size: nat, maps: nat -> Option<nat>) returns (r: Option<Handout>)
    requires ConfigOk(c) && PowerOfTwo(alignment) && c.page < alignment < c.span && Kernel(c, maps)
    ensures r.Some? ==> Aligned(c, alignment, size, r.value)
    ensures r.None? <==> exists n: nat :: Refuses(c, alignment, size, maps, n)
  {
    var pages, limit := FirstPages(c, alignment, size), LimitPages(c, alignment, size);
    LimitFits(c, alignment, size, maps);
    while true
      invariant FirstPages(c, alignment, size) <= pages <= limit
      invariant AllInVain(c, alignment, size, maps, pages)
      decreases limit - pages
    {
      if maps(pages).None? {
        assert Refuses(c, alignment, size, maps, pages);
        return None;
      }
      var base := maps(pages).value;
      if !Unfit(c, alignment, size, pages, base) {
        FitIsAligned(c, alignment, size, pages, base);
        forall n: nat ensures !Refuses(c, alignment, size, maps, n) {
          NeverRefused(c, alignment, size, maps, pages, n);
        }
        return Some(Handout(AlignUp(base + HEADER, alignment), Huge(base, pages)));
      }
      OneMoreInVain(c, alignment, size, maps, pages);
      pages := pages + 1;
    }
  }

  /** The size asked of the allocator, where it is asked; else pages are mapped. */
  function Asked(c: Config, alignment: nat, size: nat): Option<nat>
    requires c.used >= SMALL_CLASSES
  {
    if alignment <= SMALL_GRANULARITY then Some(size)
    else if alignment <= HEADER && size + HEADER < MediumLimit(c.used) && Rounded(size) <= size + alignment then
      Some(Rounded(size))
    else if alignment <= c.page then Some(size + alignment)
    else None
  }

  /**
    The allocator is asked exactly for alignments up to the page size: for the size itself if any block is aligned
    enough, for the lesser of the size in whole headers and the size and the alignment if a small or medium block of
    whole headers is, and for both the size and the alignment else.
  */
  lemma AskedExactly(c: Config, alignment: nat, size: nat)
    requires ConfigOk(c)
    ensures Asked(c, alignment, size).Some? <==> alignment <= c.page
    ensures alignment <= c.page ==> var n := Asked(c, alignment, size).value;
              if alignment <= SMALL_GRANULARITY then n == size
              else if alignment <= HEADER && size + HEADER < MediumLimit(c.used)
              then n <= Rounded(size) && n <= size + alignment && (n == Rounded(size) || n == size + alignment)
              else n == size + alignment
  {
  }

  /** _rpmalloc_aligned_allocate, for the alignments its comment allows: powers of two below the span size. */
  method AlignedAllocate(c: Config, alignment: nat, size: nat, blocks: nat -> Option<Block>, maps: nat -> Option<nat>)
    returns (r: Option<Handout>)
    requires ConfigOk(c) && PowerOfTwo(alignment) && alignment < c.span && Allocator(c, blocks) && Kernel(c, maps)
    ensures r.Some? ==> Aligned(c, alignment, size, r.value)
    ensures r.Some? && Asked(c, alignment, size).Some? ==>
              blocks(Asked(c, alignment, size).value) == Some(r.value.block)
    ensures r.None? <==> match Asked(c, alignment, size)
                         case Some(n) => blocks(n).None?
                         case None => exists n: nat :: Refuses(c, alignment, size, maps, n)
  {
    if alignment <= SMALL_GRANULARITY {
      if blocks(size).None? { return None; }
      var b := blocks(size).value;
      AsItStands(c, alignment, size, size, b);
      return Some(Handout(Start(c, b), b));
    }
    if alignment <= HEADER && size + HEADER < MediumLimit(c.used) {
      var multiple := Rounded(size);
      RoundedIs(size);
      if multiple <= size + alignment {
        if blocks(multiple).None? { return None; }
        var b := blocks(multiple).value;
        RoundedBelow(size);
        AsItStands(c, alignment, size, multiple, b);
        return Some(Handout(Start(c, b), b));
      }
    }
    if alignment <= c.page {
      if blocks(size + alignment).None? { return None; }
      var b := blocks(size + alignment).value;
      MovedUp(c, alignment, size, b);
      return Some(Handout(AlignUp(Start(c, b), alignment), b));
    }
    r := MapPages(c, alignment, size, maps);
  }

  lemma RoundedBelow(size: nat)
    ensures Rounded(size) <= size + HEADER
  {
    CeilExact(size, HEADER);
  }

  /** What is handed out can be freed and asked its size: the block is found again, and the size is there. */
  lemma AlignedRecovered(c: Config, alignment: nat, size: nat, r: Handout)
    requires ConfigOk(c) && alignment > 0 && Aligned(c, alignment, size, r)
    ensures SpanOf(c, r.p) == r.block.base && r.p >= r.block.base + HEADER
    ensures r.block.InSpan? ==> r.block.class_idx < |c.table| && c.table[r.block.class_idx].block_size > 0
    ensures BlockStart(c, r.block.base, HeaderOf(r.block), r.p) == Start(c, r.block)
    ensures Usable(c, r.block.base, HeaderOf(r.block), r.p) >= size
  {
    Recovered(c, r.block, r.p);
  }
}
