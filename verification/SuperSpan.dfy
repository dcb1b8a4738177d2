/**
  Super-spans (rpmalloc.c): a region mapped at once is cut into a master piece and subspan pieces, which are
  handed out, kept in a heap's reserve or in the global reserve, and unmapped one by one; the region itself
  is released when `remaining_spans` says that nothing of it is left.  A unit is one span's worth of memory.

  A span handed out may be in use or in any cache: to the region that is the same.
 */
module SuperSpan {
  import opened Division

  /** Where one unit of a region is; a handed-out span is named by its first unit. */
  datatype Place = Span(head: nat) | Heap(h: nat) | Global | Unmapped

  /** The header of a handed-out span: span_count, SPAN_FLAG_MASTER, offset_from_master. */
  datatype Head = Head(count: nat, master: bool, offset: nat)

  datatype Region = Region(
    units: seq<Place>,
    heads: map<nat, Head>,
    remaining: int,   // remaining_spans, in the master header
    live: bool,       // the master header says SPAN_FLAG_MASTER and not unmapped
    released: nat)    // how often the whole region was released

  /** span_reserve_master, span_reserve, spans_reserved; or their global counterparts. */
  datatype Reserve = Reserve(region: nat, at: nat, count: nat)

  const EMPTY: Reserve := Reserve(0, 0, 0)

  datatype State = State(regions: seq<Region>, heaps: seq<Reserve>, global: Reserve)

  datatype Address = Address(region: nat, at: nat)

  // ----- the configuration

  const DEFAULT_MAP_COUNT: nat := 64
  const LARGE_CLASSES: nat := 63

  type Bytes = n: nat | 0 < n witness 1

  /** The sizes of a span, of its header (span_t) and of a heap (heap_t). */
  datatype Sizes = Sizes(span: Bytes, header: nat, heap: Bytes)

  /** spansPerPage is 1 when a page is no larger than a span; both sizes are powers of two. */
  datatype Config = Config(spansPerPage: nat, mapCount: nat, sizes: Sizes)

  /** What the set-up makes of a requested map count. */
  function Configured(spansPerPage: nat, wanted: nat, sizes: Sizes): (c: Config)
    requires spansPerPage > 0
    ensures WholePages(c) && c.spansPerPage == spansPerPage && c.sizes == sizes
    ensures var n := if wanted > 0 then wanted else DEFAULT_MAP_COUNT;
            c.mapCount == if n % spansPerPage == 0 then n else spansPerPage
  {
    var n0 := if wanted > 0 then wanted else DEFAULT_MAP_COUNT;
    var n1 := if n0 < spansPerPage then spansPerPage else n0;
    RemMultiple(1, spansPerPage, 0);
    Config(spansPerPage, if n1 % spansPerPage != 0 then spansPerPage else n1, sizes)
  }

  /** A map is a whole number of pages. */
  predicate WholePages(c: Config) {
    c.spansPerPage > 0 && c.mapCount >= c.spansPerPage && c.mapCount % c.spansPerPage == 0
  }

  /** _memory_heap_reserve_count */
  function Quota(c: Config): (q: nat)
    ensures q <= DEFAULT_MAP_COUNT && q <= c.mapCount && (q == DEFAULT_MAP_COUNT || q == c.mapCount)
  {
    if c.mapCount > DEFAULT_MAP_COUNT then DEFAULT_MAP_COUNT else c.mapCount
  }

  function UsesGlobal(c: Config): bool { c.spansPerPage > 1 || c.mapCount > Quota(c) }

  /** _rpmalloc_span_align_count */
  function AlignCount(c: Config, k: nat): (n: nat)
    requires WholePages(c)
    ensures n >= k
  {
    var n := if k > c.mapCount then k else c.mapCount;
    if c.spansPerPage > 1 && n % c.spansPerPage != 0 then n + c.mapCount - (n % c.mapCount) else n
  }

  // ----- units and headers

  /** Units at..at+n now in the given place. */
  function Fill(units: seq<Place>, at: nat, n: nat, p: Place): (r: seq<Place>)
    requires at + n <= |units|
    ensures |r| == |units|
    ensures forall i :: 0 <= i < |r| ==> r[i] == if at <= i < at + n then p else units[i]
  {
    seq(|units|, i requires 0 <= i < |units| => if at <= i < at + n then p else units[i])
  }

  /** The spans' worth of memory not unmapped yet. */
  function Mapped(units: seq<Place>): nat {
    if units == [] then 0 else Mapped(units[..|units| - 1]) + if units[|units| - 1] == Unmapped then 0 else 1
  }

  /** A piece gets its header: _rpmalloc_span_mark_as_subspan_unless_master leaves the master's flags alone. */
  function Carve(reg: Region, at: nat, n: nat): Region
    requires at + n <= |reg.units|
  {
    reg.(units := Fill(reg.units, at, n, Span(at)), heads := reg.heads[at := Head(n, at == 0, at)])
  }

  /** _rpmalloc_span_unmap */
  function Unmap(reg: Region, at: nat): Region
    requires at in reg.heads && at + reg.heads[at].count <= |reg.units|
  {
    var head := reg.heads[at];
    var left := reg.remaining - head.count;
    reg.(units := Fill(reg.units, at, head.count, Unmapped), heads := reg.heads - {at}, remaining := left,
         live := reg.live && !head.master, released := reg.released + if left <= 0 then 1 else 0)
  }

  /** A handed-out span, or its tail, goes into a heap's reserve; the first `keep` units stay a span. */
  function Hold(reg: Region, at: nat, keep: nat, h: nat): Region
    requires at in reg.heads && at + reg.heads[at].count <= |reg.units| && keep <= reg.heads[at].count
  {
    var head := reg.heads[at];
    reg.(units := Fill(reg.units, at + keep, head.count - keep, Heap(h)),
         heads := if keep == 0 then reg.heads - {at} else reg.heads[at := head.(count := keep)])
  }

  /** A new region: the span asked for, the heap's reserve, the rest. */
  function Fresh(k: nat, h: nat, reserve: nat, rest: nat): Region {
    Region(seq(k, _ => Span(0)) + seq(reserve, _ => Heap(h)) + seq(rest, _ => Global),
           map[0 := Head(k, true, 0)], k + reserve + rest, true, 0)
  }

  // ----- the steps

  predicate InRegion(s: State, rv: Reserve) {
    rv.region < |s.regions| && rv.at + rv.count <= |s.regions[rv.region].units|
  }

  predicate SpanAt(s: State, a: Address) {
    && a.region < |s.regions| && a.at in s.regions[a.region].heads
    && a.at + s.regions[a.region].heads[a.at].count <= |s.regions[a.region].units|
  }

  function Advance(rv: Reserve, k: nat): Reserve
    requires k <= rv.count
  {
    rv.(at := rv.at + k, count := rv.count - k)
  }

  /** _rpmalloc_span_map_from_reserve */
  function TakeHeap(s: State, h: nat, k: nat): (State, Address)
    requires h < |s.heaps| && 1 <= k <= s.heaps[h].count && InRegion(s, s.heaps[h])
  {
    var rv := s.heaps[h];
    (s.(regions := s.regions[rv.region := Carve(s.regions[rv.region], rv.at, k)],
        heaps := s.heaps[h := Advance(rv, k)]),
     Address(rv.region, rv.at))
  }

  /** _rpmalloc_global_get_reserved_spans */
  function TakeGlobal(s: State, k: nat): (State, Address)
    requires 1 <= k <= s.global.count && InRegion(s, s.global)
  {
    var rv := s.global;
    (s.(regions := s.regions[rv.region := Carve(s.regions[rv.region], rv.at, k)], global := Advance(rv, k)),
     Address(rv.region, rv.at))
  }

  function UnmapSpan(s: State, a: Address): State
    requires SpanAt(s, a)
  {
    s.(regions := s.regions[a.region := Unmap(s.regions[a.region], a.at)])
  }

  /** The tail of a span, from unit `keep` on, becomes the heap's reserve. */
  function HoldSpan(s: State, h: nat, a: Address, keep: nat): State
    requires SpanAt(s, a) && h < |s.heaps| && keep <= s.regions[a.region].heads[a.at].count
  {
    var n := s.regions[a.region].heads[a.at].count;
    s.(regions := s.regions[a.region := Hold(s.regions[a.region], a.at, keep, h)],
       heaps := s.heaps[h := Reserve(a.region, a.at + keep, n - keep)])
  }

  function AddRegion(s: State, k: nat, h: nat, reserve: nat, rest: nat): State
    requires h < |s.heaps|
  {
    var r := |s.regions|;
    s.(regions := s.regions + [Fresh(k, h, reserve, rest)],
       heaps := if reserve > 0 then s.heaps[h := Reserve(r, k, reserve)] else s.heaps,
       global := if rest > 0 then Reserve(r, k + reserve, rest) else s.global)
  }

  /** A new region of k units and `extra` more, of which the heap keeps what its quota allows. */
  function AddSplit(s: State, c: Config, h: nat, k: nat, extra: nat): State
    requires h < |s.heaps|
  {
    if extra > Quota(c) then AddRegion(s, k, h, Quota(c), extra - Quota(c)) else AddRegion(s, k, h, extra, 0)
  }

  // ----- the operations

  datatype Given = Given(state: State, span: Address) | NoMemory(state: State)

  /** A heap's leftover reserve goes into its cache, as a span. */
  function CacheReserve(s: State, h: nat): State
    requires h < |s.heaps| && (s.heaps[h].count > 0 ==> InRegion(s, s.heaps[h]))
  {
    if s.heaps[h].count > 0 then TakeHeap(s, h, s.heaps[h].count).0 else s
  }

  /** What is left in the global reserve is unmapped. */
  function UnmapGlobal(s: State): State
    requires s.global.count > 0 ==> InRegion(s, s.global)
  {
    if s.global.count > 0 then
      var (t, a) := TakeGlobal(s, s.global.count);
      UnmapSpan(t, a)
    else s
  }

  /** A new region of k units and `extra` more, for the reserves. */
  function MapExtra(s: State, c: Config, h: nat, k: nat, extra: nat): Given
    requires h < |s.heaps|
    requires (s.heaps[h].count > 0 ==> InRegion(s, s.heaps[h])) && (s.global.count > 0 ==> InRegion(s, s.global))
  {
    var s1 := if extra > 0 then CacheReserve(s, h) else s;
    var s2 := if extra > Quota(c) then UnmapGlobal(s1) else s1;
    Given(AddSplit(s2, c, h, k, extra), Address(|s.regions|, 0))
  }

  /** _rpmalloc_span_map_aligned_count, the kernel willing. */
  function MapNew(s: State, c: Config, h: nat, k: nat): Given
    requires h < |s.heaps| && WholePages(c)
    requires (s.heaps[h].count > 0 ==> InRegion(s, s.heaps[h])) && (s.global.count > 0 ==> InRegion(s, s.global))
  {
    MapExtra(s, c, h, k, AlignCount(c, k) - k)
  }

  /** How much _rpmalloc_span_map takes from the global reserve. */
  function FromGlobal(s: State, c: Config, h: nat, k: nat): nat
    requires h < |s.heaps|
  {
    var n := if s.heaps[h].count == 0 then Quota(c) else k;
    if s.global.count < n then s.global.count else n
  }

  /** The part of _rpmalloc_span_map that is served from the global reserve. */
  function MapGlobal(s: State, c: Config, h: nat, k: nat): Given
    requires h < |s.heaps| && InRegion(s, s.global) && 1 <= k <= FromGlobal(s, c, h, k)
  {
    var n := FromGlobal(s, c, h, k);
    var (t, a) := TakeGlobal(s, n);
    Given(if n > k then HoldSpan(t, h, a, k) else t, a)
  }

  /** _rpmalloc_span_map */
  function Map(s: State, c: Config, h: nat, k: nat, memory: bool): Given
    requires h < |s.heaps| && WholePages(c) && k >= 1
    requires (s.heaps[h].count > 0 ==> InRegion(s, s.heaps[h])) && (s.global.count > 0 ==> InRegion(s, s.global))
    requires s.heaps[h].count < k && UsesGlobal(c) && s.global.count >= k ==> FromGlobal(s, c, h, k) >= k
  {
    if k <= s.heaps[h].count then
      var (t, a) := TakeHeap(s, h, k);
      Given(t, a)
    else if UsesGlobal(c) && s.global.count >= k then MapGlobal(s, c, h, k)
    else if memory then MapNew(s, c, h, k)
    else NoMemory(s)
  }

  /** A large page for heaps: its leftover becomes the new heap's reserve, and what is over that the global one. */
  function NewPage(t: State, c: Config, h: nat, spans: nat): State
    requires h < |t.heaps| && spans <= c.spansPerPage
  {
    AddSplit(t, c, h, spans, c.spansPerPage - spans)
  }

  // ----- heaps

  const HEAPS: nat := 16

  /** A heap's size, rounded up. */
  function HeapBytes(z: Sizes): Bytes { 16 * Ceil(z.heap, 16) }

  /** The spans n heaps and a header take. */
  function HeapSpans(z: Sizes, n: nat): nat { (HeapBytes(z) * n + z.header + z.span - 1) / z.span }

  lemma HeapSpansHold(z: Sizes, n: nat)
    ensures HeapBytes(z) * n + z.header <= HeapSpans(z, n) * z.span < HeapBytes(z) * n + z.header + z.span
  {
    var bytes := HeapBytes(z) * n + z.header + z.span - 1;
    QuotientExact(bytes, z.span);
    assert (HeapSpans(z, n) + 1) * z.span == HeapSpans(z, n) * z.span + z.span;
  }

  /** They are no more than any number that holds them. */
  lemma HeapSpansLeast(z: Sizes, n: nat, most: nat)
    requires HeapBytes(z) * n + z.header <= most * z.span
    ensures HeapSpans(z, n) <= most
  {
    HeapSpansHold(z, n);
    assert (most + 1) * z.span == most * z.span + z.span;
    if HeapSpans(z, n) > most { Times(z.span, most + 1, HeapSpans(z, n)); }
  }

  /** What is asked for at first: room for 16 heaps. */
  function Wanted(c: Config): (n: nat)
    ensures n >= 1
  {
    HeapSpansHold(c.sizes, HEAPS);
    HeapSpans(c.sizes, HEAPS)
  }

  predicate LargePage(c: Config) { c.spansPerPage > Wanted(c) }

  lemma PageHolds(c: Config)
    requires LargePage(c)
    ensures HeapBytes(c.sizes) * HEAPS + c.sizes.header <= c.spansPerPage * c.sizes.span
  {
    HeapSpansHold(c.sizes, HEAPS);
    Times(c.sizes.span, Wanted(c), c.spansPerPage);
  }

  /** The heaps a large page has room for, behind the header. */
  function Room(c: Config): nat
    requires LargePage(c)
  {
    PageHolds(c);
    (c.spansPerPage * c.sizes.span - c.sizes.header) / HeapBytes(c.sizes)
  }

  /** How many of them _rpmalloc_heap_allocate_new makes. */
  function HeapCount(c: Config): nat
    requires LargePage(c)
  {
    if Room(c) >= HEAPS * 16 then HEAPS * 16 else if Room(c) < HEAPS then Room(c) else HEAPS
  }

  /** And the spans they come to take of the page. */
  function Spans(c: Config): nat
    requires LargePage(c)
  {
    HeapSpans(c.sizes, HeapCount(c))
  }

  /** The page has room for 16 heaps at least, and for those that are made of it. */
  lemma HeapsFit(c: Config)
    requires LargePage(c)
    ensures Room(c) >= HEAPS && (HeapCount(c) == if Room(c) >= 256 then 256 else 16)
    ensures Wanted(c) <= Spans(c) <= c.spansPerPage
  {
    PageHolds(c);
    var z, bytes, page := c.sizes, HeapBytes(c.sizes), c.spansPerPage * c.sizes.span;
    QuotientExact(page - z.header, bytes);
    if Room(c) < HEAPS { Times(bytes, Room(c) + 1, HEAPS); }
    Times(bytes, HeapCount(c), Room(c));
    HeapSpansLeast(z, HeapCount(c), c.spansPerPage);
    HeapSpansHold(z, HeapCount(c));
    Times(bytes, HEAPS, HeapCount(c));
    HeapSpansLeast(z, HEAPS, Spans(c));
  }

  /** The spans _rpmalloc_heap_allocate_new maps for the heaps. */
  function NewHeap(s: State, c: Config, memory: bool): Given
    requires WholePages(c) && (s.global.count > 0 ==> InRegion(s, s.global))
  {
    var t := s.(heaps := s.heaps + [EMPTY]);
    if s.global.count >= Wanted(c) then
      var (u, a) := TakeGlobal(t, Wanted(c));
      Given(u, a)
    else if !memory then NoMemory(s)
    else if LargePage(c) then
      HeapsFit(c);
      Given(NewPage(t, c, |s.heaps|, Spans(c)), Address(|s.regions|, 0))
    else Given(AddRegion(t, Wanted(c), |s.heaps|, 0, 0), Address(|s.regions|, 0))
  }

  /** _rpmalloc_deallocate_large, on the owner's side; `cold` is an empty span cache and no finalisation. */
  function FreeLarge(s: State, h: nat, a: Address, cold: bool): State
    requires h < |s.heaps| && SpanAt(s, a)
  {
    if s.regions[a.region].heads[a.at].count > 1 && cold && s.heaps[h].count == 0 then HoldSpan(s, h, a, 0) else s
  }
}
