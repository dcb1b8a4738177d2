/**
  Where an allocation lies and what a pointer into it leads back to (rpmalloc.c): every block sits behind the
  128-byte header of the span it is in, and the header is found by masking the address with the span size.
*/
module Blocks {
  import opened Division
  import opened SizeClass
  import SuperSpan

  /** Page and span size, and the size class table as it is set up. */
  datatype Config = Config(page: nat, span: nat, table: seq<Class>, used: nat)

  ghost predicate ConfigOk(c: Config) {
    && Ready(c.span, c.table, c.used) && PowerOfTwo(c.span) && PowerOfTwo(c.page) && c.page >= 4096
  }

  function LargeLimit(c: Config): int { SuperSpan.LARGE_CLASSES * c.span - HEADER }

  /** A block: in a span of a size class, a large span, or pages of its own. */
  datatype Block =
    | InSpan(base: nat, class_idx: nat, idx: nat)
    | Large(base: nat, spans: nat)
    | Huge(base: nat, pages: nat)

  function BlockSize(c: Config, b: Block): nat
    requires b.InSpan? && b.class_idx < |c.table|
  {
    c.table[b.class_idx].block_size
  }

  function Start(c: Config, b: Block): nat
    requires b.InSpan? ==> b.class_idx < |c.table|
  {
    if b.InSpan? then b.base + HEADER + b.idx * BlockSize(c, b) else b.base + HEADER
  }

  function End(c: Config, b: Block): nat
    requires b.InSpan? ==> b.class_idx < |c.table|
  {
    match b
    case InSpan(_, _, _) => Start(c, b) + BlockSize(c, b)
    case Large(base, spans) => base + spans * c.span
    case Huge(base, pages) => base + pages * c.page
  }

  /** The memory of the block's span, header included. */
  function SpanEnd(c: Config, b: Block): nat {
    match b
    case InSpan(base, _, _) => base + c.span
    case Large(base, spans) => base + spans * c.span
    case Huge(base, pages) => base + pages * c.page
  }

  ghost predicate BlockOk(c: Config, b: Block)
    requires ConfigOk(c)
  {
    && b.base > 0 && b.base % c.span == 0
    && match b
       case InSpan(_, i, idx) =>
         i < c.used && i < |c.table| && c.table[i].class_idx == i && idx < c.table[i].block_count
       case Large(_, spans) => spans >= 1
       case Huge(_, pages) => pages * c.page >= HEADER
  }

  /** What _rpmalloc_allocate may return for a request. */
  ghost predicate Granted(c: Config, size: nat, b: Block)
    requires ConfigOk(c)
  {
    && BlockOk(c, b)
    && if size <= MediumLimit(c.used) then
         size <= MEDIUM_MAX && |c.table| == CLASSES && b.InSpan? && b.class_idx == Chosen(c.table, size)
       else if size <= LargeLimit(c) then b.Large? && b.spans >= Ceil(size + HEADER, c.span)
       else b.Huge? && b.pages == Ceil(size + HEADER, c.page)
  }

  /** A block of a size class lies behind its span's header, inside the span. */
  lemma InSpanInside(c: Config, b: Block)
    requires ConfigOk(c) && BlockOk(c, b) && b.InSpan?
    ensures b.base + HEADER <= Start(c, b) < End(c, b) <= b.base + c.span
  {
    var size := BlockSize(c, b);
    RoomInClass(c, b.class_idx, b.idx, size);
    assert Start(c, b) == b.base + HEADER + b.idx * size && End(c, b) == Start(c, b) + size;
  }

  lemma RoomInClass(c: Config, i: nat, idx: nat, size: nat)
    requires ConfigOk(c) && i < c.used && idx < c.table[i].block_count && size == c.table[i].block_size
    ensures size > 0 && 0 <= idx * size && HEADER + idx * size + size <= c.span
  {
    ClassesFit(c.span, c.table, c.used, i);
    IndexInside(idx, c.table[i].block_count, size);
  }

  /** As does any block. */
  lemma BlockInside(c: Config, b: Block)
    requires ConfigOk(c) && BlockOk(c, b)
    ensures b.base + HEADER <= Start(c, b) <= End(c, b) <= SpanEnd(c, b)
    ensures b.InSpan? || b.Large? ==> Start(c, b) < b.base + c.span
  {
    if b.InSpan? {
      InSpanInside(c, b);
    } else if b.Large? {
      Multiple(b.spans, c.span);
      assert HEADER < c.span <= b.spans * c.span;
    }
  }

  lemma Multiple(n: nat, s: nat)
    requires n >= 1
    ensures n * s >= s
  {
    Times(s, 1, n);
  }

  lemma IndexInside(idx: nat, count: nat, size: nat)
    requires idx < count
    ensures 0 <= idx * size && idx * size + size <= count * size
  {
    Times(size, 0, idx);
    Times(size, idx + 1, count);
    assert (idx + 1) * size == idx * size + size;
  }

  /** And it holds the request. */
  lemma GrantedHolds(c: Config, size: nat, b: Block)
    requires ConfigOk(c) && Granted(c, size, b)
    ensures End(c, b) - Start(c, b) >= size
  {
    if size <= MediumLimit(c.used) {
      ChosenFits(c.span, c.table, c.used, size);
    } else if size <= LargeLimit(c) {
      CeilExact(size + HEADER, c.span);
      Times(c.span, Ceil(size + HEADER, c.span), b.spans);
    } else {
      CeilExact(size + HEADER, c.page);
    }
  }

  // ----- from a pointer back to its block

  /** p & _memory_span_mask */
  function SpanOf(c: Config, p: nat): nat
    requires c.span > 0
  {
    p - MaskedOff(c, p)
  }

  function MaskedOff(c: Config, p: nat): (r: nat)
    requires c.span > 0
    ensures r <= p
  {
    RemExact(p, c.span);
    p % c.span
  }

  /** What the header of the block's span says: the size class, or the spans, or the pages. */
  datatype Header = Classed(class_idx: nat) | LargeSpan(spans: nat) | HugePages(pages: nat)

  function HeaderOf(b: Block): Header {
    match b
    case InSpan(_, i, _) => Classed(i)
    case Large(_, spans) => LargeSpan(spans)
    case Huge(_, pages) => HugePages(pages)
  }

  /** The realigning of a pointer in a span with aligned blocks. */
  function BlockStart(c: Config, base: nat, h: Header, p: nat): int
    requires h.Classed? ==> h.class_idx < |c.table| && c.table[h.class_idx].block_size > 0
    requires p >= base + HEADER
  {
    if h.Classed? then p - ((p - (base + HEADER)) % c.table[h.class_idx].block_size) else base + HEADER
  }

  /** _rpmalloc_usable_size */
  function Usable(c: Config, base: nat, h: Header, p: nat): int
    requires h.Classed? ==> h.class_idx < |c.table| && c.table[h.class_idx].block_size > 0
    requires p >= base + HEADER
  {
    match h
    case Classed(i) => c.table[i].block_size - ((p - (base + HEADER)) % c.table[i].block_size)
    case LargeSpan(spans) => spans * c.span - (p - base)
    case HugePages(pages) => pages * c.page - (p - base)
  }

  /** A pointer free and usable size can be asked about: into the block, and less than a span from the span's start. */
  ghost predicate Inside(c: Config, b: Block, p: nat)
    requires ConfigOk(c)
  {
    BlockOk(c, b) && Start(c, b) <= p <= End(c, b) && p < b.base + c.span && (b.InSpan? ==> p < End(c, b))
  }

  /** From such a pointer the span, the block and the bytes behind the pointer are found again. */
  lemma Recovered(c: Config, b: Block, p: nat)
    requires ConfigOk(c) && Inside(c, b, p)
    ensures SpanOf(c, p) == b.base && p >= b.base + HEADER
    ensures b.InSpan? ==> b.class_idx < |c.table| && c.table[b.class_idx].block_size > 0
    ensures BlockStart(c, b.base, HeaderOf(b), p) == Start(c, b)
    ensures Usable(c, b.base, HeaderOf(b), p) == End(c, b) - p
  {
    BlockInside(c, b);
    RemBehind(b.base, p - b.base, c.span);
    if b.InSpan? { InBlock(c, b, p); }
  }

  lemma InBlock(c: Config, b: Block, p: nat)
    requires ConfigOk(c) && BlockOk(c, b) && b.InSpan? && Start(c, b) <= p < End(c, b)
    ensures b.class_idx < |c.table| && BlockSize(c, b) > 0
    ensures (p - (b.base + HEADER)) % BlockSize(c, b) == p - Start(c, b)
  {
    ClassesFit(c.span, c.table, c.used, b.class_idx);
    RemMultiple(b.idx, BlockSize(c, b), p - Start(c, b));
  }

  // ----- two blocks

  /** Two blocks: of one span, with the same header, or of spans apart. */
  ghost predicate Placed(c: Config, a: Block, b: Block) {
    || (a.InSpan? && b.InSpan? && a.base == b.base && a.class_idx == b.class_idx && a.idx != b.idx)
    || SpanEnd(c, a) <= b.base || SpanEnd(c, b) <= a.base
  }

  lemma Disjoint(c: Config, a: Block, b: Block)
    requires ConfigOk(c) && BlockOk(c, a) && BlockOk(c, b) && Placed(c, a, b)
    ensures End(c, a) <= Start(c, b) || End(c, b) <= Start(c, a)
  {
    BlockInside(c, a);
    BlockInside(c, b);
    if a.InSpan? && b.InSpan? && a.base == b.base && a.class_idx == b.class_idx {
      if a.idx < b.idx {
        IndexInside(a.idx, b.idx, BlockSize(c, a));
      } else {
        IndexInside(b.idx, a.idx, BlockSize(c, a));
      }
    }
  }
}
