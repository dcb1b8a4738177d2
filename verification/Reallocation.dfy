/**
  rprealloc (rpmalloc.c): a block that still fits is kept, the data moved down to its start if it was aligned
  up; else a new one is taken, with slack when it grows by little, and the data copied.  Memory is one array.
*/
module Reallocation {
  import opened Options
  import opened Bytes
  import opened Division
  import opened SizeClass
  import opened Blocks

  /** _memory_span_mask - 1, where the mask is ~(span - 1), has every bit but the span size's. */
  lemma MaskTest(span: bv64, total: bv64)
    requires span != 0 && span & (span - 1) == 0
    ensures total & (!(span - 1) - 1) == 0 <==> total == 0 || total == span
  {
    assert !(span - 1) - 1 == !span;
    if total & !span == 0 { SubBit(span, total); }
  }

  /** A power of two has one bit: what has no other is that, or nothing. */
  lemma SubBit(span: bv64, total: bv64)
    requires span & (span - 1) == 0 && total & !span == 0
    ensures total == 0 || total == span
  {
  }

  /** The spans a large block is taken to need: one more than it has whole, unless it is exactly one. */
  function SpansNeeded(c: Config, total: nat): nat
    requires c.span > 0
  {
    total / c.span + if total == 0 || total == c.span then 0 else 1
  }

  /** That is never too few. */
  lemma SpansSuffice(c: Config, total: nat)
    requires c.span > 0
    ensures total <= SpansNeeded(c, total) * c.span
  {
    QuotientExact(total, c.span);
    if total == c.span { RemMultiple(1, c.span, 0); }
  }

  /** The block still holds the new size, and is not much too large for it. */
  predicate Keeps(c: Config, b: Block, old_size: nat, size: nat)
    requires c.span > 0 && c.page > 0 && (b.InSpan? ==> b.class_idx < |c.table|)
  {
    match b
    case InSpan(_, _, _) => BlockSize(c, b) >= size
    case Large(_, spans) => spans >= SpansNeeded(c, size + HEADER) && size + HEADER >= old_size / 2
    case Huge(_, pages) => pages >= Ceil(size + HEADER, c.page) && Ceil(size + HEADER, c.page) >= pages / 2
  }

  /**
    When a block is kept: in a span, as long as it holds the new size; a large one as long as its spans hold that with
    the header and something over, or it is one span and exactly full, and half of the old size is not more; a huge
    one as long as its pages hold that and half of them are not more.
  */
  lemma KeepsExactly(c: Config, b: Block, old_size: nat, size: nat)
    requires ConfigOk(c) && BlockOk(c, b) && (b.InSpan? ==> b.class_idx < |c.table|)
    ensures b.InSpan? ==> (Keeps(c, b, old_size, size) <==> Start(c, b) + size <= End(c, b))
    ensures b.Large? ==> var total := size + HEADER;
              (Keeps(c, b, old_size, size) <==>
                 (total < b.spans * c.span || (b.spans == 1 && total == c.span)) && total >= old_size / 2)
    ensures b.Huge? ==> var total := size + HEADER;
              (Keeps(c, b, old_size, size) <==> total <= b.pages * c.page && Ceil(total, c.page) >= b.pages / 2)
  {
    var total := size + HEADER;
    match b
    case InSpan(_, _, _) =>
    case Large(_, spans) => NeededExactly(c, total, spans);
    case Huge(_, pages) =>
      CeilExact(total, c.page);
      if total <= pages * c.page { CeilBound(total, c.page, pages); }
      else if Ceil(total, c.page) <= pages { Times(c.page, Ceil(total, c.page), pages); }
  }

  lemma NeededExactly(c: Config, total: nat, spans: nat)
    requires c.span > 0 && total > 0 && spans >= 1
    ensures spans >= SpansNeeded(c, total) <==> total < spans * c.span || (spans == 1 && total == c.span)
  {
    QuotientExact(total, c.span);
    if total == c.span { RemMultiple(1, c.span, 0); }
    if total / c.span + 1 <= spans { Times(c.span, total / c.span + 1, spans); }
    else { Times(c.span, spans, total / c.span); }
    if total == c.span && spans > 1 { Times(c.span, 2, spans); }
  }

  /** A kept block has the capacity. */
  lemma KeptHolds(c: Config, b: Block, old_size: nat, size: nat)
    requires ConfigOk(c) && BlockOk(c, b) && (b.InSpan? ==> b.class_idx < |c.table|) && Keeps(c, b, old_size, size)
    ensures Start(c, b) + size <= End(c, b)
  {
    match b
    case InSpan(_, _, _) =>
    case Large(_, spans) =>
      SpansSuffice(c, size + HEADER);
      Times(c.span, SpansNeeded(c, size + HEADER), spans);
    case Huge(_, pages) =>
      CeilExact(size + HEADER, c.page);
      Times(c.page, Ceil(size + HEADER, c.page), pages);
  }

  /**
    What is asked of the allocator: no more than the new size, except that a block that grows grows by three eighths
    at least, less a rounding of under two bytes.
  */
  function Request(old_size: nat, size: nat): (n: nat)
    ensures n >= size && (size <= old_size ==> n == size)
    ensures size > old_size ==> 11 * old_size < 8 * n + 16 && (n == size || 8 * n <= 11 * old_size)
  {
    var lower := old_size + old_size / 4 + old_size / 8;
    if size > lower then size else if size > old_size then lower else size
  }

  datatype Result = Null | At(p: nat, block: Block)

  /** The bytes of the new block up to n are those there were at p. */
  ghost predicate Carried(before: seq<Byte>, after: seq<Byte>, p: nat, q: nat, n: nat) {
    p + n <= |before| && q + n <= |after| && after[q..q + n] == before[p..p + n]
  }

  /** No byte outside lo..hi changed. */
  ghost predicate Untouched(before: seq<Byte>, after: seq<Byte>, lo: nat, hi: nat) {
    lo <= hi <= |before| == |after| && after[..lo] == before[..lo] && after[hi..] == before[hi..]
  }

  /** The allocator, as it answers while block b is live. */
  ghost predicate Allocates(c: Config, blocks: nat -> Option<Block>, b: Block, limit: nat)
    requires ConfigOk(c)
  {
    forall n: nat :: blocks(n).Some? ==>
      Granted(c, n, blocks(n).value) && Placed(c, b, blocks(n).value) && SpanEnd(c, blocks(n).value) <= limit
  }

  method MoveDown(mem: array<Byte>, to: nat, from: nat, n: nat)
    requires to <= from && from + n <= mem.Length
    modifies mem
    ensures Carried(old(mem[..]), mem[..], from, to, n) && Untouched(old(mem[..]), mem[..], to, to + n)
  {
    MovedParts(mem[..], to, from, from + n);
    CopyWithin(mem, to, from, from + n);
  }

  /** memcpy: the two stretches must not overlap. */
  method Copy(mem: array<Byte>, to: nat, from: nat, n: nat)
    requires to + n <= mem.Length && from + n <= mem.Length && (to + n <= from || from + n <= to)
    modifies mem
    ensures Carried(old(mem[..]), mem[..], from, to, n) && Untouched(old(mem[..]), mem[..], to, to + n)
  {
    MovedParts(mem[..], to, from, from + n);
    CopyWithin(mem, to, from, from + n);
  }

  /** The new size is there, the bytes at p up to it came along, and nothing outside the resulting block changed. */
  ghost predicate Reallocated(c: Config, b: Block, p: nat, size: nat, r: Result, before: seq<Byte>, after: seq<Byte>)
    requires ConfigOk(c) && Inside(c, b, p) && r.At?
  {
    && BlockOk(c, r.block) && r.p == Start(c, r.block) && r.p + size <= End(c, r.block) <= |after|
    && Carried(before, after, p, r.p, Lesser(End(c, b) - p, size))
    && Untouched(before, after, r.p, End(c, r.block))
  }

  function Lesser(m: nat, n: nat): nat { if m < n then m else n }

  method Keep(c: Config, mem: array<Byte>, b: Block, p: nat, size: nat) returns (r: Result)
    requires ConfigOk(c) && Inside(c, b, p) && SpanEnd(c, b) <= mem.Length && Keeps(c, b, End(c, b) - p, size)
    modifies mem
    ensures r == At(Start(c, b), b) && Reallocated(c, b, p, size, r, old(mem[..]), mem[..])
  {
    KeptHolds(c, b, End(c, b) - p, size);
    BlockInside(c, b);
    var start, old_size := Start(c, b), End(c, b) - p;
    if p != start { MoveDown(mem, start, p, old_size); }
    Wider(old(mem[..]), mem[..], p, start, old_size, Lesser(old_size, size), End(c, b));
    r := At(start, b);
  }

  /** The new block has room for what is copied, and does not overlap it. */
  lemma ReplaceRoom(c: Config, b: Block, p: nat, size: nat, block: Block)
    requires ConfigOk(c) && Inside(c, b, p)
    requires Granted(c, Request(End(c, b) - p, size), block) && Placed(c, b, block)
    ensures var n := Lesser(End(c, b) - p, Request(End(c, b) - p, size));
            && Lesser(End(c, b) - p, size) <= n
            && Start(c, block) + size <= End(c, block) <= SpanEnd(c, block) && Start(c, block) + n <= End(c, block)
            && p + n <= End(c, b) <= SpanEnd(c, b) && (Start(c, block) + n <= p || p + n <= Start(c, block))
  {
    GrantedHolds(c, Request(End(c, b) - p, size), block);
    BlockInside(c, b);
    BlockInside(c, block);
    Disjoint(c, b, block);
  }

  method Replace(c: Config, mem: array<Byte>, b: Block, p: nat, size: nat, block: Block) returns (r: Result)
    requires ConfigOk(c) && Inside(c, b, p) && SpanEnd(c, b) <= mem.Length
    requires Granted(c, Request(End(c, b) - p, size), block) && Placed(c, b, block) && SpanEnd(c, block) <= mem.Length
    modifies mem
    ensures r == At(Start(c, block), block) && Reallocated(c, b, p, size, r, old(mem[..]), mem[..])
  {
    var n := Lesser(End(c, b) - p, Request(End(c, b) - p, size));
    ReplaceRoom(c, b, p, size, block);
    Copy(mem, Start(c, block), p, n);
    ReplaceDone(c, b, p, size, block, n, old(mem[..]), mem[..]);
    r := At(Start(c, block), block);
  }

  lemma ReplaceDone(c: Config, b: Block, p: nat, size: nat, block: Block, n: nat, before: seq<Byte>, after: seq<Byte>)
    requires ConfigOk(c) && Inside(c, b, p) && SpanEnd(c, b) <= |before|
    requires Granted(c, Request(End(c, b) - p, size), block) && Placed(c, b, block) && SpanEnd(c, block) <= |before|
    requires n == Lesser(End(c, b) - p, Request(End(c, b) - p, size))
    requires Carried(before, after, p, Start(c, block), n)
    requires Untouched(before, after, Start(c, block), Start(c, block) + n)
    ensures Reallocated(c, b, p, size, At(Start(c, block), block), before, after)
  {
    ReplaceRoom(c, b, p, size, block);
    Wider(before, after, p, Start(c, block), n, Lesser(End(c, b) - p, size), End(c, block));
  }

  /** rprealloc of a pointer into block b: it fails only where the allocator does, and then nothing is changed. */
  method Reallocate(c: Config, mem: array<Byte>, b: Block, p: nat, size: nat, blocks: nat -> Option<Block>)
    returns (r: Result)
    requires ConfigOk(c) && Inside(c, b, p) && SpanEnd(c, b) <= mem.Length && Allocates(c, blocks, b, mem.Length)
    modifies mem
    ensures Keeps(c, b, End(c, b) - p, size) ==> r == At(Start(c, b), b)
    ensures !Keeps(c, b, End(c, b) - p, size) ==>
              r == match blocks(Request(End(c, b) - p, size))
                   case None => Null
                   case Some(block) => At(Start(c, block), block)
    ensures r == Null ==> mem[..] == old(mem[..])
    ensures r.At? ==> Reallocated(c, b, p, size, r, old(mem[..]), mem[..])
  {
    Recovered(c, b, p);
    var old_size := Usable(c, SpanOf(c, p), HeaderOf(b), p);
    if Keeps(c, b, old_size, size) {
      r := Keep(c, mem, b, p, size);
    } else if blocks(Request(old_size, size)).Some? {
      r := Replace(c, mem, b, p, size, blocks(Request(old_size, size)).value);
    } else {
      r := Null;
    }
  }

  /** More bytes than needed came along, and the block is larger than what was written. */
  lemma Wider(before: seq<Byte>, after: seq<Byte>, p: nat, q: nat, n: nat, m: nat, end: nat)
    requires Carried(before, after, p, q, n) && m <= n && Untouched(before, after, q, q + n) && q + n <= end <= |before|
    ensures Carried(before, after, p, q, m) && Untouched(before, after, q, end)
  {
    Slices(before, p, n, m);
    Slices(after, q, n, m);
    Tails(before, q + n, end);
    Tails(after, q + n, end);
  }

  lemma Slices(s: seq<Byte>, p: nat, n: nat, m: nat)
    requires p + n <= |s| && m <= n
    ensures s[p..p + m] == s[p..p + n][..m]
  {
  }

  lemma Tails(s: seq<Byte>, lo: nat, hi: nat)
    requires lo <= hi <= |s|
    ensures s[hi..] == s[lo..][hi - lo..]
  {
  }
}
