/**
  The two pointer structures the block protocol abstracts to sequences (rpmalloc.c): the doubly linked
  list of partial spans, whose head carries a stale `prev`, and the free list threaded through the
  blocks of a span.
 */
module SpanMemory {
  import P = SpanProtocol

  class SpanNode {
    var next: SpanNode?
    var prev: SpanNode?

    constructor ()
      ensures next == null && prev == null
    {
      next, prev := null, null;
    }
  }

  ghost predicate WellLinked(nodes: seq<SpanNode>)
    reads nodes
  {
    && (forall i, j :: 0 <= i < j < |nodes| ==> nodes[i] != nodes[j])
    && (nodes != [] ==> nodes[|nodes| - 1].next == null)
    && (forall i {:trigger nodes[i].next} :: 0 <= i < |nodes| - 1 ==> nodes[i].next == nodes[i + 1])
    && (forall i {:trigger nodes[i].prev} :: 1 <= i < |nodes| ==> nodes[i].prev == nodes[i - 1])
  }

  /** Around the bypassed node the links are right again. */
  ghost predicate Bypassed(was: seq<SpanNode>, k: nat)
    reads was
  {
    && k < |was|
    && (forall i, j :: 0 <= i < j < |was| ==> was[i] != was[j])
    && (forall i {:trigger was[i].next} :: 0 <= i < |was| - 1 && i != k - 1 ==> was[i].next == was[i + 1])
    && (forall i {:trigger was[i].prev} :: 1 <= i < |was| && i != k + 1 ==> was[i].prev == was[i - 1])
    && (k >= 1 ==> was[k - 1].next == if k + 1 < |was| then was[k + 1] else null)
    && (k + 1 < |was| ==> was[|was| - 1].next == null && (k >= 1 ==> was[k + 1].prev == was[k - 1]))
  }

  lemma RelinkedRest(was: seq<SpanNode>, k: nat)
    requires Bypassed(was, k)
    ensures WellLinked(was[..k] + was[k + 1..])
  {
    var r := was[..k] + was[k + 1..];
    DropAt(was, k);
    forall i {:trigger r[i].next} | 0 <= i < |r| - 1 ensures r[i].next == r[i + 1] {
      if i < k - 1 {
        assert r[i] == was[i] && r[i + 1] == was[i + 1];
      } else if i >= k {
        assert r[i] == was[i + 1] && r[i + 1] == was[i + 2];
      }
    }
    forall i {:trigger r[i].prev} | 1 <= i < |r| ensures r[i].prev == r[i - 1] {
      if i < k {
        assert r[i] == was[i] && r[i - 1] == was[i - 1];
      } else if i > k {
        assert r[i] == was[i + 1] && r[i - 1] == was[i];
      }
    }
  }

  lemma Relinked(was: seq<SpanNode>, k: nat)
    requires Bypassed(was, k)
    ensures var r := P.Remove(was, was[k]);
            WellLinked(r) && |r| == |was| - 1 && (r != [] ==> r[0] == was[if k == 0 then 1 else 0])
  {
    RelinkedRest(was, k);
    RemoveAt(was, k);
  }

  class SpanList {
    var head: SpanNode?
    ghost var nodes: seq<SpanNode>

    /** Nothing is said of the head's prev: popping leaves it pointing at a span that has left the list. */
    ghost predicate Valid()
      reads this, nodes
    {
      && (if nodes == [] then head == null else head == nodes[0])
      && WellLinked(nodes)
    }

    constructor ()
      ensures Valid() && nodes == []
    {
      head, nodes := null, [];
    }

    /** _rpmalloc_span_double_link_list_add */
    method Add(span: SpanNode)
      requires Valid() && span !in nodes
      modifies this, span, nodes
      ensures Valid() && nodes == [span] + old(nodes)
      ensures span.prev == old(span.prev)
    {
      if head != null {
        head.prev := span;
      }
      span.next := head;
      head := span;
      nodes := [span] + nodes;
    }

    /** _rpmalloc_span_double_link_list_pop_head */
    method PopHead(span: SpanNode)
      requires Valid() && head == span
      modifies this
      ensures Valid() && nodes == old(nodes)[1..]
    {
      head := span.next;
      nodes := nodes[1..];
    }

    /** _rpmalloc_span_double_link_list_remove: prev is only followed where it is right. */
    method Unlink(span: SpanNode)
      requires Valid() && span in nodes
      modifies this, nodes
      ensures Valid() && nodes == P.Remove(old(nodes), span)
    {
      ghost var was := nodes;
      ghost var k := Position(span);
      if head == span {
        head := span.next;
      } else {
        Bypass(span.prev, span.next, k);
      }
      Relinked(was, k);
      nodes := P.Remove(was, span);
    }

    lemma Position(span: SpanNode) returns (k: nat)
      requires Valid() && span in nodes
      ensures k < |nodes| && nodes[k] == span && (head == span <==> k == 0)
      ensures span.next == if k + 1 < |nodes| then nodes[k + 1] else null
      ensures k >= 1 ==> span.prev == nodes[k - 1]
    {
      k :| 0 <= k < |nodes| && nodes[k] == span;
    }

    method Bypass(prevSpan: SpanNode, nextSpan: SpanNode?, ghost k: nat)
      requires Valid() && 1 <= k < |nodes|
      requires prevSpan == nodes[k - 1] && nextSpan == if k + 1 < |nodes| then nodes[k + 1] else null
      modifies prevSpan`next, (if nextSpan == null then {} else {nextSpan})`prev
      ensures forall i {:trigger nodes[i].next} :: 0 <= i < |nodes| && i != k - 1 ==>
              nodes[i].next == old(nodes[i].next)
      ensures forall i {:trigger nodes[i].prev} :: 0 <= i < |nodes| && i != k + 1 ==>
              nodes[i].prev == old(nodes[i].prev)
      ensures prevSpan.next == nextSpan && (nextSpan != null ==> nextSpan.prev == prevSpan)
    {
      prevSpan.next := nextSpan;
      if nextSpan != null {
        nextSpan.prev := prevSpan;
      }
    }
  }

  lemma DropAt<T>(s: seq<T>, k: nat)
    requires k < |s|
    requires forall i, j :: 0 <= i < j < |s| ==> s[i] != s[j]
    ensures var r := s[..k] + s[k + 1..];
            (forall i :: 0 <= i < |r| ==> r[i] == s[if i < k then i else i + 1]) &&
            forall i, j :: 0 <= i < j < |r| ==> r[i] != r[j]
  {
  }

  lemma {:induction false} RemoveAt<T>(s: seq<T>, k: nat)
    requires k < |s|
    requires forall i, j :: 0 <= i < j < |s| ==> s[i] != s[j]
    ensures P.Remove(s, s[k]) == s[..k] + s[k + 1..]
  {
    if k > 0 {
      RemoveAt(s[1..], k - 1);
      assert [s[0]] + s[1..][..k - 1] == s[..k];
    }
  }

  // ----- the free list of a span

  /** The words stored at the start of the blocks, by address; 0 is the null pointer. */
  class Memory {
    var words: map<int, int>

    constructor ()
    {
      words := map[];
    }
  }

  /** The list at `list` visits exactly the addresses in `blocks`, in this order. */
  ghost predicate ListOf(words: map<int, int>, list: int, blocks: seq<int>)
    decreases |blocks|
  {
    if blocks == [] then list == 0
    else list == blocks[0] && list != 0 && list in words && ListOf(words, words[list], blocks[1..])
  }

  /** The address of block i of the blocks of `size` bytes laid out at `start`. */
  function At(start: int, size: int, i: nat): int {
    if i == 0 then start else At(start, size, i - 1) + size
  }

  lemma {:induction false} AtOffset(start: int, size: int, i: nat)
    ensures At(start, size, i) == start + i * size
  {
    if i > 0 { AtOffset(start, size, i - 1); }
  }

  lemma {:induction false} AtGrows(start: int, size: int, i: nat, j: nat)
    requires i <= j && size >= 1
    ensures At(start, size, i) + (j - i) <= At(start, size, j)
    decreases j
  {
    if i < j {
      AtGrows(start, size, i, j - 1);
    }
  }

  function Addresses(start: int, size: int, from: nat, to: nat): (r: seq<int>)
    requires from <= to
    ensures |r| == to - from
    ensures forall i :: 0 <= i < |r| ==> r[i] == At(start, size, from + i)
  {
    seq(to - from, i requires 0 <= i < to - from => At(start, size, from + i))
  }

  /** Where the layout stops: the blocks' end, or the page's when several blocks fit a page. */
  function LayoutEnd(pageStart: int, start: int, count: nat, size: nat, page: nat): int {
    if size < page / 2 && pageStart + page < At(start, size, count) then pageStart + page else At(start, size, count)
  }

  lemma {:induction false} ListFrame(words: map<int, int>, words': map<int, int>, list: int, blocks: seq<int>)
    requires ListOf(words, list, blocks)
    requires forall a :: a in blocks && a in words ==> a in words' && words'[a] == words[a]
    ensures ListOf(words', list, blocks)
    decreases |blocks|
  {
    if blocks != [] { ListFrame(words, words', words[list], blocks[1..]); }
  }

  lemma {:induction false} ListExtend(words: map<int, int>, list: int, blocks: seq<int>, last: int)
    requires blocks != [] && blocks[|blocks| - 1] == last && last != 0
    requires forall i, j :: 0 <= i < j < |blocks| ==> blocks[i] != blocks[j]
    requires list == blocks[0] && forall i :: 0 <= i < |blocks| ==> blocks[i] != 0
    requires forall i :: 0 <= i < |blocks| - 1 ==> blocks[i] in words && words[blocks[i]] == blocks[i + 1]
    ensures ListOf(words[last := 0], list, blocks)
    decreases |blocks|
  {
    if |blocks| > 1 {
      ListExtend(words, words[list], blocks[1..], last);
    }
  }

  /** All but the last of the blocks link to the next one. */
  ghost predicate Threaded(words: map<int, int>, blocks: seq<int>) {
    && blocks != [] && blocks[0] > 0
    && (forall i, j :: 0 <= i < j < |blocks| ==> blocks[i] < blocks[j])
    && (forall i :: 0 <= i < |blocks| - 1 ==> blocks[i] in words && words[blocks[i]] == blocks[i + 1])
  }

  /** Only the blocks were written. */
  ghost predicate OnlyBlocks(before: map<int, int>, words: map<int, int>, blocks: seq<int>) {
    forall a :: a in before && a !in blocks ==> a in words && words[a] == before[a]
  }

  lemma ThreadOn(before: map<int, int>, words: map<int, int>, blocks: seq<int>, next: int)
    requires Threaded(words, blocks) && OnlyBlocks(before, words, blocks) && blocks[|blocks| - 1] < next
    ensures Threaded(words[blocks[|blocks| - 1] := next], blocks + [next])
    ensures OnlyBlocks(before, words[blocks[|blocks| - 1] := next], blocks + [next])
  {
    var last, longer := blocks[|blocks| - 1], blocks + [next];
    assert forall i :: 0 <= i < |blocks| ==> longer[i] == blocks[i];
    assert longer[|blocks| - 1] == last;
  }

  lemma ThreadEnd(before: map<int, int>, words: map<int, int>, blocks: seq<int>)
    requires Threaded(words, blocks) && OnlyBlocks(before, words, blocks)
    ensures ListOf(words[blocks[|blocks| - 1] := 0], blocks[0], blocks)
    ensures OnlyBlocks(before, words[blocks[|blocks| - 1] := 0], blocks)
  {
    ListExtend(words, blocks[0], blocks, blocks[|blocks| - 1]);
  }

  /** The loop of free_list_partial_init: from the first free block on, each links to the next, up to the end. */
  method ThreadUp(mem: Memory, blockStart: int, blockSize: nat, blockCount: nat, blockEnd: int)
    returns (freeBlock: int, count: nat, ghost blocks: seq<int>)
    requires blockCount >= 2 && blockSize >= 1 && blockStart > 0 && blockEnd <= At(blockStart, blockSize, blockCount)
    modifies mem
    ensures 2 <= count <= blockCount && blocks == Addresses(blockStart, blockSize, 1, count)
    ensures freeBlock == blocks[|blocks| - 1] && At(blockStart, blockSize, count) >= blockEnd
    ensures forall i :: 2 <= i < count ==> At(blockStart, blockSize, i) < blockEnd
    ensures Threaded(mem.words, blocks) && OnlyBlocks(old(mem.words), mem.words, blocks)
  {
    freeBlock := blockStart + blockSize;
    count := 2;
    var nextBlock := freeBlock + blockSize;
    blocks := Addresses(blockStart, blockSize, 1, count);
    assert blocks[0] == At(blockStart, blockSize, 1) == freeBlock;
    while nextBlock < blockEnd
      invariant 2 <= count <= blockCount && blocks == Addresses(blockStart, blockSize, 1, count)
      invariant freeBlock == At(blockStart, blockSize, count - 1) && nextBlock == At(blockStart, blockSize, count)
      invariant forall i :: 2 <= i < count ==> At(blockStart, blockSize, i) < blockEnd
      invariant blocks[|blocks| - 1] == freeBlock
      invariant Threaded(mem.words, blocks) && OnlyBlocks(old(mem.words), mem.words, blocks)
      decreases blockCount - count
    {
      ThreadOn(old(mem.words), mem.words, blocks, nextBlock);
      mem.words := mem.words[freeBlock := nextBlock];
      blocks := blocks + [nextBlock];
      freeBlock := nextBlock;
      count := count + 1;
      nextBlock := nextBlock + blockSize;
    }
  }

  /** free_list_partial_init */
  method FreeListPartialInit(mem: Memory, pageStart: int, blockStart: int, blockCount: nat, blockSize: nat,
                             pageSize: nat)
    returns (list: int, firstBlock: int, count: nat)
    requires blockCount >= 1 && blockSize >= 1 && blockStart > 0
    modifies mem
    ensures firstBlock == blockStart
    ensures 1 <= count <= blockCount && (blockCount > 1 ==> count >= 2)
    ensures forall i :: 2 <= i < blockCount ==>
              (i < count <==>
                 At(blockStart, blockSize, i) < LayoutEnd(pageStart, blockStart, blockCount, blockSize, pageSize))
    ensures ListOf(mem.words, list, Addresses(blockStart, blockSize, 1, count))
    ensures OnlyBlocks(old(mem.words), mem.words, Addresses(blockStart, blockSize, 1, count))
  {
    firstBlock := blockStart;
    if blockCount > 1 {
      var blockEnd := At(blockStart, blockSize, blockCount);
      if blockSize < pageSize / 2 {
        var pageEnd := pageStart + pageSize;
        if pageEnd < blockEnd {
          blockEnd := pageEnd;
        }
      }
      assert blockEnd == LayoutEnd(pageStart, blockStart, blockCount, blockSize, pageSize);
      var freeBlock;
      ghost var blocks;
      freeBlock, count, blocks := ThreadUp(mem, blockStart, blockSize, blockCount, blockEnd);
      list := blockStart + blockSize;
      assert blocks[0] == At(blockStart, blockSize, 1) == list;
      ThreadEnd(old(mem.words), mem.words, blocks);
      forall i | count <= i < blockCount ensures At(blockStart, blockSize, i) >= blockEnd {
        AtGrows(blockStart, blockSize, count, i);
      }
      mem.words := mem.words[freeBlock := 0];
    } else {
      list := 0;
      count := 1;
    }
  }

  /** free_list_pop */
  method FreeListPop(mem: Memory, list: int, ghost blocks: seq<int>) returns (block: int, rest: int)
    requires blocks != [] && ListOf(mem.words, list, blocks)
    ensures block == blocks[0] && ListOf(mem.words, rest, blocks[1..])
  {
    block := list;
    rest := mem.words[block];
  }
}
