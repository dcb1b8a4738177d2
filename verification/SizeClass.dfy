/**
  The size classes of small and medium blocks (rpmalloc.c): their table is filled from the small end, and a
  medium class whose span would hold as many blocks as the classes before it takes those over.
*/
module SizeClass {
  import opened Division

  const SMALL_GRANULARITY: nat := 16
  const SMALL_CLASSES: nat := 65
  const SMALL_LIMIT: nat := 1024
  const MEDIUM_GRANULARITY: nat := 512
  const CLASSES: nat := 126
  const MEDIUM_MAX: nat := 32256
  const HEADER: nat := 128

  datatype Class = Class(block_size: nat, block_count: nat, class_idx: nat)

  /** Span sizes whose block counts fit 16 bits; the default is 0x10000. */
  predicate SpanSize(s: nat) { 4096 <= s <= 0x100000 }

  /** The block size a class is set up with. */
  function SizeOf(i: nat): (size: nat)
    ensures size >= 16
  {
    if i == 0 then 16 else if i < SMALL_CLASSES then 16 * i else SMALL_LIMIT + (i - 64) * MEDIUM_GRANULARITY
  }

  lemma SizeMultiple(i: nat)
    ensures SizeOf(i) % 16 == 0 && (i >= SMALL_CLASSES ==> SizeOf(i) % 128 == 0)
  {
    if i == 0 {
      RemTimes(1, 16);
    } else if i < SMALL_CLASSES {
      RemTimes(i, 16);
    } else {
      RemTimes(64 + (i - 64) * 32, 16);
      RemTimes(8 + (i - 64) * 4, 128);
    }
  }

  /** How many blocks of it a span holds. */
  function CountOf(s: nat, i: nat): nat
    requires SpanSize(s)
  {
    QuotientFits(s - HEADER, SizeOf(i));
    (s - HEADER) / SizeOf(i)
  }

  /** A larger class has no more blocks. */
  lemma CountFalls(s: nat, i: nat, j: nat)
    requires SpanSize(s) && i <= j
    ensures CountOf(s, j) <= CountOf(s, i)
  {
    QuotientFalls(s - HEADER, s - HEADER, SizeOf(i), SizeOf(j));
  }

  /** The classes in use: the largest of them still leaves two blocks to a span. */
  predicate InUse(s: nat, i: nat)
    requires SpanSize(s)
  {
    i < CLASSES && (i >= SMALL_CLASSES ==> 2 * SizeOf(i) <= s - HEADER)
  }

  /** So no medium class ever has as many blocks as a small one. */
  lemma SmallApart(s: nat, i: nat, j: nat)
    requires SpanSize(s) && i < SMALL_CLASSES <= j && InUse(s, j)
    ensures CountOf(s, j) < CountOf(s, i)
  {
    CountFalls(s, i, 64);
    CountFalls(s, 65, j);
    var n := s - HEADER;
    assert SizeOf(64) == 1024 && SizeOf(65) == 1536;
    assert n / 1536 < n / 1024 by {
      QuotientExact(n, 1536);
      QuotientExact(n, 1024);
    }
  }

  /** The class that class i ends up as, when the classes up to `top` are set up. */
  function Rep(s: nat, i: nat, top: nat): (r: nat)
    requires SpanSize(s) && i <= top
    ensures i <= r <= top && CountOf(s, r) == CountOf(s, i) && (i < SMALL_CLASSES ==> r == i)
    decreases top
  {
    if i == top || (i >= SMALL_CLASSES && CountOf(s, top) == CountOf(s, i)) then top else Rep(s, i, top - 1)
  }

  function Entry(s: nat, i: nat): Class
    requires SpanSize(s)
  {
    Class(SizeOf(i), CountOf(s, i), i)
  }

  ghost predicate SetUp(s: nat, table: seq<Class>, n: nat)
    requires SpanSize(s)
  {
    n <= |table| && forall i :: 0 <= i < n ==> table[i] == Entry(s, Rep(s, i, n - 1))
  }

  /** A medium class ends up as the last one with its block count. */
  lemma {:induction false} RepIs(s: nat, i: nat, top: nat)
    requires SpanSize(s) && SMALL_CLASSES <= i <= top
    ensures forall j :: Rep(s, i, top) < j <= top ==> CountOf(s, j) < CountOf(s, i)
    decreases top
  {
    if i < top {
      RepIs(s, i, top - 1);
      CountFalls(s, i, top);
    }
  }

  // ----- the set-up

  /** All classes are in use, or two blocks of the next size do not fit a span, or it is over the medium maximum. */
  predicate NoMore(s: nat, used: nat)
    requires s >= HEADER
  {
    used >= CLASSES ||
    SMALL_LIMIT + (used - SMALL_CLASSES + 1) * MEDIUM_GRANULARITY > AtMost((s - HEADER) / 2, MEDIUM_MAX)
  }

  function AtMost(n: nat, most: nat): nat { if n <= most then n else most }

  /** What the set-up computes: the table, how many classes are in use, and the medium limit. */
  class Classes {
    const s: nat
    const table: array<Class>
    var used: nat
    var medium_limit: nat

    constructor (s: nat)
      requires SpanSize(s)
      ensures this.s == s && fresh(table) && table.Length == CLASSES && used == 0
    {
      this.s := s;
      table := new Class[CLASSES](_ => Class(0, 0, 0));
      used, medium_limit := 0, 0;
    }

    /** _rpmalloc_adjust_size_class, the block size stored already. */
    method Adjust(iclass: nat)
      requires SpanSize(s) && table.Length == CLASSES && InUse(s, iclass)
      requires SetUp(s, table[..], iclass) && table[iclass].block_size == SizeOf(iclass)
      modifies table
      ensures SetUp(s, table[..], iclass + 1)
    {
      var size := table[iclass].block_size;
      var count := (s - HEADER) / size;
      table[iclass] := Class(size, count, iclass);
      ghost var was, entry := table[..], Entry(s, iclass);
      var prev, merging := iclass, iclass >= SMALL_CLASSES;
      while prev > 0 && merging
        invariant prev <= iclass && table.Length == CLASSES
        invariant forall k :: 0 <= k < CLASSES ==> table[k] == if prev <= k <= iclass then entry else was[k]
        invariant if iclass < SMALL_CLASSES then prev == iclass && !merging else prev >= SMALL_CLASSES
        invariant forall k :: prev <= k <= iclass ==> CountOf(s, k) == CountOf(s, iclass)
        invariant !merging ==> iclass < SMALL_CLASSES || (prev > 0 && CountOf(s, prev - 1) != CountOf(s, iclass))
        decreases prev, merging
      {
        if prev - 1 < SMALL_CLASSES { SmallApart(s, prev - 1, iclass); }
        assert table[prev - 1] == Entry(s, Rep(s, prev - 1, iclass - 1));
        if table[prev - 1].block_count == table[iclass].block_count {
          prev := prev - 1;
          table[prev] := table[iclass];
        } else {
          merging := false;
        }
      }
      forall i | 0 <= i <= iclass ensures table[i] == Entry(s, Rep(s, i, iclass)) {
        MergedIs(s, i, iclass, prev);
      }
    }

    /** One class more: its block size is stored, then adjusted. */
    method SetClass(i: nat, size: nat)
      requires SpanSize(s) && table.Length == CLASSES && InUse(s, i) && SetUp(s, table[..], i) && size == SizeOf(i)
      modifies table
      ensures SetUp(s, table[..], i + 1)
    {
      SetUpFrame(s, table[..], i, table[i].(block_size := size));
      ghost var was := table[..];
      table[i] := table[i].(block_size := size);
      assert table[..] == was[i := table[i]];
      Adjust(i);
    }

    /** The medium classes, up to the first too large for two blocks to a span. */
    method SetMedium()
      requires SpanSize(s) && table.Length == CLASSES && SetUp(s, table[..], SMALL_CLASSES)
      modifies this, table
      ensures SMALL_CLASSES <= used <= CLASSES && SetUp(s, table[..], used)
      ensures medium_limit == MediumLimit(used) && NoMore(s, used)
      ensures forall i :: 0 <= i < used ==> InUse(s, i)
    {
      medium_limit := (s - HEADER) / 2;
      if medium_limit > MEDIUM_MAX { medium_limit := MEDIUM_MAX; }
      used := SMALL_CLASSES;
      var full := false;
      while used < CLASSES && !full
        invariant SMALL_CLASSES <= used <= CLASSES && SetUp(s, table[..], used)
        invariant forall i :: 0 <= i < used ==> InUse(s, i)
        invariant full ==> NoMore(s, used)
        invariant if full || used == CLASSES then medium_limit == MediumLimit(used)
                  else medium_limit == if (s - HEADER) / 2 > MEDIUM_MAX then MEDIUM_MAX else (s - HEADER) / 2
        decreases CLASSES - used, !full
      {
        var size := SMALL_LIMIT + (used - SMALL_CLASSES + 1) * MEDIUM_GRANULARITY;
        if size > medium_limit {
          medium_limit := SMALL_LIMIT + (used - SMALL_CLASSES) * MEDIUM_GRANULARITY;
          full := true;
        } else {
          SetClass(used, size);
          used := used + 1;
        }
      }
    }

    /** The part of rpmalloc_initialize_config that sets up the classes. */
    method Initialise()
      requires SpanSize(s) && table.Length == CLASSES
      modifies this, table
      ensures Ready(s, table[..], used) && medium_limit == MediumLimit(used) && NoMore(s, used)
    {
      SetClass(0, SMALL_GRANULARITY);
      for i := 1 to SMALL_CLASSES
        invariant SetUp(s, table[..], i)
      {
        SetClass(i, i * SMALL_GRANULARITY);
      }
      SetMedium();
    }
  }

  lemma SetUpFrame(s: nat, table: seq<Class>, n: nat, c: Class)
    requires SpanSize(s) && n < |table| && SetUp(s, table, n)
    ensures SetUp(s, table[n := c], n)
  {
  }

  /** Where the merging loop stopped, the classes from `prev` on are those with the new class's count. */
  lemma MergedIs(s: nat, i: nat, iclass: nat, prev: nat)
    requires SpanSize(s) && i <= iclass && prev <= iclass && InUse(s, iclass)
    requires forall k :: prev <= k <= iclass ==> CountOf(s, k) == CountOf(s, iclass)
    requires iclass < SMALL_CLASSES ==> prev == iclass
    requires iclass >= SMALL_CLASSES ==> prev > 0 && CountOf(s, prev - 1) != CountOf(s, iclass)
    ensures prev <= i ==> Rep(s, i, iclass) == iclass
    ensures i < prev ==> i < iclass && Rep(s, i, iclass) == Rep(s, i, iclass - 1)
  {
    if iclass >= SMALL_CLASSES {
      if prev < SMALL_CLASSES { SmallApart(s, prev, iclass); }
      if i < prev { CountFalls(s, i, prev - 1); CountFalls(s, prev - 1, iclass); }
    }
  }

  // ----- what an allocation gets

  /** The class _rpmalloc_allocate_small and _medium choose. */
  function Chosen(table: seq<Class>, size: nat): (i: nat)
    requires |table| == CLASSES && size <= MEDIUM_MAX
  {
    if size <= SMALL_LIMIT then (size + 15) / 16
    else table[SMALL_CLASSES + (size - (SMALL_LIMIT + 1)) / MEDIUM_GRANULARITY].class_idx
  }

  ghost predicate Ready(s: nat, table: seq<Class>, used: nat) {
    && SpanSize(s) && |table| == CLASSES && SMALL_CLASSES <= used <= CLASSES && SetUp(s, table, used)
    && forall i :: 0 <= i < used ==> InUse(s, i)
  }

  function MediumLimit(used: nat): nat
    requires used >= SMALL_CLASSES
  {
    SMALL_LIMIT + (used - SMALL_CLASSES) * MEDIUM_GRANULARITY
  }

  /** The merged table is a fixpoint, and its classes fit the span behind the header, two blocks at least. */
  lemma ClassesFit(s: nat, table: seq<Class>, used: nat, i: nat)
    requires Ready(s, table, used) && i < used
    ensures var c := table[i];
            && c.class_idx < used && table[c.class_idx] == c && table[c.class_idx].class_idx == c.class_idx
            && c.block_size >= SizeOf(i) && c.block_size % 16 == 0
            && c.block_count * c.block_size + HEADER <= s < (c.block_count + 1) * c.block_size + HEADER
            && c.block_count >= 2
  {
    var r := Rep(s, i, used - 1);
    RepFix(s, i, used - 1);
    assert table[i] == Entry(s, r) && table[r] == Entry(s, Rep(s, r, used - 1));
    assert SizeOf(i) <= SizeOf(r);
    SizeMultiple(r);
    QuotientExact(s - HEADER, SizeOf(r));
    TwoBlocks(s, r);
  }

  lemma TwoBlocks(s: nat, i: nat)
    requires SpanSize(s) && InUse(s, i)
    ensures CountOf(s, i) >= 2
  {
    QuotientExact(s - HEADER, SizeOf(i));
    if CountOf(s, i) < 2 { Times(SizeOf(i), CountOf(s, i) + 1, 2); }
  }

  lemma {:induction false} RepFix(s: nat, i: nat, top: nat)
    requires SpanSize(s) && i <= top
    ensures Rep(s, Rep(s, i, top), top) == Rep(s, i, top)
    decreases top
  {
    if i < top && !(i >= SMALL_CLASSES && CountOf(s, top) == CountOf(s, i)) { RepFix(s, i, top - 1); }
  }

  /** Every request up to the medium limit gets a class in use, in its final form, whose blocks hold it. */
  lemma ChosenFits(s: nat, table: seq<Class>, used: nat, size: nat)
    requires Ready(s, table, used) && size <= MediumLimit(used)
    ensures size <= MEDIUM_MAX && Chosen(table, size) < used
    ensures var c := table[Chosen(table, size)];
            c.class_idx == Chosen(table, size) && c.block_size >= size && c.block_size == SizeOf(Chosen(table, size))
  {
    if size <= SMALL_LIMIT {
      assert Rep(s, (size + 15) / 16, used - 1) == (size + 15) / 16;
    } else {
      var base := SMALL_CLASSES + (size - (SMALL_LIMIT + 1)) / MEDIUM_GRANULARITY;
      ClassesFit(s, table, used, base);
    }
  }
}
