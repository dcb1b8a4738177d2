/**
  The caches of a heap (rpmalloc.c): one span per size class, a stack per span count, the global caches behind
  them, and the list of spans other threads freed.  Refilling a stack from a global cache writes it from
  slot 0 and sets its count: what it held would be lost, so it has to be empty at every refill.
*/
module HeapCaches {
  import opened Options
  import opened GlobalCache
  import SuperSpan

  const LARGE: nat := SuperSpan.LARGE_CLASSES

  /** What the stack of spans of n units is cut at, and by how much. */
  function ThreadLimit(n: nat): (limit: nat)
    requires 1 <= n <= LARGE
    ensures TransferCount(n) < limit <= THREAD_MAX && (n == 1 ==> limit == THREAD_MAX)
    ensures n > 1 ==> limit <= LARGE_MAX && 2 * (LARGE_MAX - limit) <= n <= 2 * (LARGE_MAX - limit) + 1
  {
    if n == 1 then THREAD_MAX else LARGE_MAX - n / 2
  }

  function TransferCount(n: nat): (t: nat)
    requires 1 <= n <= LARGE
    ensures t == if n == 1 then 64 else 6
  {
    if n == 1 then 64 else AtMost(6, 2 + (LARGE_MAX - n / 2) / 4)
  }

  /** What is left of a stack of `len` spans of n units once its limit has been looked at. */
  function Kept(len: nat, n: nat): nat
    requires 1 <= n <= LARGE
  {
    if len == ThreadLimit(n) then len - TransferCount(n) else len
  }

  /** A refill asks for as many as a full stack passes on. */
  function Wanted(n: nat): (w: nat)
    ensures 1 <= n <= LARGE ==> w == TransferCount(n)
  {
    if n == 1 then 64 else 6
  }

  /** A span another thread freed, with the units its header says; or a huge one, which no cache takes. */
  datatype Deferred = Deferred(span: Span, units: nat) | Huge(base: nat)

  // ----- counting

  function InStacks(stacks: seq<seq<Span>>, x: Span): nat {
    if stacks == [] then 0 else InStacks(stacks[..|stacks| - 1], x) + multiset(stacks[|stacks| - 1])[x]
  }

  function InShared(shared: seq<Cache>, x: Span): nat {
    if shared == [] then 0 else InShared(shared[..|shared| - 1], x) + Held(shared[|shared| - 1])[x]
  }

  function InClasses(classes: seq<Option<Span>>, x: Span): nat {
    if classes == [] then 0 else InClasses(classes[..|classes| - 1], x) + InClass(classes[|classes| - 1], x)
  }

  function InClass(c: Option<Span>, x: Span): nat { One(c == Some(x)) }

  function InDeferred(list: seq<Deferred>, x: Span): nat {
    if list == [] then 0 else InClass(SpanOf(list[0]), x) + InDeferred(list[1..], x)
  }

  function SpanOf(d: Deferred): Option<Span> { if d.Deferred? then Some(d.span) else None }

  lemma {:induction false} StackUpdate(stacks: seq<seq<Span>>, i: nat, s: seq<Span>, x: Span)
    requires i < |stacks|
    ensures InStacks(stacks[i := s], x) + multiset(stacks[i])[x] == InStacks(stacks, x) + multiset(s)[x]
    decreases |stacks|
  {
    var n := |stacks| - 1;
    if i < n {
      assert stacks[i := s][..n] == stacks[..n][i := s];
      StackUpdate(stacks[..n], i, s, x);
    } else {
      assert stacks[i := s][..n] == stacks[..n];
    }
  }

  lemma {:induction false} SharedUpdate(shared: seq<Cache>, i: nat, c: Cache, x: Span)
    requires i < |shared|
    ensures InShared(shared[i := c], x) + Held(shared[i])[x] == InShared(shared, x) + Held(c)[x]
    decreases |shared|
  {
    var n := |shared| - 1;
    if i < n {
      assert shared[i := c][..n] == shared[..n][i := c];
      SharedUpdate(shared[..n], i, c, x);
    } else {
      assert shared[i := c][..n] == shared[..n];
    }
  }

  lemma {:induction false} ClassUpdate(classes: seq<Option<Span>>, i: nat, c: Option<Span>, x: Span)
    requires i < |classes|
    ensures InClasses(classes[i := c], x) + InClass(classes[i], x) == InClasses(classes, x) + InClass(c, x)
    decreases |classes|
  {
    var n := |classes| - 1;
    if i < n {
      assert classes[i := c][..n] == classes[..n][i := c];
      ClassUpdate(classes[..n], i, c, x);
    } else {
      assert classes[i := c][..n] == classes[..n];
    }
  }

  // ----- an insert into a global cache, and a refill from it, as one step each

  /** The looks at the headers: one for each span that is left over, then those of the second section. */
  function Inserted(c: Cache, spans: seq<Span>, cap: Cap, out: seq<bool>, later: seq<bool>): (Cache, seq<Span>)
    requires |c.slots| <= cap.limit && |out| == |Over(c, spans, cap)|
  {
    var (keep, gone) := Sifted(Over(c, spans, cap), out, []);
    var (d, traded) := Settled(Stored(c, spans, cap), keep, later);
    (d, gone + traded)
  }

  /** The insert as one step is the steps of a thread that nobody disturbs. */
  lemma InsertedIs(w: World, cap: Cap, t: nat, n: nat, out: seq<bool>, later: seq<bool>)
    requires |w.cache.slots| <= cap.limit && t < |w.hands| && w.hands[t].Idle? && n <= |w.hands[t].owned|
    requires |out| == |Over(w.cache, w.hands[t].owned[..n], cap)|
    ensures var (d, gone) := Inserted(w.cache, w.hands[t].owned[..n], cap, out, later);
            After(w, cap, [Store(t, n), Sift(t, out), Settle(t, later)]) ==
            World(d, w.hands[t := Idle(w.hands[t].owned[n..])], w.unmapped + gone)
  {
    var owned := w.hands[t].owned;
    var stored := AfterOn(w, cap, [], Store(t, n));
    var sifted := AfterOn(w, cap, [Store(t, n)], Sift(t, out));
    var settled := AfterOn(w, cap, [Store(t, n), Sift(t, out)], Settle(t, later));
    assert w.unmapped + Sifted(Over(w.cache, owned[..n], cap), out, []).1 == sifted.unmapped;
    assert [Store(t, n)] + [Sift(t, out)] == [Store(t, n), Sift(t, out)];
    assert [Store(t, n), Sift(t, out)] + [Settle(t, later)] == [Store(t, n), Sift(t, out), Settle(t, later)];
    assert settled.hands == w.hands[t := Idle(owned[n..])];
  }

  lemma AfterOn(w: World, cap: Cap, steps: seq<Step>, s: Step) returns (v: World)
    requires |w.cache.slots| <= cap.limit && Possible(After(w, cap, steps), s)
    ensures v == After(w, cap, steps + [s]) == Next(After(w, cap, steps), cap, s)
  {
    assert (steps + [s])[..|steps + [s]| - 1] == steps;
    v := Next(After(w, cap, steps), cap, s);
  }

  /** And so is the extract. */
  lemma ExtractedIs(w: World, cap: Cap, t: nat, n: nat)
    requires |w.cache.slots| <= cap.limit && t < |w.hands| && w.hands[t].Idle?
    ensures var (d, got) := Extracted(w.cache, n);
            After(w, cap, [Step.Extract(t, n)]) == World(d, w.hands[t := Idle(w.hands[t].owned + got)], w.unmapped)
  {
    var _ := AfterOn(w, cap, [], Step.Extract(t, n));
  }

  lemma InsertedKeeps(c: Cache, spans: seq<Span>, cap: Cap, out: seq<bool>, later: seq<bool>, x: Span)
    requires |c.slots| <= cap.limit && |out| == |Over(c, spans, cap)|
    ensures var (d, gone) := Inserted(c, spans, cap, out, later);
            |d.slots| <= cap.limit && Held(d)[x] + multiset(gone)[x] == Held(c)[x] + multiset(spans)[x]
  {
    var c1, rest := Stored(c, spans, cap), Over(c, spans, cap);
    var (keep, gone) := Sifted(rest, out, []);
    StoredKeeps(c, spans, cap);
    SiftedKeeps(rest, out, []);
    SettledKeeps(c1, keep, later);
    var (d, traded) := Settled(c1, keep, later);
    assert (multiset(keep) + multiset(gone))[x] == multiset(rest)[x];
    assert (Held(d) + multiset(traded))[x] == (Held(c1) + multiset(keep))[x];
    var r: multiset<Span> := multiset(rest);
    assert (Held(c1) + r)[x] == (Held(c) + multiset(spans))[x];
  }

  /**
    A refill takes the spans from the global cache and overwrites the stack with them: it loses exactly what the
    stack held.
  */
  lemma RefillExactly(stack: seq<Span>, c: Cache, n: nat)
    ensures var (d, got) := Extracted(c, n);
            multiset(got) + Held(d) == multiset(stack) + Held(c) <==> stack == []
  {
    ExtractedKeeps(c, n);
    var (d, got) := Extracted(c, n);
    if stack != [] {
      assert (multiset(stack) + Held(c))[stack[0]] > Held(c)[stack[0]];
    }
  }

  /** The huge spans on a deferred list. */
  function HugeSpans(list: seq<Deferred>): seq<nat> {
    if list == [] then [] else (if list[0].Huge? then [list[0].base] else []) + HugeSpans(list[1..])
  }

  lemma NextHuge(gone: seq<nat>, list: seq<Deferred>)
    requires list != []
    ensures gone + HugeSpans(list) == (if list[0].Huge? then gone + [list[0].base] else gone) + HugeSpans(list[1..])
  {
  }

  lemma {:induction false} EmptyCaches(n: nat, x: Span)
    ensures InStacks(seq(n, _ => []), x) == InShared(seq(n, _ => Cache([], [])), x) ==
            InClasses(seq(n, _ => None), x) == 0
  {
    if n > 0 {
      assert seq<seq<Span>>(n, _ => [])[..n - 1] == seq(n - 1, _ => []);
      assert seq<Cache>(n, _ => Cache([], []))[..n - 1] == seq(n - 1, _ => Cache([], []));
      assert seq<Option<Span>>(n, _ => None)[..n - 1] == seq(n - 1, _ => None);
      EmptyCaches(n - 1, x);
    }
  }

  // ----- what is in a cache is counted

  lemma {:induction false} StackHas(stacks: seq<seq<Span>>, i: nat, x: Span)
    requires i < |stacks|
    ensures InStacks(stacks, x) >= multiset(stacks[i])[x]
    decreases |stacks|
  {
    if i < |stacks| - 1 { StackHas(stacks[..|stacks| - 1], i, x); }
  }

  lemma {:induction false} SharedHas(shared: seq<Cache>, i: nat, x: Span)
    requires i < |shared|
    ensures InShared(shared, x) >= Held(shared[i])[x]
    decreases |shared|
  {
    if i < |shared| - 1 { SharedHas(shared[..|shared| - 1], i, x); }
  }

  lemma {:induction false} ClassesHave(classes: seq<Option<Span>>, x: Span)
    ensures Some(x) in classes ==> InClasses(classes, x) > 0
  {
    if classes != [] {
      ClassesHave(classes[..|classes| - 1], x);
      assert classes == classes[..|classes| - 1] + [classes[|classes| - 1]];
    }
  }

  lemma {:induction false} DeferredHas(list: seq<Deferred>, x: Span)
    ensures (exists d <- list :: d.Deferred? && d.span == x) ==> InDeferred(list, x) > 0
  {
    if list != [] {
      DeferredHas(list[1..], x);
      assert list == [list[0]] + list[1..];
    }
  }

  // ----- sizes

  /** What the span headers say: the units of each span. */
  predicate HasSize(sizes: map<Span, nat>, x: Span, n: nat) { x in sizes && sizes[x] == n }

  ghost predicate AllSized(sizes: map<Span, nat>, spans: seq<Span>, n: nat) {
    forall x <- spans :: HasSize(sizes, x, n)
  }

  ghost predicate CacheSized(sizes: map<Span, nat>, c: Cache, n: nat) {
    forall x: Span :: Held(c)[x] > 0 ==> HasSize(sizes, x, n)
  }

  ghost predicate ClassesSized(sizes: map<Span, nat>, classes: seq<Option<Span>>) {
    forall c <- classes :: c.Some? ==> HasSize(sizes, c.value, 1)
  }

  ghost predicate DeferredSized(sizes: map<Span, nat>, list: seq<Deferred>) {
    forall d <- list :: d.Deferred? ==> 1 <= d.units <= LARGE && HasSize(sizes, d.span, d.units)
  }

  lemma InsertedSized(sizes: map<Span, nat>, c: Cache, spans: seq<Span>, cap: Cap, out: seq<bool>, later: seq<bool>,
                      n: nat)
    requires |c.slots| <= cap.limit && |out| == |Over(c, spans, cap)|
    requires CacheSized(sizes, c, n) && AllSized(sizes, spans, n)
    ensures CacheSized(sizes, Inserted(c, spans, cap, out, later).0, n)
  {
    forall x: Span | Held(Inserted(c, spans, cap, out, later).0)[x] > 0 ensures HasSize(sizes, x, n) {
      InsertedKeeps(c, spans, cap, out, later, x);
      assert Held(c)[x] > 0 || x in spans;
    }
  }

  lemma ExtractedSized(sizes: map<Span, nat>, c: Cache, want: nat, n: nat)
    requires CacheSized(sizes, c, n)
    ensures CacheSized(sizes, Extracted(c, want).0, n) && AllSized(sizes, Extracted(c, want).1, n)
  {
    ExtractedKeeps(c, want);
    var (d, got) := Extracted(c, want);
    forall x: Span | Held(d)[x] > 0 || x in got ensures HasSize(sizes, x, n) {
      assert (Held(d) + multiset(got))[x] == Held(c)[x];
    }
  }

  lemma PartsSized(sizes: map<Span, nat>, spans: seq<Span>, i: nat, n: nat)
    requires i <= |spans| && AllSized(sizes, spans, n)
    ensures AllSized(sizes, spans[..i], n) && AllSized(sizes, spans[i..], n)
  {
  }

  // ----- the caches as one value

  datatype Caches = Caches(
    stacks: seq<seq<Span>>,          // span_cache and span_large_cache, by span count
    classes: seq<Option<Span>>,      // the one span each size class keeps
    shared: seq<Cache>,              // the global caches, as the other threads leave them
    deferred: seq<Deferred>,         // span_free_deferred
    unmapped: seq<Span>,             // what was unmapped; bookkeeping
    unlimited: bool)                 // pages are larger than spans

  /**
    The stack of spans of n units is below its transfer limit, the global cache within its own; both hold such
    spans.
  */
  ghost predicate LevelOk(stack: seq<Span>, cache: Cache, sizes: map<Span, nat>, n: nat)
    requires 1 <= n <= LARGE
  {
    |stack| < ThreadLimit(n) && |cache.slots| <= Limit(n) && AllSized(sizes, stack, n) && CacheSized(sizes, cache, n)
  }

  ghost predicate LevelsOk(stacks: seq<seq<Span>>, shared: seq<Cache>, sizes: map<Span, nat>) {
    && |stacks| == |shared| == LARGE
    && forall i :: 0 <= i < LARGE ==> LevelOk(stacks[i], shared[i], sizes, i + 1)
  }

  ghost predicate CachesOk(c: Caches, sizes: map<Span, nat>) {
    LevelsOk(c.stacks, c.shared, sizes) && ClassesSized(sizes, c.classes) && DeferredSized(sizes, c.deferred)
  }

  /** A span of n units waits on the deferred list. */
  predicate Waits(list: seq<Deferred>, n: nat) {
    list != [] && ((list[0].Deferred? && list[0].units == n) || Waits(list[1..], n))
  }

  /** A span of n units is somewhere: on the heap's stack, on the deferred list, or in the global cache. */
  predicate Has(c: Caches, n: nat) {
    && 1 <= n <= |c.stacks| && n <= |c.shared|
    && (c.stacks[n - 1] != [] || Waits(c.deferred, n) || c.shared[n - 1] != Cache([], []))
  }

  /** What one has the other has, but perhaps for spans of n units. */
  ghost predicate StillHas(c: Caches, d: Caches, n: nat) {
    forall k :: Has(c, k) && k != n ==> Has(d, k)
  }

  lemma StillHasOn(c: Caches, d: Caches, e: Caches, n: nat)
    requires StillHas(c, d, n) && StillHas(d, e, n)
    ensures StillHas(c, e, n)
  {
  }

  /** How often the span is anywhere in the caches or on the deferred list. */
  function InCaches(c: Caches, x: Span): nat {
    InStacks(c.stacks, x) + InClasses(c.classes, x) + InShared(c.shared, x) + InDeferred(c.deferred, x)
  }

  /** How often it is there or among the unmapped. */
  function Count(c: Caches, x: Span): nat { InCaches(c, x) + multiset(c.unmapped)[x] }

  /** The caches took the spans `given` and gave the spans `taken`; none was lost or doubled. */
  ghost predicate Trades(c: Caches, d: Caches, given: seq<Span>, taken: seq<Span>) {
    && c.unmapped <= d.unmapped
    && forall x :: Count(d, x) + multiset(taken)[x] == Count(c, x) + multiset(given)[x]
  }

  lemma TradesOn(c: Caches, d: Caches, e: Caches, given: seq<Span>, between: seq<Span>, taken: seq<Span>)
    requires Trades(c, d, given, between) && Trades(d, e, between, taken)
    ensures Trades(c, e, given, taken)
  {
  }

  lemma TradesStay(c: Caches, d: Caches, e: Caches, taken: seq<Span>)
    requires Trades(c, d, [], taken) && Trades(d, e, [], [])
    ensures Trades(c, e, [], taken)
  {
  }

  /** What the caches gave out is gone from them, and nothing has come into them but what was given. */
  lemma TradesInside(c: Caches, d: Caches, given: seq<Span>, taken: seq<Span>, x: Span)
    requires Trades(c, d, given, taken)
    ensures InCaches(d, x) + multiset(taken)[x] <= InCaches(c, x) + multiset(given)[x]
  {
    SplitMultiset(d.unmapped, |c.unmapped|);
    assert d.unmapped[..|c.unmapped|] == c.unmapped;
    assert multiset(d.unmapped)[x] == (multiset(c.unmapped) + multiset(d.unmapped[|c.unmapped|..]))[x];
  }

  function Listed(o: Option<Span>): seq<Span> { if o.Some? then [o.value] else [] }

  lemma ListedIs(o: Option<Span>, x: Span)
    ensures multiset(Listed(o))[x] == InClass(o, x)
  {
  }

  lemma SetLevel(c: Caches, sizes: map<Span, nat>, i: nat, s: seq<Span>, d: Cache)
    requires CachesOk(c, sizes) && i < LARGE && LevelOk(s, d, sizes, i + 1)
    ensures CachesOk(c.(stacks := c.stacks[i := s], shared := c.shared[i := d]), sizes)
  {
    var stacks, shared := c.stacks[i := s], c.shared[i := d];
    forall j | 0 <= j < LARGE ensures LevelOk(stacks[j], shared[j], sizes, j + 1) {
      assert LevelOk(c.stacks[j], c.shared[j], sizes, j + 1);
    }
  }

  lemma SetStack(c: Caches, sizes: map<Span, nat>, i: nat, s: seq<Span>)
    requires CachesOk(c, sizes) && i < LARGE && |s| < ThreadLimit(i + 1) && AllSized(sizes, s, i + 1)
    ensures CachesOk(c.(stacks := c.stacks[i := s]), sizes)
  {
    assert LevelOk(c.stacks[i], c.shared[i], sizes, i + 1);
    SetLevel(c, sizes, i, s, c.shared[i]);
    assert c.shared[i := c.shared[i]] == c.shared;
  }

  lemma SetShared(c: Caches, sizes: map<Span, nat>, i: nat, d: Cache)
    requires CachesOk(c, sizes) && i < LARGE && |d.slots| <= Limit(i + 1) && CacheSized(sizes, d, i + 1)
    ensures CachesOk(c.(shared := c.shared[i := d]), sizes)
  {
    assert LevelOk(c.stacks[i], c.shared[i], sizes, i + 1);
    SetLevel(c, sizes, i, c.stacks[i], d);
    assert c.stacks[i := c.stacks[i]] == c.stacks;
  }

  // ----- the steps

  /** The bound of the cache of spans of i + 1 units. */
  function CapOf(c: Caches, i: nat): Cap
    requires i < LARGE
  {
    Cap(Limit(i + 1), c.unlimited)
  }

  predicate Shaped(c: Caches) { |c.stacks| == |c.shared| == LARGE }

  /** What a cache of spans of n units comes to if it is given some: those that have room are kept. */
  ghost predicate Passed(c: Caches, d: Caches, n: nat, over: seq<Span>)
    requires 1 <= n <= LARGE && Shaped(c) && Shaped(d)
  {
    var fits := |c.shared[n - 1].slots| + |over| <= Limit(n);
    && (fits ==> d.shared[n - 1] == c.shared[n - 1].(slots := c.shared[n - 1].slots + over))
    && (fits || c.unlimited ==> d.unmapped == c.unmapped)
    && forall i :: 0 <= i < LARGE && i != n - 1 ==> d.shared[i] == c.shared[i]
  }

  /** A span goes on its stack, of which `over` comes off if that is then at its limit. */
  ghost predicate Cut(c: Caches, d: Caches, span: Span, n: nat, over: seq<Span>)
    requires 1 <= n <= |c.stacks| && n <= LARGE
  {
    var stack := c.stacks[n - 1] + [span];
    var kept := Kept(|stack|, n);
    d == c.(stacks := c.stacks[n - 1 := stack[..kept]]) && over == stack[kept..]
  }

  /** A span goes on its stack; a stack that comes to its limit passes its top on. */
  ghost predicate Put(c: Caches, d: Caches, span: Span, n: nat)
    requires 1 <= n <= LARGE && Shaped(c) && Shaped(d)
  {
    var stack := c.stacks[n - 1] + [span];
    var kept := Kept(|stack|, n);
    && d.stacks == c.stacks[n - 1 := stack[..kept]]
    && (|stack| < ThreadLimit(n) ==> d.shared == c.shared && d.unmapped == c.unmapped)
    && Passed(c, d, n, stack[kept..])
  }

  lemma NothingPassed(c: Caches, d: Caches, n: nat)
    requires 1 <= n <= LARGE && Shaped(c) && Shaped(d) && d.shared == c.shared && d.unmapped == c.unmapped
    ensures Passed(c, d, n, [])
  {
    assert c.shared[n - 1].slots + [] == c.shared[n - 1].slots;
  }

  /** After a put the heap has spans of n units, and all it had. */
  lemma PutHas(c: Caches, d: Caches, span: Span, n: nat)
    requires 1 <= n <= LARGE && Shaped(c) && Shaped(d) && |c.stacks[n - 1]| < ThreadLimit(n) && Put(c, d, span, n)
    requires d.deferred == c.deferred
    ensures StillHas(c, d, 0) && Has(d, n)
  {
    assert d.stacks[n - 1] != [];
    forall k | Has(c, k) && k != n ensures Has(d, k) {
      assert d.stacks[k - 1] == c.stacks[k - 1] && d.shared[k - 1] == c.shared[k - 1];
    }
  }

  lemma CutThenPassed(c: Caches, t: Caches, d: Caches, span: Span, n: nat, over: seq<Span>)
    requires 1 <= n <= LARGE && Shaped(c) && Shaped(t) && Shaped(d) && |c.stacks[n - 1]| < ThreadLimit(n)
    requires Cut(c, t, span, n, over) && d.deferred == t.deferred
    requires if over == [] then d == t else d.stacks == t.stacks && Passed(t, d, n, over)
    ensures Put(c, d, span, n) && StillHas(c, d, 0) && Has(d, n)
  {
    if over == [] { NothingPassed(c, d, n); }
    PutHas(c, d, span, n);
  }

  function WithPushed(c: Caches, i: nat, span: Span, remain: nat): Caches
    requires i < |c.stacks| && remain <= |c.stacks[i]| + 1
  {
    c.(stacks := c.stacks[i := (c.stacks[i] + [span])[..remain]])
  }

  lemma PushedOk(c: Caches, sizes: map<Span, nat>, i: nat, span: Span, remain: nat)
    requires CachesOk(c, sizes) && i < LARGE && HasSize(sizes, span, i + 1) && remain <= |c.stacks[i]| + 1
    requires remain < ThreadLimit(i + 1)
    ensures CachesOk(WithPushed(c, i, span, remain), sizes) && AllSized(sizes, (c.stacks[i] + [span])[remain..], i + 1)
  {
    assert LevelOk(c.stacks[i], c.shared[i], sizes, i + 1);
    PartsSized(sizes, c.stacks[i] + [span], remain, i + 1);
    SetStack(c, sizes, i, (c.stacks[i] + [span])[..remain]);
  }

  lemma Pushed(c: Caches, i: nat, span: Span, remain: nat)
    requires i < |c.stacks| && remain <= |c.stacks[i]| + 1
    ensures Trades(c, WithPushed(c, i, span, remain), [span], (c.stacks[i] + [span])[remain..])
  {
    var stack := c.stacks[i] + [span];
    forall x ensures InStacks(c.stacks[i := stack[..remain]], x) + multiset(stack[remain..])[x] ==
                     InStacks(c.stacks, x) + multiset([span])[x] {
      StackUpdate(c.stacks, i, stack[..remain], x);
      SplitMultiset(stack, remain);
      assert multiset(stack)[x] == multiset(c.stacks[i])[x] + multiset([span])[x];
    }
  }

  /** The top of a stack is taken. */
  function WithPopped(c: Caches, i: nat): Caches
    requires i < |c.stacks| && c.stacks[i] != []
  {
    c.(stacks := c.stacks[i := c.stacks[i][..|c.stacks[i]| - 1]])
  }

  lemma PoppedOk(c: Caches, sizes: map<Span, nat>, i: nat)
    requires CachesOk(c, sizes) && i < LARGE && c.stacks[i] != []
    ensures CachesOk(WithPopped(c, i), sizes) && HasSize(sizes, c.stacks[i][|c.stacks[i]| - 1], i + 1)
  {
    var stack := c.stacks[i];
    assert LevelOk(stack, c.shared[i], sizes, i + 1) && stack[|stack| - 1] in stack;
    PartsSized(sizes, stack, |stack| - 1, i + 1);
    SetStack(c, sizes, i, stack[..|stack| - 1]);
  }

  lemma Popped(c: Caches, i: nat)
    requires i < |c.stacks| && c.stacks[i] != []
    ensures Trades(c, WithPopped(c, i), [], [c.stacks[i][|c.stacks[i]| - 1]])
  {
    var stack := c.stacks[i];
    var rest, top := stack[..|stack| - 1], stack[|stack| - 1];
    assert stack == rest + [top];
    forall x ensures InStacks(c.stacks[i := rest], x) + multiset([top])[x] == InStacks(c.stacks, x) {
      StackUpdate(c.stacks, i, rest, x);
      assert multiset(stack)[x] == multiset(rest)[x] + multiset([top])[x];
    }
  }

  /** Spans are inserted into a global cache. */
  function WithInserted(c: Caches, i: nat, spans: seq<Span>, out: seq<bool>, later: seq<bool>): Caches
    requires i < |c.shared| && i < LARGE
    requires |c.shared[i].slots| <= Limit(i + 1) && |out| == |Over(c.shared[i], spans, CapOf(c, i))|
  {
    var (d, gone) := Inserted(c.shared[i], spans, CapOf(c, i), out, later);
    c.(shared := c.shared[i := d], unmapped := c.unmapped + gone)
  }

  lemma SharedInsertedOk(c: Caches, sizes: map<Span, nat>, i: nat, spans: seq<Span>, out: seq<bool>, later: seq<bool>)
    requires CachesOk(c, sizes) && i < LARGE && AllSized(sizes, spans, i + 1)
    requires |c.shared[i].slots| <= Limit(i + 1) && |out| == |Over(c.shared[i], spans, CapOf(c, i))|
    ensures CachesOk(WithInserted(c, i, spans, out, later), sizes)
  {
    var (d, gone) := Inserted(c.shared[i], spans, CapOf(c, i), out, later);
    InsertedKeeps(c.shared[i], spans, CapOf(c, i), out, later, NO_SPAN);
    assert LevelOk(c.stacks[i], c.shared[i], sizes, i + 1);
    InsertedSized(sizes, c.shared[i], spans, CapOf(c, i), out, later, i + 1);
    SetShared(c, sizes, i, d);
  }

  lemma SharedInserted(c: Caches, i: nat, spans: seq<Span>, out: seq<bool>, later: seq<bool>)
    requires i < |c.shared| && i < LARGE
    requires |c.shared[i].slots| <= Limit(i + 1) && |out| == |Over(c.shared[i], spans, CapOf(c, i))|
    ensures Trades(c, WithInserted(c, i, spans, out, later), spans, [])
  {
    var (d, gone) := Inserted(c.shared[i], spans, CapOf(c, i), out, later);
    forall x ensures InShared(c.shared[i := d], x) + multiset(c.unmapped + gone)[x] ==
                     InShared(c.shared, x) + multiset(c.unmapped)[x] + multiset(spans)[x] {
      InsertedKeeps(c.shared[i], spans, CapOf(c, i), out, later, x);
      SharedUpdate(c.shared, i, d, x);
    }
  }

  lemma PassedShared(c: Caches, n: nat, spans: seq<Span>, out: seq<bool>, later: seq<bool>)
    requires 1 <= n <= LARGE && Shaped(c) && |c.shared[n - 1].slots| <= Limit(n)
    requires |out| == |Over(c.shared[n - 1], spans, CapOf(c, n - 1))|
    ensures Passed(c, WithInserted(c, n - 1, spans, out, later), n, spans)
  {
    if |c.shared[n - 1].slots| + |spans| <= Limit(n) {
      assert spans[|spans|..] == [] && spans[..|spans|] == spans;
    }
    assert c.unmapped + [] == c.unmapped;
  }

  lemma SharedInsertedBoth(c: Caches, sizes: map<Span, nat>, n: nat, spans: seq<Span>, out: seq<bool>,
                           later: seq<bool>)
    requires CachesOk(c, sizes) && 1 <= n <= LARGE && AllSized(sizes, spans, n)
    requires |c.shared[n - 1].slots| <= Limit(n) && |out| == |Over(c.shared[n - 1], spans, CapOf(c, n - 1))|
    ensures var d := WithInserted(c, n - 1, spans, out, later);
            CachesOk(d, sizes) && Trades(c, d, spans, []) && Passed(c, d, n, spans)
  {
    SharedInsertedOk(c, sizes, n - 1, spans, out, later);
    SharedInserted(c, n - 1, spans, out, later);
    PassedShared(c, n, spans, out, later);
  }

  /** A stack is written from the global cache behind it. */
  function WithFilled(c: Caches, i: nat): Caches
    requires i < |c.stacks| && i < |c.shared| && i < LARGE
  {
    var (d, got) := Extracted(c.shared[i], Wanted(i + 1));
    c.(shared := c.shared[i := d], stacks := c.stacks[i := got])
  }

  lemma FilledOk(c: Caches, sizes: map<Span, nat>, i: nat)
    requires CachesOk(c, sizes) && i < LARGE
    ensures CachesOk(WithFilled(c, i), sizes)
  {
    var (d, got) := Extracted(c.shared[i], Wanted(i + 1));
    ExtractedKeeps(c.shared[i], Wanted(i + 1));
    assert LevelOk(c.stacks[i], c.shared[i], sizes, i + 1);
    ExtractedSized(sizes, c.shared[i], Wanted(i + 1), i + 1);
    SetLevel(c, sizes, i, got, d);
  }

  /** A refill that gives nothing found nothing, and changes nothing. */
  lemma FilledNone(c: Caches, i: nat)
    requires i < |c.stacks| && i < |c.shared| && i < LARGE && c.stacks[i] == []
    requires Extracted(c.shared[i], Wanted(i + 1)).1 == []
    ensures WithFilled(c, i) == c && c.shared[i] == Cache([], [])
  {
    var d := Extracted(c.shared[i], Wanted(i + 1)).0;
    assert |c.shared[i].slots| == 0 && |c.shared[i].overflow| == 0;
    assert d == c.shared[i] == Cache([], []);
    assert c.shared[i := d] == c.shared && c.stacks[i := []] == c.stacks;
  }

  /** Nothing is lost where the stack was empty. */
  lemma Filled(c: Caches, i: nat)
    requires i < |c.stacks| && i < |c.shared| && i < LARGE && c.stacks[i] == []
    ensures Trades(c, WithFilled(c, i), [], [])
  {
    var (d, got) := Extracted(c.shared[i], Wanted(i + 1));
    ExtractedKeeps(c.shared[i], Wanted(i + 1));
    forall x
      ensures InShared(c.shared[i := d], x) + InStacks(c.stacks[i := got], x) ==
              InShared(c.shared, x) + InStacks(c.stacks, x)
    {
      SharedUpdate(c.shared, i, d, x);
      StackUpdate(c.stacks, i, got, x);
      assert (Held(d) + multiset(got))[x] == Held(c.shared[i])[x];
    }
  }

  /** A class keeps another span, or none. */
  lemma ClassKeeps(c: Caches, sizes: map<Span, nat>, k: nat, o: Option<Span>)
    requires CachesOk(c, sizes) && k < |c.classes| && (o.Some? ==> HasSize(sizes, o.value, 1))
    ensures CachesOk(c.(classes := c.classes[k := o]), sizes)
    ensures Trades(c, c.(classes := c.classes[k := o]), Listed(o), Listed(c.classes[k]))
  {
    forall x ensures InClasses(c.classes[k := o], x) + multiset(Listed(c.classes[k]))[x] ==
                     InClasses(c.classes, x) + multiset(Listed(o))[x] {
      ClassUpdate(c.classes, k, o, x);
      ListedIs(o, x);
      ListedIs(c.classes[k], x);
    }
  }

  /** The head of the deferred list is taken off. */
  lemma Taken(c: Caches, sizes: map<Span, nat>)
    requires CachesOk(c, sizes) && c.deferred != []
    ensures var t, d := c.(deferred := c.deferred[1..]), c.deferred[0];
            && CachesOk(t, sizes) && (d.Deferred? ==> 1 <= d.units <= LARGE && HasSize(sizes, d.span, d.units))
            && Trades(c, t, [], Listed(SpanOf(d)))
  {
    assert c.deferred[0] in c.deferred;
    forall x
      ensures InDeferred(c.deferred[1..], x) + multiset(Listed(SpanOf(c.deferred[0])))[x] == InDeferred(c.deferred, x)
    {
      ListedIs(SpanOf(c.deferred[0]), x);
    }
  }

  /** A span is put on the deferred list, in front. */
  lemma Deferring(c: Caches, sizes: map<Span, nat>, d: Deferred)
    requires CachesOk(c, sizes) && (d.Deferred? ==> 1 <= d.units <= LARGE && HasSize(sizes, d.span, d.units))
    ensures var t := c.(deferred := [d] + c.deferred); CachesOk(t, sizes) && Trades(c, t, Listed(SpanOf(d)), [])
  {
    var t := c.(deferred := [d] + c.deferred);
    Taken(t, sizes);
    assert t.deferred[1..] == c.deferred && t.(deferred := c.deferred) == c;
  }

  /** A header written outside the caches changes nothing in them. */
  lemma NewSize(c: Caches, sizes: map<Span, nat>, span: Span, n: nat)
    requires CachesOk(c, sizes) && Count(c, span) == 0
    ensures CachesOk(c, sizes[span := n])
  {
    var after := sizes[span := n];
    forall i | 0 <= i < LARGE ensures LevelOk(c.stacks[i], c.shared[i], after, i + 1) {
      StackHas(c.stacks, i, span);
      SharedHas(c.shared, i, span);
      assert LevelOk(c.stacks[i], c.shared[i], sizes, i + 1);
    }
    ClassesHave(c.classes, span);
    DeferredHas(c.deferred, span);
  }

  /** No span is in two places, or in use and still in one. */
  ghost predicate Unshared(c: Caches, inUse: set<Span>) {
    forall x :: Count(c, x) + One(x in inUse) <= 1
  }

  /** A span in somebody's hand: in no cache, not unmapped, and not in use. */
  ghost predicate Loose(c: Caches, inUse: set<Span>, x: Span) {
    Count(c, x) == 0 && x !in inUse
  }

  lemma Returned(c: Caches, d: Caches, inUse: set<Span>, span: Span)
    requires Unshared(c, inUse) && Loose(c, inUse, span) && Trades(c, d, [span], [])
    ensures Unshared(d, inUse)
  {
  }

  lemma HandedOut(c: Caches, d: Caches, inUse: set<Span>, span: Span)
    requires Unshared(c, inUse) && Trades(c, d, [], [span])
    ensures Count(c, span) == 1 && span !in inUse && Loose(d, inUse, span) && Unshared(d, inUse + {span})
  {
    assert multiset([span])[span] == 1;
  }

  // ----- the heap

  function Single(e: Deferred): Option<Span> { if e.Deferred? && e.units == 1 then Some(e.span) else None }

  function Top(stack: seq<Span>): Span
    requires stack != []
  {
    stack[|stack| - 1]
  }

  /** The first single span on the list. */
  function FirstSingle(list: seq<Deferred>): Option<Span> {
    if list == [] then None else if Single(list[0]).Some? then Single(list[0]) else FirstSingle(list[1..])
  }

  /** A span off the deferred list goes into the caches, unless it is handed out, or huge. */
  ghost predicate Adopted(c: Caches, d: Caches, e: Deferred, single: Option<Span>) {
    && Shaped(c) && Shaped(d)
    && if e.Deferred? && single == None then 1 <= e.units <= LARGE && Put(c, d, e.span, e.units)
       else d == c.(deferred := d.deferred)
  }

  /** The same of a span already off the list, and what the caches then have. */
  ghost predicate Shelved(c: Caches, d: Caches, e: Deferred, single: Option<Span>) {
    && Shaped(c) && Shaped(d)
    && if e.Deferred? && single == None
       then 1 <= e.units <= LARGE && Put(c, d, e.span, e.units) && StillHas(c, d, 0) && Has(d, e.units)
       else d == c
  }

  datatype Found = Cached(span: Span, units: nat) | Reserved(units: nat) | Mapped

  /** The span found, if it is one. */
  function Out(found: Found): Option<Span> { if found.Cached? then Some(found.span) else None }

  /** How far the search for n units goes: half as much again, for more than two. */
  function SearchLimit(n: nat): nat {
    if n <= 2 then n else if n + n / 2 > LARGE then LARGE else n + n / 2
  }

  ghost predicate NoneOf(c: Caches, n: nat, k: nat) {
    forall j :: n <= j < k ==> !Has(c, j)
  }

  /**
    What a search for n units says of the caches as they were and of the heap's reserve: a cached span is of the
    least count there was any of; the reserve serves only what nothing cached could; and new memory is mapped only
    if no span of any count within the limit was cached, and the reserve was too small.
  */
  ghost predicate Looked(c: Caches, n: nat, reserved: nat, found: Found) {
    match found
    case Cached(_, k) => n <= k <= SearchLimit(n) && NoneOf(c, n, k) && (k > n ==> reserved < n)
    case Reserved(k) => k == n <= reserved && NoneOf(c, n, n + 1)
    case Mapped => reserved < n && NoneOf(c, n, SearchLimit(n) + 1)
  }

  /** A class that keeps a span is given that span; otherwise the search is made. */
  ghost predicate Served(c: Caches, class_idx: Option<nat>, n: nat, reserved: nat, found: Found) {
    if class_idx.Some? && class_idx.value < |c.classes| && c.classes[class_idx.value].Some?
    then found == Cached(c.classes[class_idx.value].value, 1)
    else Looked(c, n, reserved, found)
  }

  /** What one pass of the search, for spans of k units, comes to. */
  ghost predicate Tried(c: Caches, d: Caches, k: nat, reserved: nat, found: Found) {
    match found
    case Cached(_, units) => units == k
    case Reserved(units) => units == k <= reserved && !Has(c, k)
    case Mapped => reserved < k && !Has(c, k) && StillHas(c, d, 0)
  }

  /** The search for n units has come to k, or has found something. */
  ghost predicate Searching(c: Caches, d: Caches, n: nat, limit: nat, k: nat, reserved: nat, found: Found) {
    match found
    case Cached(_, units) => n <= units <= limit && NoneOf(c, n, units) && (units > n ==> reserved < n)
    case Reserved(units) => units == n <= reserved && NoneOf(c, n, n + 1)
    case Mapped => NoneOf(c, n, k) && StillHas(c, d, 0) && (k > n ==> reserved < n)
  }

  lemma SearchOn(c: Caches, t: Caches, d: Caches, n: nat, limit: nat, k: nat, reserved: nat, found: Found)
    requires 1 <= n <= k <= limit && Searching(c, t, n, limit, k, reserved, Mapped) && Tried(t, d, k, reserved, found)
    ensures Searching(c, d, n, limit, k + 1, reserved, found)
  {
    assert !Has(t, k) ==> !Has(c, k);
  }

  class HeapCache {
    var stacks: seq<seq<Span>>
    var classes: seq<Option<Span>>
    var shared: seq<Cache>
    var deferred: seq<Deferred>
    ghost var unmapped: seq<Span>
    ghost var hugeUnmapped: seq<nat>
    ghost var sizes: map<Span, nat>     // the span counts in the headers
    ghost var inUse: set<Span>          // the spans given out and not back yet
    const unlimited: bool

    ghost function Now(): Caches
      reads this
    {
      Caches(stacks, classes, shared, deferred, unmapped, unlimited)
    }

    ghost predicate Valid()
      reads this
    {
      CachesOk(Now(), sizes)
    }

    constructor (largePages: bool)
      ensures Valid() && Unshared(Now(), inUse) && inUse == {}
      ensures Now() == Caches(seq(LARGE, _ => []), seq(126, _ => None), seq(LARGE, _ => Cache([], [])), [], [],
                              largePages)
    {
      stacks := seq(LARGE, _ => []);
      classes := seq(126, _ => None);
      shared := seq(LARGE, _ => Cache([], []));
      deferred, unmapped, hugeUnmapped, sizes, inUse := [], [], [], map[], {};
      unlimited := largePages;
      new;
      forall x ensures Count(Now(), x) == 0 {
        EmptyCaches(LARGE, x);
        EmptyCaches(126, x);
      }
    }

    /** What the master headers say, each time they are looked at. */
    method Look(n: nat) returns (out: seq<bool>)
      ensures |out| == n
    {
      out := *;
      if |out| != n { out := seq(n, _ => false); }
    }

    /** _rpmalloc_global_cache_insert_spans, on the cache of spans of n units. */
    method InsertShared(n: nat, spans: seq<Span>)
      requires Valid() && 1 <= n <= LARGE && AllSized(sizes, spans, n)
      modifies this`shared, this`unmapped
      ensures Valid() && Trades(old(Now()), Now(), spans, [])
      ensures Passed(old(Now()), Now(), n, spans)
    {
      assert LevelOk(stacks[n - 1], shared[n - 1], sizes, n);
      var cap := Cap(Limit(n), unlimited);
      var out := Look(|Over(shared[n - 1], spans, cap)|);
      var later: seq<bool> := *;
      SharedInsertedBoth(Now(), sizes, n, spans, out, later);
      var (d, gone) := Inserted(shared[n - 1], spans, cap, out, later);
      shared := shared[n - 1 := d];
      unmapped := unmapped + gone;
      assert Now() == WithInserted(old(Now()), n - 1, spans, out, later);
    }

    /** The span goes on its stack; at the limit, the top of the stack comes off. */
    method Push(span: Span, n: nat) returns (over: seq<Span>)
      requires Valid() && 1 <= n <= LARGE && HasSize(sizes, span, n)
      modifies this`stacks
      ensures Valid() && Trades(old(Now()), Now(), [span], over) && AllSized(sizes, over, n)
      ensures Cut(old(Now()), Now(), span, n, over) && |old(stacks[n - 1])| < ThreadLimit(n)
    {
      assert LevelOk(stacks[n - 1], shared[n - 1], sizes, n);
      var stack := stacks[n - 1] + [span];
      var remain := |stack|;
      if |stack| == ThreadLimit(n) { remain := |stack| - TransferCount(n); }
      PushedOk(Now(), sizes, n - 1, span, remain);
      Pushed(Now(), n - 1, span, remain);
      stacks := stacks[n - 1 := stack[..remain]];
      over := stack[remain..];
      assert Now() == WithPushed(old(Now()), n - 1, span, remain);
    }

    /** _rpmalloc_heap_cache_insert, the heap not being finalised. */
    method Insert(span: Span, n: nat)
      requires Valid() && 1 <= n <= LARGE && HasSize(sizes, span, n)
      modifies this`stacks, this`shared, this`unmapped
      ensures Valid() && Trades(old(Now()), Now(), [span], [])
      ensures Put(old(Now()), Now(), span, n) && StillHas(old(Now()), Now(), 0) && Has(Now(), n)
    {
      var over := Push(span, n);
      ghost var pushed := Now();
      if over != [] {
        InsertShared(n, over);
        TradesOn(old(Now()), pushed, Now(), [span], over, []);
      }
      CutThenPassed(old(Now()), pushed, Now(), span, n, over);
    }

    /** A span in use is freed into the caches. */
    method Free(span: Span, n: nat)
      requires Valid() && Unshared(Now(), inUse) && 1 <= n <= LARGE && HasSize(sizes, span, n) && span in inUse
      modifies this`stacks, this`shared, this`unmapped, this`inUse
      ensures Valid() && Unshared(Now(), inUse) && inUse == old(inUse) - {span}
      ensures Trades(old(Now()), Now(), [span], []) && Put(old(Now()), Now(), span, n)
    {
      inUse := inUse - {span};
      Insert(span, n);
      Returned(old(Now()), Now(), inUse, span);
    }

    /**
      _rpmalloc_deallocate_defer_free_span, by another thread: a span it found completely freed, or a large or huge
      one it frees, goes on the deferred list, and is in use no more.
    */
    method Defer(d: Deferred)
      requires Valid() && Unshared(Now(), inUse)
      requires d.Deferred? ==> 1 <= d.units <= LARGE && HasSize(sizes, d.span, d.units) && d.span in inUse
      modifies this`deferred, this`inUse
      ensures Valid() && Unshared(Now(), inUse) && deferred == [d] + old(deferred)
      ensures inUse == old(inUse) - if d.Deferred? then {d.span} else {}
      ensures Trades(old(Now()), Now(), Listed(SpanOf(d)), [])
    {
      Deferring(Now(), sizes, d);
      deferred := [d] + deferred;
      assert Now() == old(Now()).(deferred := [d] + old(deferred));
      if d.Deferred? {
        inUse := inUse - {d.span};
        Returned(old(Now()), Now(), inUse, d.span);
      } else {
        StillUnshared(old(Now()), Now(), inUse);
      }
    }

    /** A span that is in no cache, newly mapped or carved out of a reserve, is used. */
    ghost method Use(span: Span, n: nat)
      requires Valid() && Unshared(Now(), inUse) && Loose(Now(), inUse, span)
      modifies this`sizes, this`inUse
      ensures Valid() && Unshared(Now(), inUse) && inUse == old(inUse) + {span} && sizes == old(sizes)[span := n]
    {
      NewSize(Now(), sizes, span, n);
      sizes := sizes[span := n];
      inUse := inUse + {span};
    }

    /** _rpmalloc_span_release_to_cache: a span in use is the class's; the one the class kept goes to the cache. */
    method Release(span: Span, class_idx: nat)
      requires Valid() && Unshared(Now(), inUse) && class_idx < |classes| && HasSize(sizes, span, 1) && span in inUse
      modifies this`stacks, this`shared, this`unmapped, this`classes, this`inUse
      ensures Valid() && Unshared(Now(), inUse) && inUse == old(inUse) - {span}
      ensures Trades(old(Now()), Now(), [span], []) && classes == old(classes)[class_idx := Some(span)]
      ensures match old(classes[class_idx])
              case Some(was) => Put(old(Now()), Now(), was, 1)
              case None => Now() == old(Now()).(classes := classes)
    {
      inUse := inUse - {span};
      Keep(span, class_idx);
      Returned(old(Now()), Now(), inUse, span);
    }

    method Keep(span: Span, class_idx: nat)
      requires Valid() && class_idx < |classes| && HasSize(sizes, span, 1)
      modifies this`stacks, this`shared, this`unmapped, this`classes
      ensures Valid() && Trades(old(Now()), Now(), [span], [])
      ensures classes == old(classes)[class_idx := Some(span)]
      ensures match old(classes[class_idx])
              case Some(was) => Put(old(Now()), Now(), was, 1)
              case None => Now() == old(Now()).(classes := classes)
    {
      ghost var was := Listed(classes[class_idx]);
      CacheKept(class_idx);
      ghost var inserted := Now();
      ClassKeeps(Now(), sizes, class_idx, Some(span));
      classes := classes[class_idx := Some(span)];
      ReleaseTrades(old(Now()), inserted, Now(), span, was);
    }

    /** The span the class keeps goes to the cache. */
    method CacheKept(class_idx: nat)
      requires Valid() && class_idx < |classes|
      modifies this`stacks, this`shared, this`unmapped
      ensures Valid() && Trades(old(Now()), Now(), Listed(classes[class_idx]), [])
      ensures match classes[class_idx]
              case Some(was) => Put(old(Now()), Now(), was, 1)
              case None => Now() == old(Now())
    {
      assert classes[class_idx] in classes;
      if classes[class_idx].Some? { Insert(classes[class_idx].value, 1); }
    }

    /** _rpmalloc_heap_thread_cache_extract */
    method Pop(n: nat) returns (span: Option<Span>)
      requires Valid() && 1 <= n <= LARGE
      modifies this`stacks
      ensures Valid() && (span == None <==> old(stacks[n - 1]) == []) && (span == None ==> stacks == old(stacks))
      ensures old(stacks[n - 1]) != [] ==> span == Some(Top(old(stacks[n - 1])))
      ensures old(stacks[n - 1]) != [] ==> Now() == WithPopped(old(Now()), n - 1)
      ensures StillHas(old(Now()), Now(), n)
      ensures forall i :: 0 <= i < LARGE && i != n - 1 ==> stacks[i] == old(stacks[i])
      ensures Trades(old(Now()), Now(), [], Listed(span))
      ensures span.Some? ==> HasSize(sizes, span.value, n)
    {
      span := None;
      if stacks[n - 1] != [] {
        PoppedOk(Now(), sizes, n - 1);
        Popped(Now(), n - 1);
        var stack := stacks[n - 1];
        stacks := stacks[n - 1 := stack[..|stack| - 1]];
        span := Some(stack[|stack| - 1]);
        assert Now() == WithPopped(old(Now()), n - 1);
      }
    }

    /** The head of the deferred list, off the list; a huge one is unmapped. */
    method TakeDeferred() returns (d: Deferred)
      requires Valid() && deferred != []
      modifies this`deferred, this`hugeUnmapped
      ensures Valid() && old(deferred) == [d] + deferred
      ensures d.Deferred? ==> 1 <= d.units <= LARGE && HasSize(sizes, d.span, d.units)
      ensures Trades(old(Now()), Now(), [], Listed(SpanOf(d)))
      ensures hugeUnmapped + HugeSpans(deferred) == old(hugeUnmapped + HugeSpans(deferred))
    {
      Taken(Now(), sizes);
      NextHuge(hugeUnmapped, deferred);
      d := deferred[0];
      deferred := deferred[1..];
      if d.Huge? { hugeUnmapped := hugeUnmapped + [d.base]; }
    }

    /** What a span off the deferred list comes to: handed out if that is asked for and it is a single one. */
    method Shelve(d: Deferred, take: bool) returns (single: Option<Span>)
      requires Valid() && (d.Deferred? ==> 1 <= d.units <= LARGE && HasSize(sizes, d.span, d.units))
      modifies this`stacks, this`shared, this`unmapped
      ensures Valid() && Trades(old(Now()), Now(), Listed(SpanOf(d)), Listed(single))
      ensures single == if take then Single(d) else None
      ensures Shelved(old(Now()), Now(), d, single)
    {
      single := None;
      if d.Deferred? {
        if d.units == 1 && take {
          single := Some(d.span);
        } else {
          Insert(d.span, d.units);
        }
      }
    }

    /** One turn of the adoption. */
    method AdoptOne(take: bool) returns (single: Option<Span>)
      requires Valid() && deferred != []
      modifies this`stacks, this`shared, this`unmapped, this`hugeUnmapped, this`deferred
      ensures Valid() && deferred == old(deferred)[1..] && Trades(old(Now()), Now(), [], Listed(single))
      ensures single.Some? ==> take && HasSize(sizes, single.value, 1)
      ensures single == if take then Single(old(deferred)[0]) else None
      ensures Adopted(old(Now()), Now(), old(deferred)[0], single)
      ensures hugeUnmapped + HugeSpans(deferred) == old(hugeUnmapped + HugeSpans(deferred))
      ensures StillHas(old(Now()), Now(), if single.Some? then 1 else 0)
    {
      var d := TakeDeferred();
      ghost var taken := Now();
      single := Shelve(d, take);
      TradesOn(old(Now()), taken, Now(), [], Listed(SpanOf(d)), Listed(single));
      AdoptedOn(old(Now()), taken, Now(), d, single);
    }

    /** _rpmalloc_heap_cache_adopt_deferred: with `take`, the first single span is handed out instead of cached. */
    method Adopt(take: bool) returns (single: Option<Span>)
      requires Valid()
      modifies this`stacks, this`shared, this`unmapped, this`hugeUnmapped, this`deferred
      ensures Valid() && deferred == [] && Trades(old(Now()), Now(), [], Listed(single))
      ensures single.Some? ==> take && HasSize(sizes, single.value, 1)
      ensures single == if take then FirstSingle(old(deferred)) else None
      ensures take && single == None ==> stacks[0] == old(stacks[0])
      ensures hugeUnmapped == old(hugeUnmapped) + HugeSpans(old(deferred))
      ensures StillHas(old(Now()), Now(), if single.Some? then 1 else 0)
    {
      single := None;
      while deferred != []
        invariant Valid() && Trades(old(Now()), Now(), [], Listed(single))
        invariant single.Some? ==> take && HasSize(sizes, single.value, 1)
        invariant take && single == None ==> stacks[0] == old(stacks[0])
        invariant take ==> FirstSingle(old(deferred)) == if single.Some? then single else FirstSingle(deferred)
        invariant hugeUnmapped + HugeSpans(deferred) == old(hugeUnmapped + HugeSpans(deferred))
        invariant StillHas(old(Now()), Now(), if single.Some? then 1 else 0)
        decreases |deferred|
      {
        ghost var turn := Now();
        var one := AdoptOne(take && single == None);
        if one.Some? {
          TradesOn(old(Now()), turn, Now(), [], [], Listed(one));
          single := one;
        } else {
          TradesStay(old(Now()), turn, Now(), Listed(single));
        }
      }
    }

    /** The refill: the stack is written from slot 0. */
    method Fill(n: nat)
      requires Valid() && 1 <= n <= LARGE && stacks[n - 1] == []
      modifies this`stacks, this`shared
      ensures Valid() && Trades(old(Now()), Now(), [], [])
      ensures Now() == WithFilled(old(Now()), n - 1)
      ensures (shared[n - 1], stacks[n - 1]) == Extracted(old(shared[n - 1]), Wanted(n))
    {
      FilledOk(Now(), sizes, n - 1);
      Filled(Now(), n - 1);
      var (d, got) := Extracted(shared[n - 1], Wanted(n));
      shared := shared[n - 1 := d];
      stacks := stacks[n - 1 := got];
      assert Now() == WithFilled(old(Now()), n - 1);
    }

    /** _rpmalloc_heap_global_cache_extract */
    method Refill(n: nat) returns (span: Option<Span>)
      requires Valid() && 1 <= n <= LARGE && stacks[n - 1] == []
      modifies this`stacks, this`shared
      ensures Valid() && Trades(old(Now()), Now(), [], Listed(span))
      ensures span.Some? ==> HasSize(sizes, span.value, n)
      ensures span == None ==> Now() == old(Now()) && shared[n - 1] == Cache([], [])
    {
      Fill(n);
      ghost var filled := Now();
      span := Pop(n);
      TradesOn(old(Now()), filled, Now(), [], [], Listed(span));
      if span == None { FilledNone(old(Now()), n - 1); }
    }

    /** The deferred list is adopted: a single span of it is handed out, or what is then on the stack. */
    method AdoptAndPop(n: nat) returns (span: Option<Span>)
      requires Valid() && 1 <= n <= LARGE && stacks[n - 1] == []
      modifies this`stacks, this`shared, this`unmapped, this`hugeUnmapped, this`deferred
      ensures Valid() && Trades(old(Now()), Now(), [], Listed(span))
      ensures span.Some? ==> HasSize(sizes, span.value, n)
      ensures span == None ==> stacks[n - 1] == [] && deferred == [] && StillHas(old(Now()), Now(), 0)
      ensures n == 1 ==> span == FirstSingle(old(deferred))
    {
      if n == 1 {
        span := Adopt(true);
      } else {
        var none := Adopt(false);
        ghost var adopted := Now();
        span := Pop(n);
        TradesOn(old(Now()), adopted, Now(), [], [], Listed(span));
      }
    }

    /**
      One pass of the loop in _rpmalloc_heap_extract_new_span, up to the heap's reserve: stack, deferred list,
      global cache.
    */
    method Extract(n: nat) returns (span: Option<Span>)
      requires Valid() && 1 <= n <= LARGE
      modifies this`stacks, this`shared, this`unmapped, this`hugeUnmapped, this`deferred
      ensures Valid() && Trades(old(Now()), Now(), [], Listed(span))
      ensures span.Some? ==> HasSize(sizes, span.value, n)
      ensures old(stacks[n - 1]) != [] ==> span == Some(Top(old(stacks[n - 1])))
      ensures n == 1 && old(stacks[0]) == [] && FirstSingle(old(deferred)).Some? ==> span == FirstSingle(old(deferred))
      ensures span == None ==> !Has(old(Now()), n) && StillHas(old(Now()), Now(), 0)
    {
      span := Pop(n);
      ghost var popped := Now();
      if span == None {
        span := AdoptAndPop(n);
        TradesOn(old(Now()), popped, Now(), [], [], Listed(span));
      }
      ghost var adopted := Now();
      if span == None {
        span := Refill(n);
        TradesOn(old(Now()), adopted, Now(), [], [], Listed(span));
      }
    }

    /** The class's span, in place of which it gets one from the stack. */
    method TakeKept(class_idx: nat) returns (span: Span)
      requires Valid() && class_idx < |classes| && classes[class_idx].Some?
      modifies this`stacks, this`classes
      ensures Valid() && Trades(old(Now()), Now(), [], [span]) && HasSize(sizes, span, 1)
      ensures old(classes[class_idx]) == Some(span)
      ensures classes == old(classes)[class_idx := if old(stacks[0]) == [] then None else Some(Top(old(stacks[0])))]
      ensures stacks == old(stacks)[0 := if old(stacks[0]) == [] then [] else old(stacks[0])[..|old(stacks[0])| - 1]]
    {
      assert classes[class_idx] in classes;
      span := classes[class_idx].value;
      var next := Pop(1);
      ghost var popped := Now();
      ClassKeeps(Now(), sizes, class_idx, next);
      classes := classes[class_idx := next];
      TradesOn(old(Now()), popped, Now(), [], Listed(next), [span]);
    }

    /** One pass of the loop in _rpmalloc_heap_extract_new_span; `reserved` is what the heap's reserve holds. */
    method Try(k: nat, reserved: nat) returns (found: Found)
      requires Valid() && 1 <= k <= LARGE
      modifies this`stacks, this`shared, this`unmapped, this`hugeUnmapped, this`deferred
      ensures Valid() && Trades(old(Now()), Now(), [], Listed(Out(found)))
      ensures found.Cached? ==> found.units == k && HasSize(sizes, found.span, k)
      ensures Tried(old(Now()), Now(), k, reserved, found)
    {
      found := Mapped;
      var span := Extract(k);
      if span.Some? {
        found := Cached(span.value, k);
      } else if reserved >= k {
        found := Reserved(k);
      }
    }

    /** The loop of _rpmalloc_heap_extract_new_span, for span counts up to half as much again. */
    method Search(n: nat, reserved: nat) returns (found: Found)
      requires Valid() && 1 <= n <= LARGE
      modifies this`stacks, this`shared, this`unmapped, this`hugeUnmapped, this`deferred
      ensures Valid() && Trades(old(Now()), Now(), [], Listed(Out(found)))
      ensures !found.Mapped? ==> n <= found.units <= LARGE && (n <= 2 ==> found.units == n)
      ensures found.Cached? ==> HasSize(sizes, found.span, found.units)
      ensures Looked(old(Now()), n, reserved, found)
    {
      found := Mapped;
      var limit := if n > 2 then n + n / 2 else n;
      if limit > LARGE { limit := LARGE; }
      var k := n;
      while k <= limit && found.Mapped?
        invariant Valid() && n <= k <= limit + 1 <= LARGE + 1
        invariant Trades(old(Now()), Now(), [], Listed(Out(found)))
        invariant found.Cached? ==> HasSize(sizes, found.span, found.units)
        invariant Searching(old(Now()), Now(), n, limit, k, reserved, found)
        decreases limit + 1 - k, found.Mapped?
      {
        ghost var turn := Now();
        found := Try(k, reserved);
        TradesOn(old(Now()), turn, Now(), [], [], Listed(Out(found)));
        SearchOn(old(Now()), turn, Now(), n, limit, k, reserved, found);
        k := k + 1;
      }
    }

    /**
      _rpmalloc_heap_extract_new_span: from the class, or from the caches and the reserve for span counts up
      to half as much again, or newly mapped.  What comes from the caches was in them, once, and nowhere else,
      and its header says the units it is taken for, which are as many as asked, or more.
    */
    method ExtractNew(class_idx: Option<nat>, n: nat, reserved: nat) returns (found: Found)
      requires Valid() && Unshared(Now(), inUse) && 1 <= n <= LARGE
      requires class_idx.Some? ==> class_idx.value < |classes| && n == 1
      modifies this`stacks, this`shared, this`unmapped, this`hugeUnmapped, this`deferred, this`classes, this`inUse
      ensures Valid() && Unshared(Now(), inUse) && Trades(old(Now()), Now(), [], Listed(Out(found)))
      ensures !found.Mapped? ==> n <= found.units <= LARGE && (n <= 2 ==> found.units == n)
      ensures found.Cached? ==> HasSize(sizes, found.span, found.units)
      ensures found.Cached? ==> Count(old(Now()), found.span) == 1 && found.span !in old(inUse)
      ensures inUse == old(inUse) + if found.Cached? then {found.span} else {}
      ensures Served(old(Now()), class_idx, n, reserved, found)
    {
      if class_idx.Some? && classes[class_idx.value].Some? {
        var span := TakeKept(class_idx.value);
        found := Cached(span, 1);
      } else {
        found := Search(n, reserved);
      }
      FoundOut(old(Now()), Now(), inUse, found);
      if found.Cached? { inUse := inUse + {found.span}; }
    }
  }

  /** The deferred span inserted is still there, in the heap's own stack. */
  lemma AdoptedOn(c: Caches, t: Caches, d: Caches, e: Deferred, single: Option<Span>)
    requires c.deferred != [] && c.deferred[0] == e && t == c.(deferred := c.deferred[1..])
    requires (single.Some? ==> Single(e) == single) && Shelved(t, d, e, single)
    ensures Adopted(c, d, e, single) && StillHas(c, d, if single.Some? then 1 else 0)
  {
    forall k | Has(c, k) && k != if single.Some? then 1 else 0 ensures Has(d, k) {
      if e.Huge? || k != e.units { assert Has(t, k); }
    }
  }

  lemma FoundOut(c: Caches, d: Caches, inUse: set<Span>, found: Found)
    requires Unshared(c, inUse) && Trades(c, d, [], Listed(Out(found)))
    ensures Unshared(d, inUse + if found.Cached? then {found.span} else {})
    ensures found.Cached? ==> Count(c, found.span) == 1 && found.span !in inUse
  {
    if found.Cached? { HandedOut(c, d, inUse, found.span); } else { StillUnshared(c, d, inUse); }
  }

  lemma StillUnshared(c: Caches, d: Caches, inUse: set<Span>)
    requires Unshared(c, inUse) && Trades(c, d, [], [])
    ensures Unshared(d, inUse)
  {
  }

  /** The class's old span goes in and comes out again. */
  lemma ReleaseTrades(c: Caches, d: Caches, e: Caches, span: Span, was: seq<Span>)
    requires Trades(c, d, was, []) && Trades(d, e, [span], was)
    ensures Trades(c, e, [span], [])
  {
  }
}
