/**
  The global span cache of one span count (rpmalloc.c): an array under a spin lock with an overflow list behind it.
  Inserting takes the lock twice; between the two locked sections the inserting thread unmaps what did not
  fit, except master spans that still have subspans out, which the second section trades for cached spans
  that can be unmapped.  What the master headers say at each look is given with the step: they change at any time.
*/
module GlobalCache {
  import SuperSpan

  /** A span handed out of a region, by its place in it: what a span pointer is. */
  type Span = SuperSpan.Address

  /** The place in an array where no span is yet. */
  const NO_SPAN: Span := SuperSpan.Address(0, 0)

  const MULTIPLIER: nat := 8
  const THREAD_MAX: nat := 400
  const LARGE_MAX: nat := 100
  const CAPACITY: nat := 3200

  /** The most spans the cache of spans of n units holds. */
  function Limit(n: nat): (limit: nat)
    requires 1 <= n <= SuperSpan.LARGE_CLASSES
    ensures 0 < limit <= CAPACITY
  {
    if n == 1 then MULTIPLIER * THREAD_MAX else MULTIPLIER * (LARGE_MAX - n / 2)
  }

  /** The limit, and whether what does not fit goes on the overflow list at once: where pages are larger than spans. */
  datatype Cap = Cap(limit: nat, unlimited: bool)

  datatype Cache = Cache(slots: seq<Span>, overflow: seq<Span>)

  function Held(c: Cache): multiset<Span> { multiset(c.slots) + multiset(c.overflow) }

  // ----- the two locked sections of an insert, and what is between them

  function AtMost(n: nat, most: nat): nat { if n <= most then n else most }

  function Fitting(c: Cache, cap: Cap, n: nat): nat
    requires |c.slots| <= cap.limit
  {
    if |c.slots| + n > cap.limit then cap.limit - |c.slots| else n
  }

  /** The spans put on the list one by one, each in front. */
  function Spilled(list: seq<Span>, spans: seq<Span>): seq<Span>
    decreases |spans|
  {
    if spans == [] then list else Spilled([spans[0]] + list, spans[1..])
  }

  /** What the first section leaves in the thread's hands. */
  function Over(c: Cache, spans: seq<Span>, cap: Cap): seq<Span>
    requires |c.slots| <= cap.limit
  {
    if cap.unlimited then [] else spans[Fitting(c, cap, |spans|)..]
  }

  function Stored(c: Cache, spans: seq<Span>, cap: Cap): Cache
    requires |c.slots| <= cap.limit
  {
    var n := Fitting(c, cap, |spans|);
    Cache(c.slots + spans[..n], if cap.unlimited then Spilled(c.overflow, spans[n..]) else c.overflow)
  }

  /** The spans that are masters with subspans out are put on the keep list, last first; the others are unmapped. */
  function Sifted(spans: seq<Span>, out: seq<bool>, keep: seq<Span>): (seq<Span>, seq<Span>)
    requires |out| == |spans|
    decreases |spans|
  {
    if spans == [] then (keep, [])
    else if out[0] then Sifted(spans[1..], out[1..], [spans[0]] + keep)
    else
      var (k, gone) := Sifted(spans[1..], out[1..], keep);
      (k, [spans[0]] + gone)
  }

  /** From slot i on, cached spans that can be unmapped are, and kept ones take their slots; one look at a time. */
  function Traded(slots: seq<Span>, i: nat, keep: seq<Span>, out: seq<bool>): (seq<Span>, seq<Span>, seq<Span>)
    requires i <= |slots|
    decreases |keep|, |slots| - i
  {
    if keep == [] || i == |slots| then (slots, keep, [])
    else if out == [] || out[0] then Traded(slots, i + 1, keep, if out == [] then [] else out[1..])
    else
      var (s, k, gone) := Traded(slots[i := keep[0]], i, keep[1..], out[1..]);
      (s, k, [slots[i]] + gone)
  }

  function Settled(c: Cache, keep: seq<Span>, out: seq<bool>): (Cache, seq<Span>) {
    if keep == [] then (c, [])
    else
      var (s, k, gone) := Traded(c.slots, 0, keep, out);
      (Cache(s, k + c.overflow), gone)
  }

  function Extracted(c: Cache, n: nat): (Cache, seq<Span>) {
    var want := if n > |c.slots| then |c.slots| else n;
    var more := if n - want > |c.overflow| then |c.overflow| else n - want;
    (Cache(c.slots[..|c.slots| - want], c.overflow[more..]), c.slots[|c.slots| - want..] + c.overflow[..more])
  }

  // ----- nothing is lost or doubled

  lemma SplitMultiset(s: seq<Span>, i: nat)
    requires i <= |s|
    ensures multiset(s) == multiset(s[..i]) + multiset(s[i..])
  {
    assert s == s[..i] + s[i..];
  }

  lemma FrontMultiset(s: seq<Span>, rest: seq<Span>, v: Span)
    requires s == [v] + rest
    ensures multiset(s) == multiset{v} + multiset(rest)
  {
  }

  lemma {:induction false} SiftedCount(spans: seq<Span>, out: seq<bool>, keep: seq<Span>, x: Span)
    requires |out| == |spans|
    ensures var (k, gone) := Sifted(spans, out, keep);
            multiset(k)[x] + multiset(gone)[x] == multiset(spans)[x] + multiset(keep)[x]
    decreases |spans|
  {
    if spans != [] {
      FrontMultiset(spans, spans[1..], spans[0]);
      assert multiset(spans)[x] == multiset{spans[0]}[x] + multiset(spans[1..])[x];
      if out[0] {
        FrontMultiset([spans[0]] + keep, keep, spans[0]);
        SiftedCount(spans[1..], out[1..], [spans[0]] + keep, x);
      } else {
        var gone := Sifted(spans[1..], out[1..], keep).1;
        FrontMultiset([spans[0]] + gone, gone, spans[0]);
        SiftedCount(spans[1..], out[1..], keep, x);
      }
    }
  }

  /** Sorting out what did not fit loses nothing. */
  lemma SiftedKeeps(spans: seq<Span>, out: seq<bool>, keep: seq<Span>)
    requires |out| == |spans|
    ensures var (k, gone) := Sifted(spans, out, keep);
            multiset(k) + multiset(gone) == multiset(spans) + multiset(keep)
  {
    var (k, gone) := Sifted(spans, out, keep);
    forall x ensures (multiset(k) + multiset(gone))[x] == (multiset(spans) + multiset(keep))[x] {
      SiftedCount(spans, out, keep, x);
    }
  }

  /** The spans the looks say `which` of. */
  function Chosen(spans: seq<Span>, out: seq<bool>, which: bool): seq<Span>
    requires |out| == |spans|
  {
    if spans == [] then []
    else if out[0] == which then [spans[0]] + Chosen(spans[1..], out[1..], which)
    else Chosen(spans[1..], out[1..], which)
  }

  function Reversed(s: seq<Span>): seq<Span> { if s == [] then [] else Reversed(s[1..]) + [s[0]] }

  /** Exactly the spans with subspans out are kept, last first, and exactly the others unmapped. */
  lemma {:induction false} SiftedExactly(spans: seq<Span>, out: seq<bool>, keep: seq<Span>)
    requires |out| == |spans|
    ensures Sifted(spans, out, keep) == (Reversed(Chosen(spans, out, true)) + keep, Chosen(spans, out, false))
    decreases |spans|
  {
    if spans == [] {
      assert [] + keep == keep;
    } else {
      SiftedExactly(spans[1..], out[1..], if out[0] then [spans[0]] + keep else keep);
      if out[0] {
        var rest := Chosen(spans[1..], out[1..], true);
        assert ([spans[0]] + rest)[1..] == rest;
        assert Reversed(rest) + ([spans[0]] + keep) == (Reversed(rest) + [spans[0]]) + keep;
      }
    }
  }

  lemma ReplaceMultiset(s: seq<Span>, i: nat, v: Span)
    requires i < |s|
    ensures multiset(s[i := v]) + multiset{s[i]} == multiset(s) + multiset{v}
  {
    assert s[i] in multiset(s);
  }

  lemma {:induction false} TradedKeeps(slots: seq<Span>, i: nat, keep: seq<Span>, out: seq<bool>, x: Span)
    requires i <= |slots|
    ensures var (s, k, gone) := Traded(slots, i, keep, out);
            && |s| == |slots|
            && multiset(s)[x] + multiset(k)[x] + multiset(gone)[x] == multiset(slots)[x] + multiset(keep)[x]
    decreases |keep|, |slots| - i
  {
    if keep != [] && i < |slots| {
      if out == [] || out[0] {
        TradedKeeps(slots, i + 1, keep, if out == [] then [] else out[1..], x);
      } else {
        FrontMultiset(keep, keep[1..], keep[0]);
        ReplaceMultiset(slots, i, keep[0]);
        var (s, k, gone) := Traded(slots[i := keep[0]], i, keep[1..], out[1..]);
        FrontMultiset([slots[i]] + gone, gone, slots[i]);
        TradedKeeps(slots[i := keep[0]], i, keep[1..], out[1..], x);
        assert (multiset(slots[i := keep[0]]) + multiset{slots[i]})[x] == (multiset(slots) + multiset{keep[0]})[x];
      }
    }
  }

  /** How many of the first j looks find a span that can be unmapped. */
  function Frees(out: seq<bool>, j: nat): (n: nat)
    ensures n <= j
  {
    if j == 0 || out == [] then 0 else (if out[0] then 0 else 1) + Frees(out[1..], j - 1)
  }

  /** With n slots to go, the looks find one more than g spans that can be unmapped. */
  predicate Finds(out: seq<bool>, n: nat, g: nat) { Frees(out, g + n) > g }

  ghost predicate FindsBelow(out: seq<bool>, n: nat, m: nat) {
    forall g :: 0 <= g < m ==> Finds(out, n, g)
  }

  lemma FindsOn(out: seq<bool>, n: nat, m: nat)
    requires out != [] && n > 0 && FindsBelow(out[1..], if out[0] then n - 1 else n, m)
    ensures FindsBelow(out, n, if out[0] then m else m + 1)
  {
    forall g | 0 <= g < if out[0] then m else m + 1 ensures Finds(out, n, g) {
      if out[0] { assert Finds(out[1..], n - 1, g); } else if g > 0 { assert Finds(out[1..], n, g - 1); }
    }
  }

  /**
    How many spans are traded: each look that finds one that can be unmapped trades it for the next kept span, every
    other goes on to the next slot, and the loop stops when it has passed all slots, or has no kept span left.
  */
  lemma {:induction false} TradedExactly(slots: seq<Span>, i: nat, keep: seq<Span>, out: seq<bool>)
    requires i <= |slots|
    ensures var (_, k, gone), n := Traded(slots, i, keep, out), |slots| - i;
            && |gone| <= |keep| && k == keep[|gone|..]
            && (|gone| < |keep| ==> Frees(out, |gone| + n) == |gone|) && FindsBelow(out, n, |gone|)
    decreases |keep|, |slots| - i
  {
    if keep != [] && i < |slots| {
      var n := |slots| - i;
      if out == [] {
        TradedExactly(slots, i + 1, keep, []);
        assert |Traded(slots, i + 1, keep, []).2| == 0 by { NothingFound(n - 1, |Traded(slots, i + 1, keep, []).2|); }
      } else if out[0] {
        TradedExactly(slots, i + 1, keep, out[1..]);
        FindsOn(out, n, |Traded(slots, i + 1, keep, out[1..]).2|);
      } else {
        var traded := slots[i := keep[0]];
        TradedExactly(traded, i, keep[1..], out[1..]);
        FindsOn(out, n, |Traded(traded, i, keep[1..], out[1..]).2|);
      }
    }
  }

  lemma NothingFound(n: nat, m: nat)
    requires FindsBelow([], n, m)
    ensures m == 0
  {
    assert !Finds([], n, 0);
  }

  lemma {:induction false} SpilledKeeps(list: seq<Span>, spans: seq<Span>)
    ensures multiset(Spilled(list, spans)) == multiset(list) + multiset(spans)
    decreases |spans|
  {
    if spans != [] {
      SpilledKeeps([spans[0]] + list, spans[1..]);
      FrontMultiset(spans, spans[1..], spans[0]);
    }
  }

  /**
    The first section stores a prefix, as long as the limit lets it be; the rest is left, or with large pages on the
    overflow list.
  */
  lemma StoredKeeps(c: Cache, spans: seq<Span>, cap: Cap)
    requires |c.slots| <= cap.limit
    ensures c.slots <= Stored(c, spans, cap).slots <= c.slots + spans
    ensures |Stored(c, spans, cap).slots| == AtMost(|c.slots| + |spans|, cap.limit)
    ensures cap.unlimited ==> Over(c, spans, cap) == []
    ensures Held(Stored(c, spans, cap)) + multiset(Over(c, spans, cap)) == Held(c) + multiset(spans)
  {
    var n := Fitting(c, cap, |spans|);
    SplitMultiset(spans, n);
    SpilledKeeps(c.overflow, spans[n..]);
  }

  lemma SettledKeeps(c: Cache, keep: seq<Span>, out: seq<bool>)
    ensures var (d, gone) := Settled(c, keep, out);
            |d.slots| == |c.slots| && Held(d) + multiset(gone) == Held(c) + multiset(keep)
  {
    forall x
      ensures (Held(Settled(c, keep, out).0) + multiset(Settled(c, keep, out).1))[x] == (Held(c) + multiset(keep))[x]
    {
      TradedKeeps(c.slots, 0, keep, out, x);
    }
    TradedKeeps(c.slots, 0, keep, out, NO_SPAN);
  }

  /** Extracting removes exactly what it returns: n spans, or all there are. */
  lemma ExtractedKeeps(c: Cache, n: nat)
    ensures var (d, got) := Extracted(c, n);
            && |d.slots| <= |c.slots| && Held(d) + multiset(got) == Held(c)
            && |got| == AtMost(n, |c.slots| + |c.overflow|)
  {
    var want := if n > |c.slots| then |c.slots| else n;
    var more := if n - want > |c.overflow| then |c.overflow| else n - want;
    SplitMultiset(c.slots, |c.slots| - want);
    SplitMultiset(c.overflow, more);
  }

  /** From the top of the array, and from the overflow list only once that is empty. */
  lemma ExtractedExactly(c: Cache, n: nat)
    ensures var (d, got) := Extracted(c, n);
            && d.slots <= c.slots && |d.overflow| <= |c.overflow| && (|d.overflow| < |c.overflow| ==> d.slots == [])
            && got + d.overflow == c.slots[|d.slots|..] + c.overflow
  {
    var more := |c.overflow| - |Extracted(c, n).0.overflow|;
    assert c.overflow[..more] + c.overflow[more..] == c.overflow;
  }

  // ----- any number of threads

  /** Where a thread is in its insert: outside, past the first section, before the second. */
  datatype Hand =
    | Idle(owned: seq<Span>)
    | Left(rest: seq<Span>, owned: seq<Span>)
    | Keeping(keep: seq<Span>, owned: seq<Span>)

  datatype World = World(cache: Cache, hands: seq<Hand>, unmapped: seq<Span>)

  datatype Step =
    | Store(t: nat, n: nat)              // the first n of the thread's spans are inserted: the first section
    | Sift(t: nat, out: seq<bool>)
    | Settle(t: nat, out: seq<bool>)     // the second section
    | Extract(t: nat, n: nat)

  function InHand(h: Hand): multiset<Span> {
    match h
    case Idle(owned) => multiset(owned)
    case Left(rest, owned) => multiset(rest) + multiset(owned)
    case Keeping(keep, owned) => multiset(keep) + multiset(owned)
  }

  function InHands(hands: seq<Hand>): multiset<Span> {
    if hands == [] then multiset{} else InHands(hands[..|hands| - 1]) + InHand(hands[|hands| - 1])
  }

  function Everything(w: World): multiset<Span> { Held(w.cache) + InHands(w.hands) + multiset(w.unmapped) }

  predicate Possible(w: World, s: Step) {
    match s
    case Store(t, n) => t < |w.hands| && w.hands[t].Idle? && n <= |w.hands[t].owned|
    case Sift(t, out) => t < |w.hands| && w.hands[t].Left? && |out| == |w.hands[t].rest|
    case Settle(t, _) => t < |w.hands| && w.hands[t].Keeping?
    case Extract(t, _) => t < |w.hands| && w.hands[t].Idle?
  }

  function Next(w: World, cap: Cap, s: Step): World
    requires |w.cache.slots| <= cap.limit && Possible(w, s)
  {
    match s
    case Store(t, n) =>
      var owned := w.hands[t].owned;
      World(Stored(w.cache, owned[..n], cap),
            w.hands[t := Left(Over(w.cache, owned[..n], cap), owned[n..])], w.unmapped)
    case Sift(t, out) =>
      var (keep, gone) := Sifted(w.hands[t].rest, out, []);
      World(w.cache, w.hands[t := Keeping(keep, w.hands[t].owned)], w.unmapped + gone)
    case Settle(t, out) =>
      var (cache, gone) := Settled(w.cache, w.hands[t].keep, out);
      World(cache, w.hands[t := Idle(w.hands[t].owned)], w.unmapped + gone)
    case Extract(t, n) =>
      var (cache, got) := Extracted(w.cache, n);
      World(cache, w.hands[t := Idle(w.hands[t].owned + got)], w.unmapped)
  }

  lemma {:induction false} OneHand(hands: seq<Hand>, t: nat, h: Hand, x: Span)
    requires t < |hands|
    ensures InHands(hands[t := h])[x] + InHand(hands[t])[x] == InHands(hands)[x] + InHand(h)[x]
    decreases |hands|
  {
    var n := |hands| - 1;
    if t < n {
      assert hands[t := h][..n] == hands[..n][t := h];
      OneHand(hands[..n], t, h, x);
    } else {
      assert hands[t := h][..n] == hands[..n];
    }
  }

  /** How often x is in the cache, in the thread's hands or among the unmapped. */
  function Around(w: World, t: nat, x: Span): nat
    requires t < |w.hands|
  {
    Held(w.cache)[x] + InHand(w.hands[t])[x] + multiset(w.unmapped)[x]
  }

  lemma SiftMoves(w: World, cap: Cap, t: nat, out: seq<bool>, x: Span)
    requires |w.cache.slots| <= cap.limit && Possible(w, Sift(t, out))
    ensures Around(Next(w, cap, Sift(t, out)), t, x) == Around(w, t, x)
  {
    var (keep, gone) := Sifted(w.hands[t].rest, out, []);
    SiftedKeeps(w.hands[t].rest, out, []);
    assert (multiset(keep) + multiset(gone))[x] == multiset(w.hands[t].rest)[x];
    assert multiset(w.unmapped + gone)[x] == multiset(w.unmapped)[x] + multiset(gone)[x];
  }

  lemma SettleMoves(w: World, cap: Cap, t: nat, out: seq<bool>, x: Span)
    requires |w.cache.slots| <= cap.limit && Possible(w, Settle(t, out))
    ensures Around(Next(w, cap, Settle(t, out)), t, x) == Around(w, t, x)
    ensures |Next(w, cap, Settle(t, out)).cache.slots| <= cap.limit
  {
    var (cache, gone) := Settled(w.cache, w.hands[t].keep, out);
    SettledKeeps(w.cache, w.hands[t].keep, out);
    assert (Held(cache) + multiset(gone))[x] == (Held(w.cache) + multiset(w.hands[t].keep))[x];
    assert multiset(w.unmapped + gone)[x] == multiset(w.unmapped)[x] + multiset(gone)[x];
  }

  lemma StoreMoves(w: World, cap: Cap, t: nat, n: nat, x: Span)
    requires |w.cache.slots| <= cap.limit && Possible(w, Store(t, n))
    ensures Around(Next(w, cap, Store(t, n)), t, x) == Around(w, t, x)
    ensures |Next(w, cap, Store(t, n)).cache.slots| <= cap.limit
  {
    var owned := w.hands[t].owned;
    SplitMultiset(owned, n);
    StoredKeeps(w.cache, owned[..n], cap);
    var left := Over(w.cache, owned[..n], cap);
    var inserted: multiset<Span>, over: multiset<Span> := multiset(owned[..n]), multiset(left);
    assert (Held(Stored(w.cache, owned[..n], cap)) + over)[x] == (Held(w.cache) + inserted)[x];
  }

  lemma ExtractMoves(w: World, cap: Cap, t: nat, n: nat, x: Span)
    requires |w.cache.slots| <= cap.limit && Possible(w, Extract(t, n))
    ensures Around(Next(w, cap, Extract(t, n)), t, x) == Around(w, t, x)
    ensures |Next(w, cap, Extract(t, n)).cache.slots| <= cap.limit
  {
    var (cache, got) := Extracted(w.cache, n);
    ExtractedKeeps(w.cache, n);
    assert (Held(cache) + multiset(got))[x] == Held(w.cache)[x];
    assert multiset(w.hands[t].owned + got)[x] == multiset(w.hands[t].owned)[x] + multiset(got)[x];
  }

  /** What a step takes from one place it puts in another. */
  lemma NextMoves(w: World, cap: Cap, s: Step, x: Span)
    requires |w.cache.slots| <= cap.limit && Possible(w, s)
    ensures var v := Next(w, cap, s);
            && |v.cache.slots| <= cap.limit && |v.hands| == |w.hands| && v.hands == w.hands[s.t := v.hands[s.t]]
            && Around(v, s.t, x) == Around(w, s.t, x)
  {
    match s
    case Store(t, n) => StoreMoves(w, cap, t, n, x);
    case Sift(t, out) => SiftMoves(w, cap, t, out, x);
    case Settle(t, out) => SettleMoves(w, cap, t, out, x);
    case Extract(t, n) => ExtractMoves(w, cap, t, n, x);
  }

  /** A step moves spans between cache, hands and the unmapped, and leaves the count within the limit. */
  lemma NextKeeps(w: World, cap: Cap, s: Step)
    requires |w.cache.slots| <= cap.limit && Possible(w, s)
    ensures var v := Next(w, cap, s); |v.cache.slots| <= cap.limit && Everything(v) == Everything(w)
  {
    var v := Next(w, cap, s);
    NextMoves(w, cap, s, NO_SPAN);
    forall x ensures Everything(v)[x] == Everything(w)[x] {
      NextMoves(w, cap, s, x);
      OneHand(w.hands, s.t, v.hands[s.t], x);
    }
  }

  /** A run of the threads, each step on whatever the others have left. */
  function After(w: World, cap: Cap, steps: seq<Step>): (v: World)
    requires |w.cache.slots| <= cap.limit
    ensures |v.cache.slots| <= cap.limit
    decreases |steps|
  {
    if steps == [] then w
    else
      var v := After(w, cap, steps[..|steps| - 1]);
      var s := steps[|steps| - 1];
      if Possible(v, s) then NextKeeps(v, cap, s); Next(v, cap, s) else v
  }

  /** In every interleaving each span is in exactly one place, as often as it was at the start: once. */
  lemma {:induction false} EveryRun(w: World, cap: Cap, steps: seq<Step>)
    requires |w.cache.slots| <= cap.limit
    ensures Everything(After(w, cap, steps)) == Everything(w)
  {
    if steps != [] {
      EveryRun(w, cap, steps[..|steps| - 1]);
      var v := After(w, cap, steps[..|steps| - 1]);
      if Possible(v, steps[|steps| - 1]) { NextKeeps(v, cap, steps[|steps| - 1]); }
    }
  }
}
