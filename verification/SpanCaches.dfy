/** The span caches in place (rpmalloc.c): the global cache's array, and a heap's caches in front of the global ones. */
module SpanCaches {
  import opened GlobalCache
  import SuperSpan

  class SharedCache {
    const span: array<Span>
    var count: nat
    var overflow: seq<Span>
    const limit: nat
    const unlimited: bool

    ghost predicate Valid()
      reads this
    {
      count <= limit <= span.Length
    }

    function Bound(): Cap { Cap(limit, unlimited) }

    ghost function Now(): Cache
      requires Valid()
      reads this, span
    {
      Cache(span[..count], overflow)
    }

    constructor (n: nat, largePages: bool)
      requires 1 <= n <= SuperSpan.LARGE_CLASSES
      ensures Valid() && Now() == Cache([], []) && Bound() == Cap(Limit(n), largePages) && fresh(span)
    {
      span := new Span[CAPACITY](_ => NO_SPAN);
      count, overflow, limit, unlimited := 0, [], Limit(n), largePages;
    }

    /** The first locked section of an insert: how many of the spans went in. */
    method Store(spans: seq<Span>) returns (inserted: nat)
      requires Valid()
      modifies this`count, this`overflow, span
      ensures Valid() && inserted <= |spans| && Now() == Stored(old(Now()), spans, Bound())
      ensures spans[inserted..] == Over(old(Now()), spans, Bound())
    {
      inserted := Copy(spans);
      ghost var n, list := inserted, overflow;
      while unlimited && inserted < |spans|
        invariant Valid() && n <= inserted <= |spans| && Now().slots == old(Now()).slots + spans[..n]
        invariant unlimited ==> Spilled(list, spans[n..]) == Spilled(overflow, spans[inserted..])
        invariant !unlimited ==> inserted == n && overflow == list
        decreases |spans| - inserted
      {
        assert spans[inserted..][1..] == spans[inserted + 1..];
        overflow := [spans[inserted]] + overflow;
        inserted := inserted + 1;
      }
    }

    /** As many as fit are copied behind those in the array. */
    method Copy(spans: seq<Span>) returns (inserted: nat)
      requires Valid()
      modifies this`count, span
      ensures Valid() && inserted == Fitting(old(Now()), Bound(), |spans|)
      ensures Now() == old(Now()).(slots := old(Now()).slots + spans[..inserted])
    {
      inserted := |spans|;
      if count + inserted > limit { inserted := limit - count; }
      ghost var was := span[..count];
      for i := 0 to inserted
        invariant count == old(count) && span[..count + i] == was + spans[..i]
      {
        span[count + i] := spans[i];
        assert spans[..i + 1] == spans[..i] + [spans[i]];
        assert span[..count + (i + 1)] == span[..count + i] + [spans[i]];
      }
      count := count + inserted;
    }

    /** The second locked section: cached spans that can be unmapped are traded for kept ones. */
    method Settle(keep: seq<Span>, out: seq<bool>) returns (gone: seq<Span>)
      requires Valid()
      modifies this`overflow, span
      ensures Valid() && (Now(), gone) == Settled(old(Now()), keep, out)
    {
      gone := [];
      if keep == [] { return; }
      var islot, left, look := 0, 0, 0;
      ghost var was := span[..count];
      assert keep[0..] == keep && out[0..] == out && [] + Traded(was, 0, keep, out).2 == Traded(was, 0, keep, out).2;
      while left < |keep| && islot < count
        invariant overflow == old(overflow) && islot <= count && left <= |keep| && look <= |out|
        invariant var (s, k, g) := Traded(span[..count], islot, keep[left..], out[look..]);
                  Traded(was, 0, keep, out) == (s, k, gone + g)
        decreases |keep| - left, count - islot
      {
        if look < |out| && !out[look] {
          assert span[..count][islot := keep[left]] == span[..islot] + [keep[left]] + span[islot + 1..count];
          ghost var next := span[..count][islot := keep[left]];
          var old_span := span[islot];
          TradeOne(span[..count], islot, keep[left..], out[look..], gone);
          gone := gone + [old_span];
          span[islot] := keep[left];
          assert span[..count] == next;
          assert keep[left..][1..] == keep[left + 1..] && out[look..][1..] == out[look + 1..];
          left, look := left + 1, look + 1;
        } else {
          if look < |out| {
            assert out[look..][1..] == out[look + 1..];
            look := look + 1;
          }
          islot := islot + 1;
        }
      }
      assert keep[left..] == [] || islot == |span[..count]|;
      assert Traded(span[..count], islot, keep[left..], out[look..]) == (span[..count], keep[left..], []);
      assert gone + [] == gone;
      overflow := keep[left..] + overflow;
    }

    /** One look that trades, with what was unmapped before it. */
    static lemma TradeOne(slots: seq<Span>, i: nat, keep: seq<Span>, out: seq<bool>, gone: seq<Span>)
      requires i < |slots| && keep != [] && out != [] && !out[0]
      ensures var (s, k, g) := Traded(slots, i, keep, out);
              var (s', k', g') := Traded(slots[i := keep[0]], i, keep[1..], out[1..]);
              s == s' && k == k' && gone + g == (gone + [slots[i]]) + g'
    {
    }

    /** Up to n spans: from the top of the array, then from the overflow list. */
    method Extract(n: nat) returns (got: seq<Span>)
      requires Valid()
      modifies this`count, this`overflow
      ensures Valid() && (Now(), got) == Extracted(old(Now()), n)
    {
      var want := n;
      if want > count { want := count; }
      got := span[count - want..count];
      assert span[..count][count - want..] == got && span[..count][..count - want] == span[..count - want];
      count := count - want;
      ghost var top, list := got, overflow;
      var more := 0;
      while |got| < n && overflow != []
        invariant count == old(count) - want && more <= |list| && overflow == list[more..] &&
                  got == top + list[..more] && |got| <= n
        decreases |overflow|
      {
        assert list[..more + 1] == list[..more] + [list[more]];
        got := got + [overflow[0]];
        overflow := overflow[1..];
        more := more + 1;
      }
    }
  }

  /** The keep list and the spans unmapped, as _rpmalloc_global_cache_insert_spans sorts out what did not fit. */
  method Sift(spans: seq<Span>, out: seq<bool>) returns (keep: seq<Span>, gone: seq<Span>)
    requires |out| == |spans|
    ensures (keep, gone) == Sifted(spans, out, [])
  {
    keep, gone := [], [];
    assert spans[0..] == spans && out[0..] == out && [] + Sifted(spans, out, []).1 == Sifted(spans, out, []).1;
    for i := 0 to |spans|
      invariant var (k, g) := Sifted(spans[i..], out[i..], keep); Sifted(spans, out, []) == (k, gone + g)
    {
      assert spans[i..][1..] == spans[i + 1..] && out[i..][1..] == out[i + 1..];
      ghost var g := Sifted(spans[i + 1..], out[i + 1..], keep).1;
      assert gone + ([spans[i]] + g) == (gone + [spans[i]]) + g;
      if out[i] {
        keep := [spans[i]] + keep;
      } else {
        gone := gone + [spans[i]];
      }
    }
    assert gone + [] == gone;
  }

  /** A whole insert, undisturbed: every span given and every span cached before is cached, or unmapped. */
  method InsertSpans(cache: SharedCache, spans: seq<Span>, out: seq<bool>, later: seq<bool>) returns (gone: seq<Span>)
    requires cache.Valid() && |out| == |spans|
    modifies cache, cache.span
    ensures cache.Valid() && |cache.Now().slots| <= cache.limit
    ensures Held(cache.Now()) + multiset(gone) == old(Held(cache.Now())) + multiset(spans)
  {
    ghost var c0 := cache.Now();
    StoredKeeps(c0, spans, cache.Bound());
    var inserted := cache.Store(spans);
    var keep, unmapped := Sift(spans[inserted..], out[inserted..]);
    SiftedKeeps(spans[inserted..], out[inserted..], []);
    SettledKeeps(cache.Now(), keep, later);
    var traded := cache.Settle(keep, later);
    gone := unmapped + traded;
    ghost var h1: multiset<Span> := Held(Stored(c0, spans, cache.Bound()));
    ghost var rest: multiset<Span> := multiset(spans[inserted..]);
    forall x ensures (Held(cache.Now()) + multiset(gone))[x] == (Held(c0) + multiset(spans))[x] {
      assert (h1 + rest)[x] == (Held(c0) + multiset(spans))[x];
      assert (multiset(keep) + multiset(unmapped))[x] == rest[x];
      assert (Held(cache.Now()) + multiset(traded))[x] == (h1 + multiset(keep))[x];
    }
  }
}
