/** The mapping layer itself (rpmalloc.c): reserves and super-span headers updated in place, as SuperSpan's steps. */
module SpanMapper {
  import opened SuperSpan
  import opened SuperSpanSafety
  import opened SuperSpanTheorems

  class Mapper {
    const config: Config
    var regions: seq<Region>
    var heaps: seq<Reserve>
    var global: Reserve

    ghost predicate Valid()
      reads this
    {
      Sound(Now(), config)
    }

    function Now(): State
      reads this
    {
      State(regions, heaps, global)
    }

    constructor (config: Config)
      requires WholePages(config)
      ensures Valid() && this.config == config && Now() == State([], [], EMPTY)
    {
      this.config := config;
      regions, heaps, global := [], [], EMPTY;
    }

    /** _rpmalloc_span_mark_as_subspan_unless_master */
    method Mark(r: nat, at: nat, n: nat)
      requires r < |regions| && at + n <= |regions[r].units|
      modifies this`regions
      ensures regions == old(regions)[r := Carve(old(regions)[r], at, n)]
    {
      var reg := regions[r];
      var head := Head(n, false, at);
      if at == 0 { head := head.(master := true); }
      regions := regions[r := reg.(units := Fill(reg.units, at, n, Span(at)), heads := reg.heads[at := head])];
    }

    /** _rpmalloc_span_map_from_reserve */
    method MapFromReserve(h: nat, k: nat) returns (a: Address)
      requires Inv(Now()) && h < |heaps| && 1 <= k <= heaps[h].count
      modifies this`regions, this`heaps
      ensures InRegion(old(Now()), old(heaps[h])) && (Now(), a) == TakeHeap(old(Now()), h, k)
      ensures Inv(Now()) && Handed(Now(), a, k)
    {
      TakeHeapKeeps(Now(), h, k);
      var rv := heaps[h];
      heaps := heaps[h := rv.(at := rv.at + k, count := rv.count - k)];
      Mark(rv.region, rv.at, k);
      a := Address(rv.region, rv.at);
    }

    /** _rpmalloc_global_get_reserved_spans */
    method GetReserved(k: nat) returns (a: Address)
      requires Inv(Now()) && 1 <= k <= global.count
      modifies this`regions, this`global
      ensures InRegion(old(Now()), old(global)) && (Now(), a) == TakeGlobal(old(Now()), k)
      ensures Inv(Now()) && Handed(Now(), a, k)
    {
      TakeGlobalKeeps(Now(), k);
      var rv := global;
      Mark(rv.region, rv.at, k);
      global := rv.(at := rv.at + k, count := rv.count - k);
      a := Address(rv.region, rv.at);
    }

    /** _rpmalloc_span_unmap; true when it was the last piece and the whole region went. */
    method UnmapPiece(a: Address) returns (whole: bool)
      requires Inv(Now()) && a.region < |regions| && a.at in regions[a.region].heads
      modifies this`regions
      ensures SpanAt(old(Now()), a) && Now() == SuperSpan.UnmapSpan(old(Now()), a) && Inv(Now())
      ensures whole == (Mapped(regions[a.region].units) == 0)
    {
      UnmapSpanKeeps(Now(), a);
      var reg := regions[a.region];
      var head := reg.heads[a.at];
      var live, released := reg.live, reg.released;
      if head.master { live := false; }
      var left := reg.remaining - head.count;
      whole := left <= 0;
      if whole { released := released + 1; }
      var units := Fill(reg.units, a.at, head.count, Unmapped);
      regions := regions[a.region := Region(units, reg.heads - {a.at}, left, live, released)];
      assert RegionOk(regions[a.region]);
    }

    /** The tail of a span becomes the reserve of a heap that has none. */
    method SetReserve(h: nat, a: Address, keep: nat)
      requires Inv(Now()) && h < |heaps| && heaps[h].count == 0
      requires a.region < |regions| && a.at in regions[a.region].heads && keep < regions[a.region].heads[a.at].count
      modifies this`regions, this`heaps
      ensures SpanAt(old(Now()), a) && Now() == HoldSpan(old(Now()), h, a, keep) && Inv(Now())
    {
      HoldSpanKeeps(Now(), h, a, keep);
      var n := regions[a.region].heads[a.at].count;
      regions := regions[a.region := Hold(regions[a.region], a.at, keep, h)];
      heaps := heaps[h := Reserve(a.region, a.at + keep, n - keep)];
    }

    /** A heap's leftover reserve goes to its cache as a span. */
    method CacheLeftover(h: nat)
      requires Inv(Now()) && h < |heaps|
      modifies this`regions, this`heaps
      ensures old(heaps[h]).count > 0 ==> InRegion(old(Now()), old(heaps[h]))
      ensures Inv(Now()) && Now() == CacheReserve(old(Now()), h)
    {
      CacheReserveKeeps(Now(), h);
      if heaps[h].count > 0 { var _ := MapFromReserve(h, heaps[h].count); }
    }

    /** What is left of the global reserve is unmapped. */
    method DropGlobal()
      requires Inv(Now())
      modifies this`regions, this`global
      ensures old(global).count > 0 ==> InRegion(old(Now()), old(global))
      ensures Inv(Now()) && Now() == UnmapGlobal(old(Now()))
    {
      UnmapGlobalKeeps(Now());
      if global.count > 0 {
        var left := GetReserved(global.count);
        var _ := UnmapPiece(left);
      }
    }

    /** The new region, cut into the span, the heap's reserve and the rest. */
    method Cut(h: nat, k: nat, extra: nat)
      requires h < |heaps|
      modifies this`regions, this`heaps, this`global
      ensures Now() == AddSplit(old(Now()), config, h, k, extra)
    {
      var r, reserve := |regions|, extra;
      if extra > Quota(config) {
        reserve := Quota(config);
        global := Reserve(r, k + reserve, extra - reserve);
      }
      regions := regions + [Fresh(k, h, reserve, extra - reserve)];
      if reserve > 0 { heaps := heaps[h := Reserve(r, k, reserve)]; }
    }

    /** _rpmalloc_span_map_aligned_count */
    method MapAligned(h: nat, k: nat) returns (a: Address)
      requires Valid() && h < |heaps| && k >= 1
      modifies this`regions, this`heaps, this`global
      ensures (old(heaps[h]).count > 0 ==> InRegion(old(Now()), old(heaps[h])))
      ensures (old(global).count > 0 ==> InRegion(old(Now()), old(global)))
      ensures MapNew(old(Now()), config, h, k) == Given(Now(), a) && Valid() && Handed(Now(), a, k)
    {
      MapNewKeeps(Now(), config, h, k);
      CacheReserveKeeps(Now(), h);
      var r, extra := |regions|, AlignCount(config, k) - k;
      if extra > 0 { CacheLeftover(h); }
      if extra > Quota(config) { DropGlobal(); }
      Cut(h, k, extra);
      return Address(r, 0);
    }

    /** The part of _rpmalloc_span_map that is served from the global reserve. */
    method MapShared(h: nat, k: nat) returns (a: Address)
      requires Valid() && h < |heaps| && heaps[h].count < k && 1 <= k <= FromGlobal(Now(), config, h, k)
      modifies this`regions, this`heaps, this`global
      ensures InRegion(old(Now()), old(global)) && MapGlobal(old(Now()), config, h, k) == Given(Now(), a)
      ensures Valid() && Handed(Now(), a, k)
    {
      MapGlobalKeeps(Now(), config, h, k);
      var n := if heaps[h].count == 0 then Quota(config) else k;
      if global.count < n { n := global.count; }
      a := GetReserved(n);
      if n > k { SetReserve(h, a, k); }
    }

    /** _rpmalloc_span_map; fails when the kernel has no memory. */
    method Map(h: nat, k: nat, memory: bool) returns (a: Address, ok: bool)
      requires Valid() && h < |heaps| && 1 <= k <= LARGE_CLASSES
      modifies this`regions, this`heaps, this`global
      ensures (old(heaps[h]).count > 0 ==> InRegion(old(Now()), old(heaps[h])))
      ensures (old(global).count > 0 ==> InRegion(old(Now()), old(global)))
      ensures old(global).count >= k ==> FromGlobal(old(Now()), config, h, k) >= k
      ensures SuperSpan.Map(old(Now()), config, h, k, memory) == if ok then Given(Now(), a) else NoMemory(Now())
      ensures Valid() && (ok ==> Handed(Now(), a, k)) && (!ok ==> Now() == old(Now()))
    {
      MapKeeps(Now(), config, h, k, memory);
      a, ok := Address(0, 0), true;
      if k <= heaps[h].count {
        a := MapFromReserve(h, k);
      } else if UsesGlobal(config) && global.count >= k {
        a := MapShared(h, k);
      } else if memory {
        a := MapAligned(h, k);
      } else {
        ok := false;
      }
    }
  }
}
