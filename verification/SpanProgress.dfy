/**
  What the operations of the block protocol come to, once begun, whatever the other threads do meanwhile; and that
  every operation can be brought to its end.
*/
module SpanProgress {
  import opened Options
  import opened SpanProtocol
  import opened SpanSafety
  import opened SpanTheorems
  import SpanOwner

  /** The owner begins something new. */
  predicate OwnerBegins(a: Action) {
    a.AllocFast? || a.AllocSlow? || a.AllocNew? || a.FreeLocal? || a.AdoptAll?
  }

  /** In this run the owner begins nothing new. */
  ghost predicate GoesOn(run: seq<Action>) {
    forall a :: a in run ==> !OwnerBegins(a)
  }

  /** No block of the span is with a user, in a hand or on the class free list. */
  ghost predicate NoneOut(st: State, s: SpanId) {
    && (forall b :: !UserHolds(st, s, b)) && (forall w, b :: !HasBlock(st, w, s, b)) && ClassList(st, s) == []
  }

  lemma OutIs(st: State, s: SpanId)
    requires Inv(st) && IsActive(st, s)
    ensures NothingOut(st.spans[s]) <==> NoneOut(st, s)
  {
    var sp := st.spans[s];
    assert SpanOk(st, s);
    HeadIn(ClassList(st, s));
    if NothingOut(sp) {
      forall w, b: nat ensures !HasBlock(st, w, s, b) {
        if w.Remote? { assert RemoteOk(st, w.t); }
      }
    } else {
      var b :| 0 <= b < |sp.place| && !(sp.place[b].InSpan? || sp.place[b].InDeferred? || sp.place[b].Uninit?);
      assert sp.place[b] == User ==> UserHolds(st, s, b);
      assert sp.place[b].Hand? ==> HasBlock(st, sp.place[b].w, s, b);
    }
  }

  /** The span a remote thread's step is about. */
  function Target(st: State, a: Action): SpanId
    requires RemoteAction(a) && Enabled(st, a)
  {
    if a.FreeRemote? then a.s else Pc(st, a.t).s
  }

  lemma Elsewhere(st: State, a: Action, s: SpanId)
    requires RemoteAction(a) && Enabled(st, a) && s < |st.spans| && Target(st, a) != s
    ensures SameAt(st, Apply(st, a), s)
  {
  }

  /** To the owner and to span s nothing has changed. */
  ghost predicate SameAt(st: State, st': State, s: SpanId)
    requires s < |st.spans|
  {
    st'.owner == st.owner && |st'.spans| == |st.spans| && st'.spans[s] == st.spans[s]
  }

  /** A remote thread whose step is about the span is where it says. */
  lemma TargetOk(st: State, a: Action, s: SpanId)
    requires Inv(st) && RemoteAction(a) && Enabled(st, a) && Target(st, a) == s
    ensures a.t < |st.threads| && RemoteOk(st, a.t)
  {
  }

  // ----- a free

  /** The block is neither with a user nor about to be. */
  ghost predicate GivenBack(st: State, s: SpanId, b: nat) {
    && s < |st.spans|
    && (st.spans[s].phase == Active ==>
          b < |st.spans[s].place| && st.spans[s].place[b] != User && st.spans[s].place[b] != Hand(Owner))
  }

  lemma GivenBackStep(st: State, a: Action, s: SpanId, b: nat)
    requires OwnerOk(st) && Enabled(st, a) && !OwnerBegins(a) && GivenBack(st, s, b)
    ensures GivenBack(Apply(st, a), s, b)
  {
    if RemoteAction(a) { GivenBackRemote(st, a, s, b); } else { GivenBackOwner(st, a, s, b); }
  }

  lemma GivenBackRemote(st: State, a: Action, s: SpanId, b: nat)
    requires Enabled(st, a) && RemoteAction(a) && GivenBack(st, s, b)
    ensures GivenBack(Apply(st, a), s, b)
  {
    if Target(st, a) != s { Elsewhere(st, a, s); }
  }

  lemma GivenBackOwner(st: State, a: Action, s: SpanId, b: nat)
    requires OwnerOk(st) && Enabled(st, a) && !RemoteAction(a) && !OwnerBegins(a) && GivenBack(st, s, b)
    ensures GivenBack(Apply(st, a), s, b)
  {
  }

  lemma FreeGivesBack(st: State, a: Action)
    requires (a.FreeLocal? || a.FreeRemote?) && Enabled(st, a)
    ensures UserHolds(st, a.s, a.b) && GivenBack(Apply(st, a), a.s, a.b)
  {
  }

  lemma {:induction false} GivenBackOn(st: State, s: SpanId, b: nat, run: seq<Action>)
    requires Inv(st) && GivenBack(st, s, b) && IsRun(st, run) && GoesOn(run)
    ensures GivenBack(After(st, run), s, b)
    decreases |run|
  {
    if run != [] {
      GivenBackStep(st, run[0], s, b);
      StepKeeps(st, run[0]);
      GivenBackOn(Apply(st, run[0]), s, b, run[1..]);
    }
  }

  /** A block freed, by whichever thread, is with no user again before the owner begins another allocation. */
  lemma FreedIsBack(st: State, a: Action, run: seq<Action>)
    requires Reachable(st) && (a.FreeLocal? || a.FreeRemote?) && Enabled(st, a)
    requires IsRun(Apply(st, a), run) && GoesOn(run)
    ensures UserHolds(st, a.s, a.b) && !UserHolds(After(Apply(st, a), run), a.s, a.b)
  {
    ReachableInv(st);
    StepKeeps(st, a);
    FreeGivesBack(st, a);
    GivenBackOn(Apply(st, a), a.s, a.b, run);
  }

  /** As many free and deferred blocks as laid out ones, if nothing is out. */
  lemma AllBack(n: nat, sp: Span, cls: seq<nat>)
    requires BlocksOk(n, sp, cls) && NothingOut(sp)
    ensures |sp.free.blocks| + |sp.deferred| == sp.limit
  {
    var below := SpanProtocol.Range(0, sp.limit);
    DeferredBelow(n, sp, cls);
    DistinctSet(below); DistinctSet(sp.free.blocks); DistinctSet(sp.deferred);
    forall x | x in Elements(below) ensures x in Elements(sp.free.blocks) + Elements(sp.deferred) {
      assert sp.place[x].InSpan? || sp.place[x].InDeferred?;
    }
    Subset(Elements(below), Elements(sp.free.blocks) + Elements(sp.deferred));
  }

  /**
    The owner's test after a free: it goes on to retire the span exactly if no block of it is out, and then takes the
    lock first exactly if there are deferred blocks.
  */
  lemma CompareExactly(st: State, s: SpanId)
    requires Reachable(st) && st.owner == Freed(s)
    ensures IsActive(st, s)
    ensures !NoneOut(st, s) ==> CompareCounts(st).owner == Ready
    ensures NoneOut(st, s) ==> CompareCounts(st).owner == if st.spans[s].deferred == [] then Retire(s) else Sync(s)
  {
    ReachableInv(st);
    CompareIs(st, s);
  }

  lemma CompareIs(st: State, s: SpanId)
    requires Inv(st) && st.owner == Freed(s)
    ensures IsActive(st, s)
    ensures !NoneOut(st, s) ==> CompareCounts(st).owner == Ready
    ensures NoneOut(st, s) ==> CompareCounts(st).owner == if st.spans[s].deferred == [] then Retire(s) else Sync(s)
  {
    var sp, cls := st.spans[s], ClassList(st, s);
    assert SpanOk(st, s);
    OutIs(st, s);
    if NothingOut(sp) { AllBack(st.n, sp, cls); }
    else if sp.used == sp.listSize { AllAccounted(st.n, sp, cls); }
  }

  /** The owner is retiring the span, or about to find that it may. */
  ghost predicate Retiring(st: State, s: SpanId) {
    && (st.owner == Freed(s) || st.owner == Sync(s) || (st.owner.Synced? && st.owner.s == s) || st.owner == Retire(s))
    && IsActive(st, s) && NothingOut(st.spans[s])
  }

  /** With nothing out, a remote thread inside an active span can only be about to release the word. */
  lemma OnlyRelease(st: State, a: Action, s: SpanId)
    requires RemoteAction(a) && Enabled(st, a) && Target(st, a) == s && RemoteOk(st, a.t)
    requires IsActive(st, s) && NothingOut(st.spans[s])
    ensures a.RemoteRelease?
  {
  }

  /** Not all blocks are deferred where one is on the span's own list, or out. */
  lemma NotAll(st: State, s: SpanId, t: nat)
    requires Inv(st) && IsActive(st, s) && Pc(st, t).Linked? && Pc(st, t).s == s
    requires st.spans[s].free != List([]) || !NothingOut(st.spans[s])
    ensures !Pc(st, t).all
  {
    var sp, cls := st.spans[s], ClassList(st, s);
    assert SpanOk(st, s) && RemoteOk(st, t);
    DeferredBelow(st.n, sp, cls);
    if |sp.deferred| == st.n { AllAccounted(st.n, sp, cls); }
  }

  lemma RemoteLeaves(st: State, a: Action, s: SpanId)
    requires Inv(st) && RemoteAction(a) && Enabled(st, a) && Retiring(st, s)
    ensures Retiring(Apply(st, a), s) && Apply(st, a).spans[s].retired == st.spans[s].retired
  {
    if Target(st, a) != s { Elsewhere(st, a, s); } else { LeavesHere(st, a, s); }
  }

  lemma LeavesHere(st: State, a: Action, s: SpanId)
    requires Inv(st) && RemoteAction(a) && Enabled(st, a) && Retiring(st, s) && Target(st, a) == s
    ensures Retiring(Apply(st, a), s) && Apply(st, a).spans[s].retired == st.spans[s].retired
  {
    TargetOk(st, a, s);
    OnlyRelease(st, a, s);
    NotAll(st, s, a.t);
    ReleaseLeaves(st, a.t, s);
  }

  lemma ReleaseLeaves(st: State, t: nat, s: SpanId)
    requires Pc(st, t).Linked? && Pc(st, t).s == s && !Pc(st, t).all && Retiring(st, s)
    ensures Retiring(UnlockRemote(st, t), s) && UnlockRemote(st, t).spans[s].retired == st.spans[s].retired
  {
  }

  lemma RetiringStep(st: State, a: Action, s: SpanId)
    requires Inv(st) && Enabled(st, a) && Retiring(st, s)
    ensures a != Unlink ==> Retiring(Apply(st, a), s) && Apply(st, a).spans[s].retired == st.spans[s].retired
    ensures a == Unlink ==> Retired(Apply(st, a), s, st.spans[s].retired + 1)
  {
    if RemoteAction(a) {
      RemoteLeaves(st, a, s);
    } else if a == Compare {
      OutIs(st, s);
      CompareIs(st, s);
    }
  }

  /** The owner is done, and the span is in the cache. */
  ghost predicate Retired(st: State, s: SpanId, times: nat) {
    st.owner == Ready && s < |st.spans| && st.spans[s].phase == Cached && st.spans[s].retired == times
  }

  lemma RetiredStep(st: State, a: Action, s: SpanId, times: nat)
    requires Inv(st) && Enabled(st, a) && !OwnerBegins(a) && Retired(st, s, times)
    ensures Retired(Apply(st, a), s, times)
  {
    assert RemoteAction(a) && a.t < |st.threads| && RemoteOk(st, a.t);
    Elsewhere(st, a, s);
  }

  ghost predicate Ending(st: State, s: SpanId, times: nat) {
    (Retiring(st, s) && st.spans[s].retired + 1 == times) || Retired(st, s, times)
  }

  lemma {:induction false} EndingOn(st: State, s: SpanId, times: nat, run: seq<Action>)
    requires Inv(st) && Ending(st, s, times) && IsRun(st, run) && GoesOn(run)
    ensures Ending(After(st, run), s, times)
    decreases |run|
  {
    if run != [] {
      if Retiring(st, s) { RetiringStep(st, run[0], s); } else { RetiredStep(st, run[0], s, times); }
      StepKeeps(st, run[0]);
      EndingOn(Apply(st, run[0]), s, times, run[1..]);
    }
  }

  /**
    If the owner has freed a block of s and no block of s is out, then however that free goes on to its end, s is then
    in the cache, and retired once more.
  */
  lemma FreeComesTo(st: State, s: SpanId, run: seq<Action>)
    requires Reachable(st) && st.owner == Freed(s) && NoneOut(st, s)
    requires IsRun(st, run) && GoesOn(run) && After(st, run).owner == Ready
    ensures s < |st.spans| && Retired(After(st, run), s, st.spans[s].retired + 1)
  {
    ReachableInv(st);
    OutIs(st, s);
    EndingOn(st, s, st.spans[s].retired + 1, run);
  }

  // ----- a slow allocation

  /** The blocks wait on the deferred list for the owner's exchange, or have come to the span's free list with it. */
  ghost predicate Fetching(st: State, s: SpanId, b: nat, blocks: seq<nat>) {
    && IsActive(st, s)
    && match st.owner
       case Took(s', b') => s' == s && b' == b && forall x :: x in blocks ==> x in st.spans[s].deferred
       case Extract(s', b') => s' == s && b' == b && forall x :: x in blocks ==> x in st.spans[s].deferred
       case Extracted(s', b') => s' == s && b' == b && Fetched(st.spans[s], blocks)
       case Restore(s', b') => s' == s && b' == b && Fetched(st.spans[s], blocks)
       case Finish(s', b') => s' == s && b' == b && Fetched(st.spans[s], blocks)
       case Ready => Fetched(st.spans[s], blocks)
       case _ => false
  }

  ghost predicate Fetched(sp: Span, blocks: seq<nat>) {
    sp.free.List? && forall x :: x in blocks ==> x in sp.free.blocks
  }

  lemma FetchingRemote(st: State, a: Action, s: SpanId, b: nat, blocks: seq<nat>)
    requires Inv(st) && RemoteAction(a) && Enabled(st, a) && Fetching(st, s, b, blocks) && blocks != []
    ensures Fetching(Apply(st, a), s, b, blocks)
  {
    if Target(st, a) != s { Elsewhere(st, a, s); } else { FetchingHere(st, a, s, b, blocks); }
  }

  lemma FetchingHere(st: State, a: Action, s: SpanId, b: nat, blocks: seq<nat>)
    requires Inv(st) && RemoteAction(a) && Enabled(st, a) && Target(st, a) == s && Fetching(st, s, b, blocks)
    requires blocks != []
    ensures Fetching(Apply(st, a), s, b, blocks)
  {
    TargetOk(st, a, s);
    if a.RemoteRelease? {
      FetchingSome(st, s, b, blocks);
      NotAll(st, s, a.t);
    }
    FetchingTarget(st, a, s, b, blocks);
  }

  lemma FetchingSome(st: State, s: SpanId, b: nat, blocks: seq<nat>)
    requires OwnerOk(st) && Fetching(st, s, b, blocks) && blocks != []
    ensures st.spans[s].free != List([]) || !NothingOut(st.spans[s])
  {
    HeadIn(blocks);
  }

  lemma FetchingTarget(st: State, a: Action, s: SpanId, b: nat, blocks: seq<nat>)
    requires RemoteAction(a) && Enabled(st, a) && Target(st, a) == s && Fetching(st, s, b, blocks)
    requires RemoteOk(st, a.t) && (a.RemoteRelease? ==> !Pc(st, a.t).all)
    ensures Fetching(Apply(st, a), s, b, blocks)
  {
  }

  lemma FetchingOwner(st: State, a: Action, s: SpanId, b: nat, blocks: seq<nat>)
    requires Inv(st) && !RemoteAction(a) && !OwnerBegins(a) && Enabled(st, a) && Fetching(st, s, b, blocks)
    ensures Fetching(Apply(st, a), s, b, blocks)
  {
    assert SpanOk(st, s);
    HeadIn(blocks);
  }

  /** The slow allocation takes the lock exactly if there are deferred blocks, or a remote thread is adding one. */
  lemma LoadExactly(st: State, s: SpanId, b: nat)
    requires Reachable(st) && st.owner == Took(s, b)
    ensures IsActive(st, s)
    ensures LoadWord(st).owner ==
            if st.spans[s].deferred == [] && st.spans[s].holder == None then Finish(s, b) else Extract(s, b)
  {
    ReachableInv(st);
    assert SpanOk(st, s);
  }

  lemma {:induction false} FetchingOn(st: State, s: SpanId, b: nat, blocks: seq<nat>, run: seq<Action>)
    requires Inv(st) && Fetching(st, s, b, blocks) && blocks != [] && IsRun(st, run) && GoesOn(run)
    ensures Fetching(After(st, run), s, b, blocks)
    decreases |run|
  {
    if run != [] {
      if RemoteAction(run[0]) { FetchingRemote(st, run[0], s, b, blocks); }
      else { FetchingOwner(st, run[0], s, b, blocks); }
      StepKeeps(st, run[0]);
      FetchingOn(Apply(st, run[0]), s, b, blocks, run[1..]);
    }
  }

  /**
    The slow allocation leaves no deferred block behind: those there were when it took its block are on the span's own
    list at its end, however it comes to that end.
  */
  lemma AllocationFetches(st: State, s: SpanId, b: nat, x: nat, run: seq<Action>)
    requires Reachable(st) && st.owner == Took(s, b) && s < |st.spans| && x in st.spans[s].deferred
    requires IsRun(st, run) && GoesOn(run) && After(st, run).owner == Ready
    ensures var st' := After(st, run); IsActive(st', s) && st'.spans[s].free.List? && x in st'.spans[s].free.blocks
  {
    ReachableInv(st);
    FetchingOn(st, s, b, st.spans[s].deferred, run);
  }

  // ----- any allocation

  predicate Allocates(a: Action) { a.AllocFast? || a.AllocSlow? || a.AllocNew? }

  /** Between its operations the owner can allocate, unless every span of the class is full and none is in a cache. */
  lemma AllocationServed(st: State) returns (a: Action)
    requires Reachable(st) && st.owner == Ready
    requires st.classFree != [] || st.partial != [] || exists s :: IsCached(st, s)
    ensures Enabled(st, a) && Allocates(a)
  {
    ReachableInv(st);
    if st.classFree != [] {
      a := AllocFast;
    } else if st.partial != [] {
      a := AllocSlow(1);
      HeadServes(st);
    } else {
      var s :| IsCached(st, s);
      a := AllocNew(s, 1);
    }
  }

  predicate IsCached(st: State, s: SpanId) { s < |st.spans| && st.spans[s].phase == Cached }

  /** A span on the partial list has a block listed, or one that is not laid out yet. */
  lemma HeadServes(st: State)
    requires Inv(st) && st.owner == Ready && st.classFree == [] && st.partial != []
    ensures CanTake(st, 1)
  {
    assert st.partial[0] in st.partial && SpanOk(st, st.partial[0]);
  }

  /** The fast path, and a new span, give a block at once that no user had. */
  lemma AllocatesAtOnce(st: State, a: Action)
    requires Reachable(st) && Enabled(st, a) && (a.AllocFast? || a.AllocNew?)
    ensures var s, b := if a.AllocFast? then st.classSpan else a.s, if a.AllocFast? then st.classFree[0] else 0;
            !UserHolds(st, s, b) && UserHolds(Apply(st, a), s, b) && Apply(st, a).owner == Ready
  {
    ReachableInv(st);
    if a.AllocFast? { HeadIn(st.classFree); assert SpanOk(st, st.classSpan); }
  }

  /** The block of a slow allocation: in the owner's hand, and the user's once it is over. */
  ghost predicate Giving(st: State, s: SpanId, b: nat) {
    IsBlock(st, s, b) && if st.owner == Ready then st.spans[s].place[b] == User
                         else HasBlock(st, Owner, s, b) && st.spans[s].place[b] == Hand(Owner)
  }

  lemma GivingOwner(st: State, a: Action, s: SpanId, b: nat)
    requires OwnerOk(st) && !RemoteAction(a) && !OwnerBegins(a) && Enabled(st, a) && Giving(st, s, b)
    requires st.owner.Extract? && st.spans[s].word.Blocks? ==> b !in st.spans[s].word.list
    ensures Giving(Apply(st, a), s, b)
  {
  }

  /** A block in the owner's hand is on no list. */
  lemma GivingUnlisted(st: State, s: SpanId, b: nat)
    requires Inv(st) && Giving(st, s, b)
    ensures st.spans[s].word.Blocks? ==> b !in st.spans[s].word.list
  {
    assert SpanOk(st, s);
  }

  lemma GivingRemote(st: State, a: Action, s: SpanId, b: nat)
    requires Inv(st) && RemoteAction(a) && Enabled(st, a) && Giving(st, s, b)
    requires !(a.FreeRemote? && a.s == s && a.b == b)
    ensures Giving(Apply(st, a), s, b)
  {
    if Target(st, a) != s {
      Elsewhere(st, a, s);
    } else {
      TargetOk(st, a, s);
      if a.RemoteRelease? { NotAll(st, s, a.t); }
      GivingHere(st, a, s, b);
    }
  }

  lemma GivingHere(st: State, a: Action, s: SpanId, b: nat)
    requires RemoteAction(a) && Enabled(st, a) && Target(st, a) == s && Giving(st, s, b) && RemoteOk(st, a.t)
    requires !(a.FreeRemote? && a.s == s && a.b == b) && (a.RemoteRelease? ==> !Pc(st, a.t).all)
    ensures Giving(Apply(st, a), s, b)
  {
  }

  lemma {:induction false} GivingOn(st: State, s: SpanId, b: nat, run: seq<Action>)
    requires Inv(st) && Giving(st, s, b) && IsRun(st, run) && GoesOn(run)
    requires forall a <- run :: !(a.FreeRemote? && a.s == s && a.b == b)
    ensures Giving(After(st, run), s, b)
    decreases |run|
  {
    if run != [] {
      if RemoteAction(run[0]) {
        GivingRemote(st, run[0], s, b);
      } else {
        GivingUnlisted(st, s, b);
        GivingOwner(st, run[0], s, b);
      }
      StepKeeps(st, run[0]);
      GivingOn(Apply(st, run[0]), s, b, run[1..]);
    }
  }

  /** A slow allocation gives its user the block it took, however it comes to its end, unless that is freed already. */
  lemma AllocationGives(st: State, s: SpanId, b: nat, run: seq<Action>)
    requires Reachable(st) && st.owner == Took(s, b) && IsRun(st, run) && GoesOn(run)
    requires forall a <- run :: !(a.FreeRemote? && a.s == s && a.b == b)
    requires After(st, run).owner == Ready
    ensures UserHolds(After(st, run), s, b)
  {
    ReachableInv(st);
    GivingOn(st, s, b, run);
  }

  // ----- the adoption of the spans other threads freed

  /** Each of the spans is still to be walked past, or in the cache. */
  ghost predicate Adopting(st: State, ids: seq<SpanId>) {
    && (st.owner.Adopt? || st.owner == Ready)
    && forall s :: s in ids ==> s < |st.spans| && (s in Walk(st) || st.spans[s].phase == Cached)
  }

  lemma AdoptingRemote(st: State, a: Action, ids: seq<SpanId>)
    requires Inv(st) && RemoteAction(a) && Enabled(st, a) && Adopting(st, ids)
    ensures Adopting(Apply(st, a), ids)
  {
    OwnerStays(st, a);
    forall s | s in ids && s !in Walk(st) ensures Apply(st, a).spans[s].phase == Cached { CachedStays(st, a, s); }
  }

  lemma OwnerStays(st: State, a: Action)
    requires RemoteAction(a) && Enabled(st, a)
    ensures Apply(st, a).owner == st.owner && |Apply(st, a).spans| == |st.spans|
  {
  }

  lemma CachedStays(st: State, a: Action, s: SpanId)
    requires Inv(st) && RemoteAction(a) && Enabled(st, a) && s < |st.spans| && st.spans[s].phase == Cached
    ensures SameAt(st, Apply(st, a), s)
  {
    if Target(st, a) == s { TargetOk(st, a, s); } else { Elsewhere(st, a, s); }
  }

  lemma OnlyWalks(st: State, a: Action)
    requires !RemoteAction(a) && !OwnerBegins(a) && Enabled(st, a) && (st.owner.Adopt? || st.owner == Ready)
    ensures st.owner.Adopt? && a == AdoptOne
  {
  }

  lemma AdoptingOwner(st: State, ids: seq<SpanId>)
    requires Inv(st) && st.owner.Adopt? && Adopting(st, ids)
    ensures Adopting(AdoptSpan(st), ids)
  {
    if st.owner.walk.Some? { SpanOwner.AdoptChains(st); }
  }

  lemma {:induction false} AdoptingOn(st: State, ids: seq<SpanId>, run: seq<Action>)
    requires Inv(st) && Adopting(st, ids) && IsRun(st, run) && GoesOn(run)
    ensures Adopting(After(st, run), ids)
    decreases |run|
  {
    if run != [] {
      if RemoteAction(run[0]) {
        AdoptingRemote(st, run[0], ids);
      } else {
        OnlyWalks(st, run[0]);
        AdoptingOwner(st, ids);
      }
      StepKeeps(st, run[0]);
      AdoptingOn(Apply(st, run[0]), ids, run[1..]);
    }
  }

  lemma StackTaken(st: State, s: SpanId)
    requires QueueOk(st) && st.owner == Ready && s < |st.spans| && st.spans[s].phase == Queued
    ensures s in st.queue && Adopting(TakeStack(st), st.queue)
  {
    assert st.queue + Walk(st) == st.queue;
  }

  /** Every span that waits when the owner takes the stack is in the cache at the end of the walk. */
  lemma AdoptionComesTo(st: State, s: SpanId, run: seq<Action>)
    requires Reachable(st) && st.owner == Ready && s < |st.spans| && st.spans[s].phase == Queued
    requires IsRun(TakeStack(st), run) && GoesOn(run) && After(TakeStack(st), run).owner == Ready
    ensures var st' := After(TakeStack(st), run); s < |st'.spans| && st'.spans[s].phase == Cached
  {
    ReachableInv(st);
    SpanOwner.StepTakeStack(st);
    StackTaken(st, s);
    AdoptingOn(TakeStack(st), st.queue, run);
  }

  // ----- every operation can end

  /** Nobody begins anything new. */
  ghost predicate Finishing(run: seq<Action>) {
    forall a :: a in run ==> !OwnerBegins(a) && !a.FreeRemote?
  }

  ghost predicate Home(st: State) {
    st.owner == Ready && forall t :: 0 <= t < |st.threads| ==> st.threads[t] == Idle
  }

  /** The steps an operation has before it, at most. */
  function OwnerRank(pc: OwnerPc): nat {
    match pc
    case Ready => 0
    case Finish(_, _) => 1
    case Restore(_, _) => 2
    case Extracted(_, _) => 3
    case Extract(_, _) => 4
    case Took(_, _) => 5
    case Retire(_) => 1
    case Synced(_, _) => 2
    case Sync(_) => 3
    case Freed(_) => 4
    case Adopt(_, rest) => |rest| + 1
  }

  function RemoteRank(pc: RemotePc): nat {
    match pc
    case Idle => 0
    case Push(_) => 1
    case Swap(_) => 2
    case Linked(_, _, _) => 3
    case Hold(_, _, _) => 4
    case Want(_, _) => 5
  }

  function Ranks(threads: seq<RemotePc>): nat {
    if threads == [] then 0 else Ranks(threads[..|threads| - 1]) + RemoteRank(threads[|threads| - 1])
  }

  lemma {:induction false} RanksUpdate(threads: seq<RemotePc>, t: nat, pc: RemotePc)
    requires t < |threads|
    ensures Ranks(threads[t := pc]) == Ranks(threads) - RemoteRank(threads[t]) + RemoteRank(pc)
  {
    var last := |threads| - 1;
    if t == last {
      assert threads[t := pc][..last] == threads[..last];
    } else {
      assert threads[t := pc][..last] == threads[..last][t := pc];
      RanksUpdate(threads[..last], t, pc);
    }
  }

  function Rank(st: State): nat { OwnerRank(st.owner) + Ranks(st.threads) }

  /** A word nobody is holding is not locked. */
  lemma Unlocked(st: State, s: SpanId)
    requires Inv(st) && IsActive(st, s) && !HasLock(st, Owner, s)
    requires forall t :: 0 <= t < |st.threads| ==> st.threads[t].Idle? || st.threads[t].Want?
    ensures st.spans[s].word != Locked
  {
    assert SpanOk(st, s);
  }

  /** The step takes some operation nearer to its end. */
  ghost predicate Nears(st: State, a: Action) {
    Enabled(st, a) && !OwnerBegins(a) && !a.FreeRemote? && Rank(Apply(st, a)) < Rank(st)
  }

  lemma LockedNears(st: State, t: nat)
    requires t < |st.threads| && (st.threads[t].Hold? || st.threads[t].Linked?)
    ensures Nears(st, if st.threads[t].Hold? then RemoteLink(t) else RemoteRelease(t))
  {
    var st' := if st.threads[t].Hold? then LinkRemote(st, t) else UnlockRemote(st, t);
    RanksUpdate(st.threads, t, st'.threads[t]);
  }

  lemma SwapNears(st: State, t: nat)
    requires t < |st.threads| && st.threads[t].Swap?
    ensures Nears(st, RemoteSwap(t, false))
  {
    RanksUpdate(st.threads, t, SwapTop(st, t, false).threads[t]);
  }

  lemma WantNears(st: State, t: nat)
    requires t < |st.threads| && st.threads[t].Want? && SpanAt(st, st.threads[t].s).word != Locked
    ensures Nears(st, RemoteExchange(t))
  {
    RanksUpdate(st.threads, t, LockRemote(st, t).threads[t]);
  }

  /** Load and swap, undisturbed, put the span on the stack. */
  lemma PushNears(st: State, t: nat)
    requires t < |st.threads| && st.threads[t].Push? && st.threads[t].s < |st.spans|
    ensures Pc(LoadTop(st, t), t).Swap? && Rank(SwapTop(LoadTop(st, t), t, false)) < Rank(st)
  {
    assert SwapTop(LoadTop(st, t), t, false).threads == st.threads[t := Idle];
    RanksUpdate(st.threads, t, Idle);
  }

  /** The owner's next step, where it is not at a locked word. */
  lemma OwnerNears(st: State) returns (a: Action)
    requires st.owner != Ready && (st.owner.Adopt? && st.owner.walk.Some? ==> st.owner.rest != [])
    requires st.owner.Extract? || st.owner.Sync? ==> SpanAt(st, st.owner.s).word != Locked
    ensures Nears(st, a)
  {
    a := match st.owner
         case Took(_, _) => Load
         case Extract(_, _) => Exchange
         case Extracted(_, _) => Adjust
         case Restore(_, _) => Release
         case Finish(_, _) => Return
         case Freed(_) => Compare
         case Sync(_) => SyncExchange
         case Synced(_, _) => SyncRelease
         case Retire(_) => Unlink
         case Adopt(_, _) => AdoptOne;
  }

  /** Some operation that is not about to push can go on, if not all are at their ends. */
  lemma SomeNears(st: State) returns (a: Action)
    requires Inv(st) && !Home(st) && forall t :: 0 <= t < |st.threads| ==> !st.threads[t].Push?
    ensures Nears(st, a)
  {
    if t :| 0 <= t < |st.threads| && (st.threads[t].Hold? || st.threads[t].Linked?) {
      a := if st.threads[t].Hold? then RemoteLink(t) else RemoteRelease(t);
      LockedNears(st, t);
    } else if t :| 0 <= t < |st.threads| && st.threads[t].Swap? {
      a := RemoteSwap(t, false);
      SwapNears(st, t);
    } else if st.owner != Ready {
      OwnerFree(st);
      a := OwnerNears(st);
    } else {
      var t :| 0 <= t < |st.threads| && st.threads[t] != Idle;
      assert RemoteOk(st, t);
      Unlocked(st, st.threads[t].s);
      a := RemoteExchange(t);
      WantNears(st, t);
    }
  }

  lemma OwnerFree(st: State)
    requires Inv(st) && st.owner != Ready
    requires forall t :: 0 <= t < |st.threads| ==> st.threads[t].Idle? || st.threads[t].Want?
    ensures st.owner.Adopt? && st.owner.walk.Some? ==> st.owner.rest != []
    ensures st.owner.Extract? || st.owner.Sync? ==> SpanAt(st, st.owner.s).word != Locked
  {
    if st.owner.Extract? || st.owner.Sync? { Unlocked(st, st.owner.s); }
  }

  lemma Before(st: State, a: Action, run: seq<Action>)
    requires Enabled(st, a) && IsRun(Apply(st, a), run)
    ensures IsRun(st, [a] + run) && After(st, [a] + run) == After(Apply(st, a), run)
  {
    assert ([a] + run)[1..] == run;
  }

  /**
    No operation is ever stuck: from every state there can be, some steps of the operations begun bring every thread
    out of the allocator.
  */
  lemma {:induction false} EveryoneGetsHome(st: State) returns (run: seq<Action>)
    requires Inv(st)
    ensures IsRun(st, run) && Finishing(run) && Home(After(st, run))
    decreases Rank(st)
  {
    if Home(st) {
      run := [];
    } else if t :| 0 <= t < |st.threads| && st.threads[t].Push? {
      run := PushesHome(st, t);
    } else {
      var a := SomeNears(st);
      StepKeeps(st, a);
      var rest := EveryoneGetsHome(Apply(st, a));
      run := [a] + rest;
      Before(st, a, rest);
    }
  }

  lemma {:induction false} PushesHome(st: State, t: nat) returns (run: seq<Action>)
    requires Inv(st) && t < |st.threads| && st.threads[t].Push?
    ensures IsRun(st, run) && Finishing(run) && Home(After(st, run))
    decreases Rank(st), 0
  {
    var load, swap := RemoteLoad(t), RemoteSwap(t, false);
    Pushes(st, t);
    var st' := Apply(st, load);
    var rest := EveryoneGetsHome(Apply(st', swap));
    Before(st', swap, rest);
    Before(st, load, [swap] + rest);
    run := [load] + ([swap] + rest);
  }

  lemma Pushes(st: State, t: nat)
    requires Inv(st) && t < |st.threads| && st.threads[t].Push?
    ensures var load, swap := RemoteLoad(t), RemoteSwap(t, false);
            && Enabled(st, load) && Enabled(Apply(st, load), swap)
            && Inv(Apply(Apply(st, load), swap)) && Rank(Apply(Apply(st, load), swap)) < Rank(st)
  {
    assert RemoteOk(st, t);
    PushNears(st, t);
    StepKeeps(st, RemoteLoad(t));
    StepKeeps(LoadTop(st, t), RemoteSwap(t, false));
  }

  /** A free that leaves nothing out does end, with the span in the cache. */
  lemma FreeEnds(st: State, s: SpanId) returns (run: seq<Action>)
    requires Reachable(st) && st.owner == Freed(s) && NoneOut(st, s)
    ensures IsRun(st, run) && GoesOn(run) && Home(After(st, run))
    ensures s < |st.spans| && Retired(After(st, run), s, st.spans[s].retired + 1)
  {
    ReachableInv(st);
    run := EveryoneGetsHome(st);
    FreeComesTo(st, s, run);
  }
}
