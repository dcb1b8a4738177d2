/** The steps of the owner thread keep the invariant. */
module SpanOwner {
  import opened Options
  import opened SpanProtocol
  import opened SpanSafety
  import opened SpanRemote

  /** What a step of the owner may do to a span, as the remote threads see it. */
  ghost predicate OwnerStep(sp: Span, sp': Span) {
    && (forall b :: 0 <= b < |sp.place| && sp.place[b].Hand? && sp.place[b].w.Remote? && sp.phase == Active ==>
          b < |sp'.place| && sp'.place[b] == sp.place[b] && sp'.phase == Active)
    && (sp.holder.Some? && sp.holder.value.Remote? ==>
          sp'.holder == sp.holder && sp'.deferred == sp.deferred && sp'.phase == sp.phase)
    && (sp.phase.Handing? ==> sp' == sp)
  }

  predicate About(pc: OwnerPc, s: SpanId) {
    pc.Ready? || pc.Adopt? || pc.s == s
  }

  /** st' is st with one span and the owner's own data changed, the program counter being about span s. */
  ghost predicate OwnerMove(st: State, st': State, s: SpanId) {
    && s < |st.spans| && |st'.spans| == |st.spans|
    && (forall x :: 0 <= x < |st.spans| && x != s ==>
          st'.spans[x] == st.spans[x] && ClassList(st', x) == ClassList(st, x))
    && st'.threads == st.threads && st'.n == st.n
    && About(st.owner, s) && About(st'.owner, s)
    && OwnerStep(st.spans[s], st'.spans[s])
  }

  lemma OtherSpans(st: State, st': State, s: SpanId)
    requires SpansOk(st) && OwnerMove(st, st', s) && SpanOk(st', s)
    ensures SpansOk(st')
  {
    forall x | 0 <= x < |st'.spans| ensures SpanOk(st', x) {
      if x != s { assert SpanOk(st, x); }
    }
  }

  lemma RemotesUndisturbed(st: State, st': State, s: SpanId)
    requires RemotesOk(st) && OwnerMove(st, st', s)
    ensures RemotesOk(st')
  {
    forall t | 0 <= t < |st'.threads| ensures RemoteOk(st', t) {
      assert RemoteOk(st, t);
    }
  }

  lemma QueueUndisturbed(st: State, st': State, s: SpanId)
    requires QueueOk(st) && OwnerMove(st, st', s) && !st.owner.Adopt? && !st'.owner.Adopt?
    requires st'.top == st.top && st'.queue == st.queue
    requires st.spans[s].phase != Queued && st'.spans[s].phase != Queued
    ensures QueueOk(st')
  {
    ChainFrame(st.spans, st'.spans, st.top, st.queue);
  }

  /** The owner works inside one span; neither list of spans changes. */
  ghost predicate Inside(st: State, st': State, s: SpanId) {
    && OwnerMove(st, st', s) && SpanOk(st', s) && OwnerOk(st') && ClassOk(st')
    && !st.owner.Adopt? && !st'.owner.Adopt?
    && st'.top == st.top && st'.queue == st.queue
    && st.spans[s].phase == Active && st'.spans[s].phase == Active
  }

  lemma Keep(st: State, st': State, s: SpanId)
    requires Inv(st) && Inside(st, st', s) && PartialOk(st') && CountOk(st')
    ensures Inv(st')
  {
    OtherSpans(st, st', s); RemotesUndisturbed(st, st', s); QueueUndisturbed(st, st', s);
  }

  lemma ListsUndisturbed(st: State, st': State, s: SpanId)
    requires PartialOk(st) && CountOk(st) && Inside(st, st', s)
    requires st'.partial == st.partial && st'.fullCount == st.fullCount
    requires !WorksOn(st'.owner, s) ==> !WorksOn(st.owner, s) && (Full(st.n, st'.spans[s]) <==> Full(st.n, st.spans[s]))
    ensures PartialOk(st') && CountOk(st')
  {
    assert FullSpans(st') == FullSpans(st);
  }

  // ----- blocks

  lemma PopBlocks(n: nat, sp: Span, cls: seq<nat>)
    requires BlocksOk(n, sp, cls) && cls != []
    ensures cls[0] in cls && BlocksOk(n, sp.(place := Put(sp.place, cls[0], User)), cls[1..])
  {
    assert cls == [cls[0]] + cls[1..];
    assert forall x :: x in cls <==> x == cls[0] || x in cls[1..];
  }

  lemma TakeListed(n: nat, sp: Span)
    requires BlocksOk(n, sp, []) && sp.free.blocks != []
    ensures var b, rest := sp.free.blocks[0], sp.free.blocks[1..];
            b in sp.free.blocks &&
            BlocksOk(n, sp.(free := List([]), place := Put(PutAll(sp.place, rest, InClass), b, Hand(Owner))), rest)
  {
    var list := sp.free.blocks;
    assert list == [list[0]] + list[1..];
    assert forall x :: x in list <==> x == list[0] || x in list[1..];
  }

  lemma TakeFresh(n: nat, sp: Span, k: nat)
    requires BlocksOk(n, sp, []) && sp.free.blocks == [] && 1 <= k <= n - sp.limit
    ensures var b, rest := sp.limit, Range(sp.limit + 1, sp.limit + k);
            BlocksOk(n, sp.(limit := sp.limit + k, used := sp.limit + k,
                            place := Put(PutAll(sp.place, rest, InClass), b, Hand(Owner))), rest)
  {
    var rest := Range(sp.limit + 1, sp.limit + k);
    RangeIn(sp.limit + 1, sp.limit + k);
  }

  lemma RangeIn(lo: nat, hi: nat)
    requires lo <= hi
    ensures forall x: nat :: x in Range(lo, hi) <==> lo <= x < hi
    ensures Distinct(Range(lo, hi))
  {
    forall x: nat ensures x in Range(lo, hi) <==> lo <= x < hi {
      if lo <= x < hi { assert Range(lo, hi)[x - lo] == x; }
    }
  }

  lemma FreshBlocks(n: nat, sp: Span, k: nat)
    requires 1 <= k <= n && sp.limit == k && sp.free == List([]) && sp.deferred == []
    requires sp.place == Put(PutAll(seq(n, _ => Uninit), Range(1, k), InClass), 0, User)
    ensures BlocksOk(n, sp, Range(1, k))
  {
    RangeIn(1, k);
  }

  lemma SwapBlocks(n: nat, sp: Span, cls: seq<nat>)
    requires BlocksOk(n, sp, cls) && sp.free.blocks == []
    ensures BlocksOk(n, sp.(free := List(sp.deferred), deferred := [],
            place := PutAll(sp.place, sp.deferred, InSpan)), cls)
  {
  }

  lemma GiveBlock(n: nat, sp: Span, cls: seq<nat>, b: nat)
    requires BlocksOk(n, sp, cls) && b < n && sp.place[b].Hand?
    ensures BlocksOk(n, sp.(place := Put(sp.place, b, User)), cls)
  {
  }

  lemma PushBlock(n: nat, sp: Span, cls: seq<nat>, b: nat)
    requires BlocksOk(n, sp, cls) && b < n && sp.place[b] == User
    ensures BlocksOk(n, sp.(free := List([b] + sp.free.blocks), place := Put(sp.place, b, InSpan)), cls)
  {
    assert forall x :: x in [b] + sp.free.blocks <==> x == b || x in sp.free.blocks;
  }

  // ----- the steps of an allocation

  lemma StepPop(st: State)
    requires Inv(st) && CanPop(st)
    ensures Inv(PopClass(st))
  {
    var s, st' := st.classSpan, PopClass(st);
    assert SpanOk(st, s);
    PopBlocks(st.n, st.spans[s], st.classFree);
    assert SpanOk(st', s);
    ListsUndisturbed(st, st', s);
    Keep(st, st', s);
  }

  lemma TakeLocal(st: State, k: nat)
    requires CanTake(st, k) && SpanOk(st, st.partial[0]) && IsActive(st, st.partial[0])
    requires !Full(st.n, st.spans[st.partial[0]])
    ensures Inside(st, TakeBlock(st, k), st.partial[0])
  {
    TakeSpan(st, k);
  }

  lemma TakeSpan(st: State, k: nat)
    requires CanTake(st, k) && SpanOk(st, st.partial[0]) && IsActive(st, st.partial[0])
    ensures var st', s := TakeBlock(st, k), st.partial[0];
            SpanOk(st', s) && st'.spans[s].free == List([]) && InHand(st', s, st'.owner.b, Owner)
  {
    TakeBlocks(st, k);
    TakeClaims(st, k);
  }

  lemma TakeBlocks(st: State, k: nat)
    requires CanTake(st, k) && BlocksOk(st.n, st.spans[st.partial[0]], [])
    ensures var st', s := TakeBlock(st, k), st.partial[0];
            && BlocksOk(st.n, st'.spans[s], st'.classFree) && st'.spans[s].free == List([])
            && st'.owner.b < st.n && st'.spans[s].place[st'.owner.b] == Hand(Owner)
  {
    if st.spans[st.partial[0]].free.blocks != [] { TakeFromList(st, k); } else { TakeFromTail(st, k); }
  }

  lemma TakeFromList(st: State, k: nat)
    requires CanTake(st, k) && BlocksOk(st.n, st.spans[st.partial[0]], []) && st.spans[st.partial[0]].free.blocks != []
    ensures var st', s := TakeBlock(st, k), st.partial[0];
            && BlocksOk(st.n, st'.spans[s], st'.classFree) && st'.spans[s].free == List([])
            && st'.owner.b < st.n && st'.spans[s].place[st'.owner.b] == Hand(Owner)
  {
    TakeListed(st.n, st.spans[st.partial[0]]);
  }

  lemma TakeFromTail(st: State, k: nat)
    requires CanTake(st, k) && BlocksOk(st.n, st.spans[st.partial[0]], []) && st.spans[st.partial[0]].free.blocks == []
    ensures var st', s := TakeBlock(st, k), st.partial[0];
            && BlocksOk(st.n, st'.spans[s], st'.classFree) && st'.spans[s].free == List([])
            && st'.owner.b < st.n && st'.spans[s].place[st'.owner.b] == Hand(Owner)
  {
    var s, sp := st.partial[0], st.spans[st.partial[0]];
    TakeFresh(st.n, sp, k);
    TakenFromTail(st, s, sp, k);
  }

  lemma TakenFromTail(st: State, s: SpanId, sp: Span, k: nat)
    requires CanTake(st, k) && s == st.partial[0] && sp == st.spans[s] && sp.free.blocks == []
    ensures var rest := Range(sp.limit + 1, sp.limit + k);
            && TakeBlock(st, k).classFree == rest && TakeBlock(st, k).owner.b == sp.limit
            && TakeBlock(st, k).spans[s] == sp.(limit := sp.limit + k, used := sp.limit + k,
                                               place := Put(PutAll(sp.place, rest, InClass), sp.limit, Hand(Owner)))
  {
  }

  lemma TakeClaims(st: State, k: nat)
    requires CanTake(st, k) && ClaimsOk(st, st.partial[0])
    ensures ClaimsOk(TakeBlock(st, k), st.partial[0])
  {
  }

  lemma StepTake(st: State, k: nat)
    requires Inv(st) && CanTake(st, k)
    ensures Inv(TakeBlock(st, k))
  {
    var s := st.partial[0];
    assert s in st.partial;
    assert SpanOk(st, s);
    TakeLocal(st, k);
    ListsUndisturbed(st, TakeBlock(st, k), s);
    Keep(st, TakeBlock(st, k), s);
  }

  lemma LoadLocal(st: State)
    requires st.owner.Took? && OwnerOk(st) && ClassOk(st) && SpanOk(st, st.owner.s)
    ensures Inside(st, LoadWord(st), st.owner.s)
  {
  }

  lemma StepLoad(st: State)
    requires Inv(st) && st.owner.Took?
    ensures Inv(LoadWord(st))
  {
    assert SpanOk(st, st.owner.s);
    LoadLocal(st);
    ListsUndisturbed(st, LoadWord(st), st.owner.s);
    Keep(st, LoadWord(st), st.owner.s);
  }

  lemma ExchangeLocal(st: State)
    requires st.owner.Extract? && OwnerOk(st) && ClassOk(st) && SpanOk(st, st.owner.s)
    requires st.spans[st.owner.s].word != Locked
    ensures Inside(st, ExchangeWord(st), st.owner.s)
  {
    var s, st' := st.owner.s, ExchangeWord(st);
    SwapBlocks(st.n, st.spans[s], ClassList(st, s));
    assert BlocksOk(st.n, st'.spans[s], ClassList(st', s));
    assert ClaimsOk(st', s);
  }

  lemma StepExchange(st: State)
    requires Inv(st) && st.owner.Extract?
    ensures Inv(ExchangeWord(st))
  {
    var s := st.owner.s;
    assert SpanOk(st, s);
    if st.spans[s].word != Locked {
      ExchangeLocal(st);
      ListsUndisturbed(st, ExchangeWord(st), s);
      Keep(st, ExchangeWord(st), s);
    }
  }

  lemma AdjustLocal(st: State)
    requires st.owner.Extracted? && OwnerOk(st) && ClassOk(st) && SpanOk(st, st.owner.s)
    ensures Inside(st, AdjustCounts(st), st.owner.s)
  {
    var s, st' := st.owner.s, AdjustCounts(st);
    assert BlocksOk(st.n, st'.spans[s], ClassList(st', s));
    assert ClaimsOk(st', s);
  }

  lemma StepAdjust(st: State)
    requires Inv(st) && st.owner.Extracted?
    ensures Inv(AdjustCounts(st))
  {
    assert SpanOk(st, st.owner.s);
    AdjustLocal(st);
    ListsUndisturbed(st, AdjustCounts(st), st.owner.s);
    Keep(st, AdjustCounts(st), st.owner.s);
  }

  lemma ReleaseLocal(st: State)
    requires st.owner.Restore? && OwnerOk(st) && ClassOk(st) && SpanOk(st, st.owner.s)
    ensures Inside(st, ReleaseWord(st), st.owner.s)
  {
    var s, st' := st.owner.s, ReleaseWord(st);
    assert BlocksOk(st.n, st'.spans[s], ClassList(st', s));
    assert ClaimsOk(st', s);
  }

  lemma StepRelease(st: State)
    requires Inv(st) && st.owner.Restore?
    ensures Inv(ReleaseWord(st))
  {
    assert SpanOk(st, st.owner.s);
    ReleaseLocal(st);
    ListsUndisturbed(st, ReleaseWord(st), st.owner.s);
    Keep(st, ReleaseWord(st), st.owner.s);
  }

  lemma ReturnLocal(st: State)
    requires st.owner.Finish? && OwnerOk(st) && ClassOk(st) && SpanOk(st, st.owner.s)
    ensures Inside(st, ReturnBlock(st), st.owner.s)
  {
    ReturnSpan(st);
  }

  lemma ReturnSpan(st: State)
    requires st.owner.Finish? && OwnerOk(st) && SpanOk(st, st.owner.s)
    ensures SpanOk(ReturnBlock(st), st.owner.s)
  {
    var s, st' := st.owner.s, ReturnBlock(st);
    GiveBlock(st.n, st.spans[s], ClassList(st, s), st.owner.b);
    assert BlocksOk(st.n, st'.spans[s], ClassList(st', s));
    assert ClaimsOk(st', s);
  }

  lemma PopHead<T>(s: seq<T>)
    requires Distinct(s) && s != []
    ensures Distinct(s[1..])
    ensures forall x :: x in s[1..] <==> x in s && x != s[0]
  {
    assert s == [s[0]] + s[1..];
  }

  lemma ReturnPartial(st: State)
    requires st.owner.Finish? && OwnerOk(st) && PartialOk(st)
    ensures PartialOk(ReturnBlock(st))
  {
    PopHead(st.partial);
  }

  lemma ReturnCount(st: State)
    requires st.owner.Finish? && OwnerOk(st) && PartialOk(st) && CountOk(st)
    ensures CountOk(ReturnBlock(st))
  {
    var s, st' := st.owner.s, ReturnBlock(st);
    PopHead(st.partial);
    if Full(st.n, st.spans[s]) {
      assert FullSpans(st') == FullSpans(st) + {s};
    } else {
      assert FullSpans(st') == FullSpans(st);
    }
  }

  lemma StepReturn(st: State)
    requires Inv(st) && st.owner.Finish?
    ensures Inv(ReturnBlock(st))
  {
    assert SpanOk(st, st.owner.s);
    ReturnLocal(st);
    ReturnPartial(st);
    ReturnCount(st);
    Keep(st, ReturnBlock(st), st.owner.s);
  }

  lemma InitialiseLocal(st: State, s: SpanId, k: nat)
    requires CanInitialise(st, s, k) && SpanOk(st, s) && st.n >= 1
    ensures var st' := InitialiseSpan(st, s, k); OwnerMove(st, st', s) && SpanOk(st', s) && ClassOk(st')
  {
    var st' := InitialiseSpan(st, s, k);
    FreshBlocks(st.n, st'.spans[s], k);
    assert ClaimsOk(st', s);
  }

  lemma InitialiseLists(st: State, s: SpanId, k: nat)
    requires CanInitialise(st, s, k) && PartialOk(st) && CountOk(st)
    ensures PartialOk(InitialiseSpan(st, s, k)) && CountOk(InitialiseSpan(st, s, k))
  {
    var st' := InitialiseSpan(st, s, k);
    if k < st.n {
      assert FullSpans(st') == FullSpans(st);
    } else {
      assert FullSpans(st') == FullSpans(st) + {s};
    }
  }

  lemma StepInitialise(st: State, s: SpanId, k: nat)
    requires Inv(st) && CanInitialise(st, s, k)
    ensures Inv(InitialiseSpan(st, s, k))
  {
    var st' := InitialiseSpan(st, s, k);
    assert SpanOk(st, s);
    InitialiseLocal(st, s, k);
    InitialiseLists(st, s, k);
    OtherSpans(st, st', s); RemotesUndisturbed(st, st', s); QueueUndisturbed(st, st', s);
  }

  // ----- the steps of a local free

  lemma PushLocalOk(st: State, s: SpanId, b: nat)
    requires CanFree(st, s, b) && ClassOk(st) && SpanOk(st, s)
    ensures Inside(st, PushLocal(st, s, b), s)
  {
    PushSpan(st, s, b);
  }

  lemma PushSpan(st: State, s: SpanId, b: nat)
    requires CanFree(st, s, b) && SpanOk(st, s)
    ensures SpanOk(PushLocal(st, s, b), s)
  {
    var st' := PushLocal(st, s, b);
    PushBlock(st.n, st.spans[s], ClassList(st, s), b);
    assert BlocksOk(st.n, st'.spans[s], ClassList(st', s));
    DeferredBelow(st.n, st'.spans[s], ClassList(st', s));
    PushClaims(st, s, b);
  }

  lemma PushClaims(st: State, s: SpanId, b: nat)
    requires CanFree(st, s, b) && ClaimsOk(st, s)
    ensures ClaimsOk(PushLocal(st, s, b), s)
  {
  }

  lemma PushLists(st: State, s: SpanId, b: nat)
    requires CanFree(st, s, b) && PartialOk(st) && CountOk(st)
    ensures PartialOk(PushLocal(st, s, b)) && CountOk(PushLocal(st, s, b))
  {
    var st' := PushLocal(st, s, b);
    if Full(st.n, st.spans[s]) {
      assert FullSpans(st) == FullSpans(st') + {s};
    } else {
      assert FullSpans(st') == FullSpans(st);
    }
  }

  lemma StepPush(st: State, s: SpanId, b: nat)
    requires Inv(st) && CanFree(st, s, b)
    ensures Inv(PushLocal(st, s, b))
  {
    assert SpanOk(st, s);
    PushLocalOk(st, s, b);
    PushLists(st, s, b);
    Keep(st, PushLocal(st, s, b), s);
  }

  lemma CompareLocal(st: State)
    requires st.owner.Freed? && OwnerOk(st) && ClassOk(st) && RemotesOk(st) && SpanOk(st, st.owner.s)
    ensures Inside(st, CompareCounts(st), st.owner.s)
  {
    var s, st' := st.owner.s, CompareCounts(st);
    var sp := st.spans[s];
    assert sp.holder.Some? && sp.holder.value.Remote? ==> RemoteOk(st, sp.holder.value.t);
    if sp.used == sp.listSize { AllAccounted(st.n, sp, ClassList(st, s)); }
    assert ClaimsOk(st', s);
  }

  lemma StepCompare(st: State)
    requires Inv(st) && st.owner.Freed?
    ensures Inv(CompareCounts(st))
  {
    assert SpanOk(st, st.owner.s);
    CompareLocal(st);
    ListsUndisturbed(st, CompareCounts(st), st.owner.s);
    Keep(st, CompareCounts(st), st.owner.s);
  }

  lemma SyncLockLocal(st: State)
    requires st.owner.Sync? && OwnerOk(st) && ClassOk(st) && SpanOk(st, st.owner.s)
    requires st.spans[st.owner.s].word != Locked
    ensures Inside(st, SyncLock(st), st.owner.s)
  {
    var s, st' := st.owner.s, SyncLock(st);
    assert BlocksOk(st.n, st'.spans[s], ClassList(st', s));
    assert ClaimsOk(st', s);
    DeferredBelow(st.n, st'.spans[s], ClassList(st', s));
  }

  lemma StepSyncLock(st: State)
    requires Inv(st) && st.owner.Sync?
    ensures Inv(SyncLock(st))
  {
    var s := st.owner.s;
    assert SpanOk(st, s);
    if st.spans[s].word != Locked {
      SyncLockLocal(st);
      ListsUndisturbed(st, SyncLock(st), s);
      Keep(st, SyncLock(st), s);
    }
  }

  lemma SyncUnlockLocal(st: State)
    requires st.owner.Synced? && OwnerOk(st) && ClassOk(st) && SpanOk(st, st.owner.s)
    ensures Inside(st, SyncUnlock(st), st.owner.s)
  {
    var s, st' := st.owner.s, SyncUnlock(st);
    assert BlocksOk(st.n, st'.spans[s], ClassList(st', s));
    assert ClaimsOk(st', s);
  }

  lemma StepSyncUnlock(st: State)
    requires Inv(st) && st.owner.Synced?
    ensures Inv(SyncUnlock(st))
  {
    assert SpanOk(st, st.owner.s);
    SyncUnlockLocal(st);
    ListsUndisturbed(st, SyncUnlock(st), st.owner.s);
    Keep(st, SyncUnlock(st), st.owner.s);
  }

  lemma {:induction false} RemoveOne<T>(s: seq<T>, x: T)
    requires Distinct(s) && x in s
    ensures Distinct(Remove(s, x))
    ensures forall y :: y in Remove(s, x) <==> y in s && y != x
  {
    assert s == [s[0]] + s[1..];
    if s[0] != x {
      RemoveOne(s[1..], x);
      assert s[0] !in Remove(s[1..], x);
    }
  }

  lemma UnlinkLists(st: State)
    requires st.owner.Retire? && OwnerOk(st) && PartialOk(st) && CountOk(st)
    ensures PartialOk(UnlinkSpan(st)) && CountOk(UnlinkSpan(st))
  {
    RemoveOne(st.partial, st.owner.s);
    assert FullSpans(UnlinkSpan(st)) == FullSpans(st);
  }

  lemma StepUnlink(st: State)
    requires Inv(st) && st.owner.Retire?
    ensures Inv(UnlinkSpan(st))
  {
    var s, st' := st.owner.s, UnlinkSpan(st);
    assert SpanOk(st, s);
    assert ClassList(st, s) == [] by { HeadIn(ClassList(st, s)); }
    UnlinkLists(st);
    OtherSpans(st, st', s); RemotesUndisturbed(st, st', s); QueueUndisturbed(st, st', s);
  }

  // ----- adoption of the deferred spans

  lemma StepTakeStack(st: State)
    requires Inv(st) && st.owner.Ready?
    ensures Inv(TakeStack(st))
  {
    var st' := TakeStack(st);
    forall x | 0 <= x < |st'.spans| ensures SpanOk(st', x) { assert SpanOk(st, x); }
    forall t | 0 <= t < |st'.threads| ensures RemoteOk(st', t) { assert RemoteOk(st, t); }
    assert st'.queue + Walk(st') == st.queue + Walk(st);
    assert FullSpans(st') == FullSpans(st);
  }

  lemma AdoptLists(st: State)
    requires st.owner.Adopt? && st.owner.walk.Some? && QueueOk(st) && PartialOk(st) && CountOk(st)
    ensures QueueOk(AdoptSpan(st)) && PartialOk(AdoptSpan(st)) && CountOk(AdoptSpan(st))
  {
    AdoptChains(st);
    AdoptQueue(st, AdoptSpan(st), st.owner.walk.value);
    AdoptCount(st);
  }

  lemma AdoptCount(st: State)
    requires st.owner.Adopt? && st.owner.walk.Some? && st.owner.walk.value < |st.spans|
    requires st.spans[st.owner.walk.value].phase == Queued && PartialOk(st) && CountOk(st)
    ensures PartialOk(AdoptSpan(st)) && CountOk(AdoptSpan(st))
  {
    assert FullSpans(st) == FullSpans(AdoptSpan(st)) + {st.owner.walk.value};
  }

  lemma AdoptChains(st: State)
    requires st.owner.Adopt? && st.owner.walk.Some? && QueueOk(st)
    ensures var s, st' := st.owner.walk.value, AdoptSpan(st);
            && s < |st.spans| && st.spans[s].phase == Queued && st.owner.rest == [s] + st'.owner.rest
            && Chain(st'.spans, st'.top, st'.queue) && Chain(st'.spans, st'.owner.walk, st'.owner.rest)
  {
    var s, st' := st.owner.walk.value, AdoptSpan(st);
    assert st.owner.rest == [s] + st'.owner.rest;
    assert s in st.queue + Walk(st);
    ChainFrame(st.spans, st'.spans, st.top, st.queue);
    ChainFrame(st.spans, st'.spans, st'.owner.walk, st'.owner.rest);
  }

  lemma AdoptQueue(st: State, st': State, s: SpanId)
    requires QueueOk(st) && st.owner.Adopt? && s < |st.spans|
    requires st'.owner.Adopt? && st.owner.rest == [s] + st'.owner.rest && st'.queue == st.queue
    requires st'.spans == st.spans[s := st.spans[s].(phase := Cached)]
    ensures Distinct(st'.queue + Walk(st'))
    ensures forall x :: x in st'.queue + Walk(st') ==> x < |st'.spans| && st'.spans[x].phase == Queued
    ensures forall x :: 0 <= x < |st'.spans| && st'.spans[x].phase == Queued ==> x in st'.queue + Walk(st')
  {
    var ids, less := st.queue + Walk(st), st'.queue + Walk(st');
    assert ids == st.queue + [s] + Walk(st');
    DropMiddle(st.queue, s, Walk(st'));
    QueuedLess(st.spans, s, ids, less);
  }

  lemma QueuedLess(spans: seq<Span>, s: SpanId, ids: seq<SpanId>, less: seq<SpanId>)
    requires s < |spans| && forall x :: x in less <==> x in ids && x != s
    requires forall x :: x in ids ==> x < |spans| && spans[x].phase == Queued
    requires forall x :: 0 <= x < |spans| && spans[x].phase == Queued ==> x in ids
    ensures var spans' := spans[s := spans[s].(phase := Cached)];
            && (forall x :: x in less ==> x < |spans'| && spans'[x].phase == Queued)
            && forall x :: 0 <= x < |spans'| && spans'[x].phase == Queued ==> x in less
  {
  }

  lemma DropMiddle<T>(a: seq<T>, x: T, b: seq<T>)
    requires Distinct(a + [x] + b)
    ensures Distinct(a + b)
    ensures forall y :: y in a + b <==> y in a + [x] + b && y != x
  {
    var long := a + [x] + b;
    assert forall i :: 0 <= i < |a + b| ==> (a + b)[i] == long[if i < |a| then i else i + 1];
    assert long[|a|] == x;
    assert forall i :: 0 <= i < |a| ==> long[i] == a[i];
    assert forall i :: 0 <= i < |b| ==> long[|a| + 1 + i] == b[i];
  }

  lemma AdoptLocal(st: State, s: SpanId)
    requires st.owner.Adopt? && st.owner.walk == Some(s) && SpansOk(st) && s < |st.spans| && st.spans[s].phase == Queued
    ensures SpanOk(AdoptSpan(st), s) && OwnerMove(st, AdoptSpan(st), s)
  {
    assert SpanOk(st, s);
  }

  lemma AdoptEnds(st: State)
    requires Inv(st) && st.owner.Adopt? && st.owner.walk == None
    ensures Inv(AdoptSpan(st))
  {
    var st' := AdoptSpan(st);
    forall x | 0 <= x < |st'.spans| ensures SpanOk(st', x) { assert SpanOk(st, x); }
    forall t | 0 <= t < |st'.threads| ensures RemoteOk(st', t) { assert RemoteOk(st, t); }
    assert FullSpans(st') == FullSpans(st);
  }

  lemma StepAdopt(st: State)
    requires Inv(st) && st.owner.Adopt?
    ensures Inv(AdoptSpan(st))
  {
    if st.owner.walk == None {
      AdoptEnds(st);
    } else {
      var s, st' := st.owner.walk.value, AdoptSpan(st);
      AdoptLists(st);
      AdoptChains(st);
      AdoptLocal(st, s);
      OtherSpans(st, st', s); RemotesUndisturbed(st, st', s);
    }
  }
}
