/** The steps of the remote threads keep the invariant. */
module SpanRemote {
  import opened Options
  import opened SpanProtocol
  import opened SpanSafety

  /** What a step of remote thread t may do to a span, as the other threads see it. */
  ghost predicate RemoteStep(n: nat, sp: Span, sp': Span, t: nat) {
    && |sp'.place| == |sp.place| && sp'.limit == sp.limit
    && (forall b :: 0 <= b < |sp.place| && sp.place[b].Hand? && sp.place[b].w != Remote(t) ==>
       sp'.place[b] == sp.place[b])
    && (NothingOut(sp) ==> NothingOut(sp'))
    && (sp.holder.Some? && sp.holder.value != Remote(t) ==>
          sp'.holder == sp.holder && sp'.deferred == sp.deferred && sp'.phase == sp.phase)
    && (sp.holder.None? && NothingOut(sp) ==> sp'.holder.None?)
    && (if sp.phase == Active
        then (sp'.phase == Active && sp'.free == sp.free) || (sp'.phase == Handing(t) && NothingOut(sp) && Full(n, sp))
        else sp.phase == Handing(t) && (sp'.phase == Handing(t) || sp'.phase == Queued))
  }

  /** st' is st with one span and the program counter of t changed, both about span s. */
  ghost predicate RemoteMove(st: State, st': State, t: nat, s: SpanId) {
    && t < |st.threads| && s < |st.spans|
    && |st'.spans| == |st.spans| && |st'.threads| == |st.threads|
    && (forall x :: 0 <= x < |st.spans| && x != s ==> st'.spans[x] == st.spans[x])
    && (forall u :: 0 <= u < |st.threads| && u != t ==> st'.threads[u] == st.threads[u])
    && st' == st.(spans := st'.spans, threads := st'.threads, top := st'.top, queue := st'.queue)
    && (st.threads[t].Idle? || st.threads[t].s == s)
    && (st'.threads[t].Idle? || st'.threads[t].s == s)
    && RemoteStep(st.n, st.spans[s], st'.spans[s], t)
  }

  lemma OtherSpans(st: State, st': State, t: nat, s: SpanId)
    requires SpansOk(st) && RemoteMove(st, st', t, s) && SpanOk(st', s)
    ensures SpansOk(st')
  {
    forall x | 0 <= x < |st'.spans| ensures SpanOk(st', x) {
      if x != s { assert SpanOk(st, x); }
    }
  }

  lemma OtherThreads(st: State, st': State, t: nat, s: SpanId)
    requires RemotesOk(st) && RemoteMove(st, st', t, s) && RemoteOk(st', t)
    ensures RemotesOk(st')
  {
    forall u | 0 <= u < |st'.threads| ensures RemoteOk(st', u) {
      if u != t { assert RemoteOk(st, u); }
    }
  }

  lemma OwnerUndisturbed(st: State, st': State, t: nat, s: SpanId)
    requires OwnerOk(st) && RemoteMove(st, st', t, s)
    ensures OwnerOk(st')
  {
  }

  lemma ListsUndisturbed(st: State, st': State, t: nat, s: SpanId)
    requires SpansOk(st) && OwnerOk(st) && PartialOk(st) && ClassOk(st) && CountOk(st) && RemoteMove(st, st', t, s)
    ensures PartialOk(st') && ClassOk(st') && CountOk(st')
  {
    assert SpanOk(st, s);
    if st.spans[s].phase == Active && st'.spans[s].phase != Active {
      assert !WorksOn(st.owner, s);
      HeadIn(ClassList(st, s));
    }
    assert FullSpans(st') == FullSpans(st);
  }

  lemma ChainFrame(a: seq<Span>, b: seq<Span>, from: Option<SpanId>, ids: seq<SpanId>)
    requires |a| == |b| && Chain(a, from, ids)
    requires forall s :: s in ids && s < |a| ==> b[s].free == a[s].free
    ensures Chain(b, from, ids)
    decreases |ids|
  {
    if ids != [] { ChainFrame(a, b, a[ids[0]].free.next, ids[1..]); }
  }

  /** A step that leaves the stack alone and queues nothing. */
  lemma QueueUndisturbed(st: State, st': State, t: nat, s: SpanId)
    requires QueueOk(st) && RemoteMove(st, st', t, s)
    requires st'.top == st.top && st'.queue == st.queue && st'.spans[s].phase != Queued
    ensures QueueOk(st')
  {
    ChainFrame(st.spans, st'.spans, st.top, st.queue);
    if st.owner.Adopt? { ChainFrame(st.spans, st'.spans, st.owner.walk, st.owner.rest); }
  }

  /** The local half of a remote step: the span and the thread it is about. */
  ghost predicate Local(st: State, st': State, t: nat, s: SpanId) {
    RemoteMove(st, st', t, s) && SpanOk(st', s) && RemoteOk(st', t)
  }

  lemma Keep(st: State, st': State, t: nat, s: SpanId)
    requires Inv(st) && Local(st, st', t, s)
    requires st'.top == st.top && st'.queue == st.queue && st'.spans[s].phase != Queued
    ensures Inv(st')
  {
    OtherSpans(st, st', t, s); OtherThreads(st, st', t, s); OwnerUndisturbed(st, st', t, s);
    ListsUndisturbed(st, st', t, s); QueueUndisturbed(st, st', t, s);
  }

  lemma StartLocal(st: State, t: nat, s: SpanId, b: nat)
    requires CanFreeRemote(st, t, s, b) && SpanOk(st, s)
    ensures Local(st, StartRemote(st, t, s, b), t, s)
  {
    var st' := StartRemote(st, t, s, b);
    var sp, sp' := st.spans[s], st'.spans[s];
    assert UserHolds(st, s, b);
    assert sp'.place == sp.place[b := Hand(Remote(t))];
    assert BlocksOk(st.n, sp', ClassList(st, s));
    assert ClaimsOk(st', s);
  }

  lemma LockLocal(st: State, t: nat)
    requires Pc(st, t).Want? && RemoteOk(st, t) && SpanOk(st, Pc(st, t).s)
    requires st.spans[Pc(st, t).s].word != Locked
    ensures Local(st, LockRemote(st, t), t, Pc(st, t).s)
  {
  }

  lemma LinkLocal(st: State, t: nat)
    requires Pc(st, t).Hold? && RemoteOk(st, t) && SpanOk(st, Pc(st, t).s)
    ensures Local(st, LinkRemote(st, t), t, Pc(st, t).s)
  {
    var s, b := Pc(st, t).s, Pc(st, t).b;
    var st' := LinkRemote(st, t);
    LinkBlocks(st.n, st.spans[s], st'.spans[s], ClassList(st, s), b);
    assert ClaimsOk(st', s);
  }

  lemma LinkBlocks(n: nat, sp: Span, sp': Span, cls: seq<nat>, b: nat)
    requires BlocksOk(n, sp, cls) && b < n && sp.place[b].Hand?
    requires sp' == sp.(listSize := sp'.listSize, deferred := [b] + sp.deferred, place := sp.place[b := InDeferred])
    ensures BlocksOk(n, sp', cls)
  {
    assert forall x :: x in sp'.deferred <==> x == b || x in sp.deferred;
  }

  lemma UnlockLocal(st: State, t: nat)
    requires Pc(st, t).Linked? && RemoteOk(st, t) && SpanOk(st, Pc(st, t).s)
    ensures Local(st, UnlockRemote(st, t), t, Pc(st, t).s)
  {
    var s := Pc(st, t).s;
    DeferredBelow(st.n, st.spans[s], ClassList(st, s));
    if Pc(st, t).all { AllAccounted(st.n, st.spans[s], ClassList(st, s)); }
  }

  lemma LoadLocal(st: State, t: nat)
    requires Pc(st, t).Push? && RemoteOk(st, t) && SpanOk(st, Pc(st, t).s)
    ensures Local(st, LoadTop(st, t), t, Pc(st, t).s)
  {
  }

  lemma SwapLocal(st: State, t: nat, spurious: bool)
    requires Pc(st, t).Swap? && RemoteOk(st, t) && SpanOk(st, Pc(st, t).s)
    ensures Local(st, SwapTop(st, t, spurious), t, Pc(st, t).s)
  {
  }

  // ----- the steps

  lemma StepStart(st: State, t: nat, s: SpanId, b: nat)
    requires Inv(st) && CanFreeRemote(st, t, s, b)
    ensures Inv(StartRemote(st, t, s, b))
  {
    assert SpanOk(st, s);
    StartLocal(st, t, s, b);
    Keep(st, StartRemote(st, t, s, b), t, s);
  }

  lemma StepLock(st: State, t: nat)
    requires Inv(st) && Pc(st, t).Want?
    ensures Inv(LockRemote(st, t))
  {
    var s := Pc(st, t).s;
    assert RemoteOk(st, t) && SpanOk(st, s);
    if st.spans[s].word != Locked {
      LockLocal(st, t);
      Keep(st, LockRemote(st, t), t, s);
    }
  }

  lemma StepLink(st: State, t: nat)
    requires Inv(st) && Pc(st, t).Hold?
    ensures Inv(LinkRemote(st, t))
  {
    var s := Pc(st, t).s;
    assert RemoteOk(st, t) && SpanOk(st, s);
    LinkLocal(st, t);
    Keep(st, LinkRemote(st, t), t, s);
  }

  lemma StepUnlock(st: State, t: nat)
    requires Inv(st) && Pc(st, t).Linked?
    ensures Inv(UnlockRemote(st, t))
  {
    var s := Pc(st, t).s;
    assert RemoteOk(st, t) && SpanOk(st, s);
    UnlockLocal(st, t);
    Keep(st, UnlockRemote(st, t), t, s);
  }

  lemma StepLoadTop(st: State, t: nat)
    requires Inv(st) && Pc(st, t).Push?
    ensures Inv(LoadTop(st, t))
  {
    var s := Pc(st, t).s;
    assert RemoteOk(st, t) && SpanOk(st, s);
    LoadLocal(st, t);
    Keep(st, LoadTop(st, t), t, s);
  }

  lemma StepSwap(st: State, t: nat, spurious: bool)
    requires Inv(st) && Pc(st, t).Swap?
    ensures Inv(SwapTop(st, t, spurious))
  {
    var s, st' := Pc(st, t).s, SwapTop(st, t, spurious);
    assert RemoteOk(st, t);
    assert SpanOk(st, s);
    SwapLocal(st, t, spurious);
    if st'.spans == st.spans {
      Keep(st, st', t, s);
    } else {
      OtherSpans(st, st', t, s); OtherThreads(st, st', t, s); OwnerUndisturbed(st, st', t, s);
      ListsUndisturbed(st, st', t, s);
      PushQueue(st, st', s);
    }
  }

  lemma PushQueue(st: State, st': State, s: SpanId)
    requires QueueOk(st) && s < |st.spans| && |st'.spans| == |st.spans| && st.spans[s].phase != Queued &&
             st.spans[s].free == Link(st.top)
    requires st' == st.(spans := st.spans[s := st'.spans[s]], threads := st'.threads,
                        top := Some(s), queue := [s] + st.queue)
    requires st'.spans[s] == st.spans[s].(phase := Queued)
    ensures QueueOk(st')
  {
    ChainFrame(st.spans, st'.spans, st.top, st.queue);
    if st.owner.Adopt? { ChainFrame(st.spans, st'.spans, st.owner.walk, st.owner.rest); }
    assert st'.queue + Walk(st') == [s] + (st.queue + Walk(st));
  }
}
