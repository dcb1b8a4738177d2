/** The results about every run of the block protocol, whatever the interleaving. */
module SpanTheorems {
  import opened Options
  import opened SpanProtocol
  import opened SpanSafety
  import SpanRemote
  import SpanOwner

  lemma StepKeeps(st: State, a: Action)
    requires Inv(st) && Enabled(st, a)
    ensures Inv(Apply(st, a))
  {
    match a
    case AllocFast => SpanOwner.StepPop(st);
    case AllocSlow(k) => SpanOwner.StepTake(st, k);
    case AllocNew(s, k) => SpanOwner.StepInitialise(st, s, k);
    case Load => SpanOwner.StepLoad(st);
    case Exchange => SpanOwner.StepExchange(st);
    case Adjust => SpanOwner.StepAdjust(st);
    case Release => SpanOwner.StepRelease(st);
    case Return => SpanOwner.StepReturn(st);
    case FreeLocal(s, b) => SpanOwner.StepPush(st, s, b);
    case Compare => SpanOwner.StepCompare(st);
    case SyncExchange => SpanOwner.StepSyncLock(st);
    case SyncRelease => SpanOwner.StepSyncUnlock(st);
    case Unlink => SpanOwner.StepUnlink(st);
    case AdoptAll => SpanOwner.StepTakeStack(st);
    case AdoptOne => SpanOwner.StepAdopt(st);
    case FreeRemote(t, s, b) => SpanRemote.StepStart(st, t, s, b);
    case RemoteExchange(t) => SpanRemote.StepLock(st, t);
    case RemoteLink(t) => SpanRemote.StepLink(st, t);
    case RemoteRelease(t) => SpanRemote.StepUnlock(st, t);
    case RemoteLoad(t) => SpanRemote.StepLoadTop(st, t);
    case RemoteSwap(t, spurious) => SpanRemote.StepSwap(st, t, spurious);
  }

  lemma StartKeeps(st: State)
    requires Initial(st)
    ensures Inv(st)
  {
    assert FullSpans(st) == {};
  }

  /** Every reachable state satisfies the invariant. */
  lemma {:induction false} EveryRun(st: State, run: seq<Action>)
    requires Inv(st) && IsRun(st, run)
    ensures Inv(After(st, run))
    decreases |run|
  {
    if run != [] {
      StepKeeps(st, run[0]);
      EveryRun(Apply(st, run[0]), run[1..]);
    }
  }

  ghost predicate Reachable(st: State) {
    exists start: State, run: seq<Action> :: Initial(start) && IsRun(start, run) && After(start, run) == st
  }

  lemma ReachableInv(st: State)
    requires Reachable(st)
    ensures Inv(st)
  {
    var start: State, run: seq<Action> :| Initial(start) && IsRun(start, run) && After(start, run) == st;
    StartKeeps(start);
    EveryRun(start, run);
  }

  /** The thread that has block b in its hand, if any, is unique. */
  ghost predicate SomeHand(st: State, s: SpanId, b: nat) {
    exists w :: HasBlock(st, w, s, b)
  }

  /**
    Conservation: in every reachable state each block of an active span is in exactly one place, on a list
    at most once, and in at most one hand.  While a thread holds the INVALID_POINTER lock the deferred list
    is in its hands; otherwise it is the list the word points to, and list_size is its length.
   */
  lemma BlockInOnePlace(st: State, s: SpanId, b: nat)
    requires Reachable(st) && IsActive(st, s) && b < st.n
    ensures var sp := st.spans[s];
            && sp.free.List?
            && One(UserHolds(st, s, b)) + One(SomeHand(st, s, b)) + One(b in sp.free.blocks) + One(b in sp.deferred)
               + One(b in ClassList(st, s)) + One(b >= sp.limit) == 1
            && Distinct(sp.free.blocks) && Distinct(sp.deferred) && Distinct(ClassList(st, s))
            && (forall w, w' :: HasBlock(st, w, s, b) && HasBlock(st, w', s, b) ==> w == w')
            && (sp.word != Locked ==> sp.word == Blocks(sp.deferred) && sp.listSize == |sp.deferred|)
  {
    ReachableInv(st);
    var sp := st.spans[s];
    assert SpanOk(st, s);
    assert sp.place[b].Hand? ==> HasBlock(st, sp.place[b].w, s, b);
    forall w | HasBlock(st, w, s, b) ensures sp.place[b] == Hand(w) {
      if w.Remote? { assert RemoteOk(st, w.t); }
    }
  }

  /** The counters between two operations of the owner, with the remote threads anywhere. */
  lemma CountersAtRest(st: State, s: SpanId)
    requires Reachable(st) && st.owner == Ready && IsActive(st, s)
    ensures var sp := st.spans[s];
            && sp.free.List?
            && sp.used == sp.limit - |sp.free.blocks|
            && sp.listSize == |sp.deferred|
            && (s in st.partial <==> !Full(st.n, sp))
    ensures st.fullCount == |FullSpans(st)|
  {
    ReachableInv(st);
    assert SpanOk(st, s);
  }

  /** Nobody uses the span: no user holds a block, no thread has one in its hand or holds the lock. */
  ghost predicate Unused(st: State, s: SpanId)
    requires s < |st.spans|
  {
    && (forall b :: !UserHolds(st, s, b))
    && (forall w, b :: !HasBlock(st, w, s, b))
    && (forall w :: !HasLock(st, w, s))
    && ClassList(st, s) == []
  }

  /** A span that is not active is unused. */
  lemma InactiveUnused(st: State, s: SpanId)
    requires Inv(st) && s < |st.spans| && st.spans[s].phase != Active
    ensures Unused(st, s)
  {
    assert SpanOk(st, s);
    forall w ensures !HasLock(st, w, s) {
      if w.Remote? { assert RemoteOk(st, w.t); }
    }
    forall w, b: nat ensures !HasBlock(st, w, s, b) {
      if w.Remote? { assert RemoteOk(st, w.t); }
    }
  }

  predicate RemoteAction(a: Action) {
    a.FreeRemote? || a.RemoteExchange? || a.RemoteLink? || a.RemoteRelease? || a.RemoteLoad? || a.RemoteSwap?
  }

  /** Only two steps retire a span: the owner's unlinking and the release by the last remote free. */
  lemma OnlyTwoRetire(st: State, a: Action, s: SpanId)
    requires Enabled(st, a) && s < |st.spans| && a != Unlink && !a.RemoteRelease?
    ensures |Apply(st, a).spans| == |st.spans|
    ensures Apply(st, a).spans[s].retired == st.spans[s].retired
  {
    if RemoteAction(a) { RemoteNeverRetires(st, a, s); } else { OwnerNeverRetires(st, a, s); }
  }

  lemma RemoteNeverRetires(st: State, a: Action, s: SpanId)
    requires Enabled(st, a) && s < |st.spans| && RemoteAction(a) && !a.RemoteRelease?
    ensures |Apply(st, a).spans| == |st.spans|
    ensures Apply(st, a).spans[s].retired == st.spans[s].retired
  {
  }

  lemma OwnerNeverRetires(st: State, a: Action, s: SpanId)
    requires Enabled(st, a) && s < |st.spans| && !RemoteAction(a) && a != Unlink
    ensures |Apply(st, a).spans| == |st.spans|
    ensures Apply(st, a).spans[s].retired == st.spans[s].retired
  {
  }

  /** A span is retired only when nobody uses it any more, and nobody is left inside it. */
  lemma RetiredUnused(st: State, a: Action, s: SpanId)
    requires Reachable(st) && Enabled(st, a) && s < |st.spans|
    ensures |Apply(st, a).spans| == |st.spans|
    ensures var sp, sp' := st.spans[s], Apply(st, a).spans[s];
            sp'.retired != sp.retired ==>
              && sp'.retired == sp.retired + 1
              && (forall b :: !UserHolds(st, s, b))
              && Unused(Apply(st, a), s)
  {
    ReachableInv(st);
    if a == Unlink {
      RetiredByOwner(st, s);
    } else if a.RemoteRelease? {
      RetiredByRemote(st, a.t, s);
    } else {
      OnlyTwoRetire(st, a, s);
    }
  }

  lemma RetiredByOwner(st: State, s: SpanId)
    requires Inv(st) && st.owner.Retire? && s < |st.spans|
    ensures |UnlinkSpan(st).spans| == |st.spans|
    ensures s != st.owner.s ==> UnlinkSpan(st).spans[s] == st.spans[s]
    ensures s == st.owner.s ==>
              && UnlinkSpan(st).spans[s].retired == st.spans[s].retired + 1
              && Unused(UnlinkSpan(st), s) && forall b :: !UserHolds(st, s, b)
  {
    if s == st.owner.s {
      SpanOwner.StepUnlink(st);
      InactiveUnused(UnlinkSpan(st), s);
    }
  }

  lemma RetiredByRemote(st: State, t: nat, s: SpanId)
    requires Inv(st) && Pc(st, t).Linked? && s < |st.spans|
    ensures |UnlockRemote(st, t).spans| == |st.spans|
    ensures !(s == Pc(st, t).s && Pc(st, t).all) ==> UnlockRemote(st, t).spans[s].retired == st.spans[s].retired
    ensures s == Pc(st, t).s && Pc(st, t).all ==>
              && UnlockRemote(st, t).spans[s].retired == st.spans[s].retired + 1
              && Unused(UnlockRemote(st, t), s) && forall b :: !UserHolds(st, s, b)
  {
    if s == Pc(st, t).s && Pc(st, t).all {
      SpanRemote.StepUnlock(st, t);
      InactiveUnused(UnlockRemote(st, t), s);
      assert SpanOk(st, s) && RemoteOk(st, t);
      AllAccounted(st.n, st.spans[s], ClassList(st, s));
    }
  }

  /** At most one retirement a life, in every run: the two racing tests never both succeed. */
  lemma RetiredOnceALife(st: State, s: SpanId)
    requires Reachable(st) && s < |st.spans|
    ensures st.spans[s].lives == st.spans[s].retired + One(st.spans[s].phase == Active)
  {
    ReachableInv(st);
    assert SpanOk(st, s);
  }

  /** Once the owner has seen the span free, no other thread can find it completely deferred. */
  lemma TestsExclude(st: State, s: SpanId, t: nat)
    requires Reachable(st) && (st.owner == Sync(s) || st.owner.Synced? || st.owner == Retire(s)) && st.owner.s == s
    ensures !HandsOver(st, t, s) && !(Pc(st, t).Linked? && Pc(st, t).s == s && Pc(st, t).all)
    ensures !(Pc(st, t).Want? && Pc(st, t).s == s) && !(Pc(st, t).Hold? && Pc(st, t).s == s)
  {
    ReachableInv(st);
    assert SpanOk(st, s);
    assert RemoteOk(st, t);
    DeferredBelow(st.n, st.spans[s], ClassList(st, s));
  }

  /** No span is stranded: with every remote thread idle, a fully utilised span has a block out. */
  lemma NeverStranded(st: State, s: SpanId)
    requires Reachable(st) && st.owner == Ready && (forall t :: 0 <= t < |st.threads| ==> st.threads[t].Idle?)
    requires IsActive(st, s) && Full(st.n, st.spans[s])
    ensures exists b :: 0 <= b < |st.spans[s].place| && (UserHolds(st, s, b) || b in ClassList(st, s))
  {
    ReachableInv(st);
    var sp := st.spans[s];
    assert SpanOk(st, s);
    var below := SpanProtocol.Range(0, st.n);
    if forall b :: 0 <= b < st.n ==> b in sp.deferred {
      DistinctSet(below); DistinctSet(sp.deferred);
      forall x | x in Elements(below) ensures x in Elements(sp.deferred) {}
      Subset(Elements(below), Elements(sp.deferred));
      DeferredBelow(st.n, sp, ClassList(st, s));
    }
    var b :| 0 <= b < st.n && b !in sp.deferred;
    assert sp.place[b] == User || sp.place[b] == InClass;
  }
}
