/**
  What the steps of the block protocol do to the blocks users hold and to the spans in the caches: nothing but
  their own.
*/
module SpanUse {
  import opened Options
  import opened SpanProtocol
  import opened SpanSafety
  import SpanTheorems

  datatype Block = Block(s: SpanId, b: nat)

  /** The block a step hands to the user. */
  function HandedOut(st: State, a: Action): Option<Block>
    requires Enabled(st, a)
  {
    match a
    case AllocFast => Some(Block(st.classSpan, st.classFree[0]))
    case AllocNew(s, _) => Some(Block(s, 0))
    case Return => Some(Block(st.owner.s, st.owner.b))
    case _ => None
  }

  /** The block a step takes from its user. */
  function TakenBack(a: Action): Option<Block> {
    match a
    case FreeLocal(s, b) => Some(Block(s, b))
    case FreeRemote(_, s, b) => Some(Block(s, b))
    case _ => None
  }

  /** The span a step puts back into the cache. */
  function Released(st: State, a: Action): Option<SpanId>
    requires Enabled(st, a)
  {
    match a
    case Unlink => Some(st.owner.s)
    case AdoptOne => st.owner.walk
    case _ => None
  }

  /** Two states of one span, as far as its user's blocks and the caches go. */
  ghost predicate SameUse(sp: Span, sp': Span) {
    && (sp'.phase == Cached <==> sp.phase == Cached) && |sp'.place| == |sp.place|
    && forall b :: 0 <= b < |sp.place| ==>
         ((sp'.phase == Active && sp'.place[b] == User) <==> (sp.phase == Active && sp.place[b] == User))
  }

  /** A step that changes one span and neither hands out nor takes back nor releases anything. */
  ghost predicate Quiet(st: State, st': State, s: SpanId) {
    && st'.n == st.n && |st'.spans| == |st.spans|
    && (forall x :: 0 <= x < |st.spans| && x != s ==> st'.spans[x] == st.spans[x])
    && (s < |st.spans| ==> SameUse(st.spans[s], st'.spans[s]))
  }

  lemma QuietTake(st: State, k: nat)
    requires Inv(st) && CanTake(st, k)
    ensures Quiet(st, TakeBlock(st, k), st.partial[0])
  {
    var s := st.partial[0];
    assert SpanOk(st, s) && IsActive(st, s);
  }

  lemma QuietExchange(st: State)
    requires Inv(st) && st.owner.Extract?
    ensures Quiet(st, ExchangeWord(st), st.owner.s)
  {
    assert SpanOk(st, st.owner.s);
  }

  lemma QuietRelease(st: State, t: nat)
    requires Inv(st) && Pc(st, t).Linked?
    ensures Quiet(st, UnlockRemote(st, t), Pc(st, t).s)
  {
    var s := Pc(st, t).s;
    assert RemoteOk(st, t);
    if Pc(st, t).all {
      SpanTheorems.RetiredByRemote(st, t, s);
      forall b | 0 <= b < |st.spans[s].place| ensures st.spans[s].place[b] != User {
        assert !UserHolds(st, s, b);
      }
    }
  }

  lemma QuietLink(st: State, t: nat)
    requires Inv(st) && Pc(st, t).Hold?
    ensures Quiet(st, LinkRemote(st, t), Pc(st, t).s)
  {
    assert RemoteOk(st, t);
  }

  lemma QuietSwap(st: State, t: nat, spurious: bool)
    requires Inv(st) && Pc(st, t).Swap?
    ensures Quiet(st, SwapTop(st, t, spurious), Pc(st, t).s)
  {
    assert RemoteOk(st, t);
  }

  predicate IsQuiet(st: State, a: Action)
    requires Enabled(st, a)
  {
    HandedOut(st, a) == None && TakenBack(a) == None && Released(st, a) == None
  }

  function About(st: State, a: Action): SpanId
    requires Enabled(st, a)
  {
    match a
    case AllocSlow(_) => st.partial[0]
    case Exchange => st.owner.s
    case Adjust => st.owner.s
    case Release => st.owner.s
    case SyncExchange => st.owner.s
    case SyncRelease => st.owner.s
    case RemoteExchange(t) => Pc(st, t).s
    case RemoteLink(t) => Pc(st, t).s
    case RemoteRelease(t) => Pc(st, t).s
    case RemoteLoad(t) => Pc(st, t).s
    case RemoteSwap(t, _) => Pc(st, t).s
    case _ => 0
  }

  lemma QuietOwner(st: State, a: Action)
    requires Inv(st) && Enabled(st, a) && IsQuiet(st, a) && !SpanTheorems.RemoteAction(a)
    ensures Quiet(st, Apply(st, a), About(st, a))
  {
    match a
    case AllocSlow(k) => QuietTake(st, k);
    case Exchange => QuietExchange(st);
    case _ =>
  }

  lemma QuietRemote(st: State, a: Action)
    requires Inv(st) && Enabled(st, a) && IsQuiet(st, a) && SpanTheorems.RemoteAction(a)
    ensures Quiet(st, Apply(st, a), About(st, a))
  {
    match a
    case RemoteLink(t) => QuietLink(st, t);
    case RemoteRelease(t) => QuietRelease(st, t);
    case RemoteSwap(t, spurious) => QuietSwap(st, t, spurious);
    case _ =>
  }

  /** What a step does to the users' blocks and to the spans in the caches, and that it does no more. */
  ghost predicate Moves(st: State, st': State, out: Option<Block>, back: Option<Block>, into: Option<SpanId>,
                        from: Option<SpanId>)
  {
    && st'.n == st.n && |st'.spans| == |st.spans|
    && (forall s, b :: UserHolds(st', s, b) <==>
          out == Some(Block(s, b)) || (UserHolds(st, s, b) && back != Some(Block(s, b))))
    && (forall s :: 0 <= s < |st.spans| ==>
          (st'.spans[s].phase == Cached <==> into == Some(s) || (st.spans[s].phase == Cached && from != Some(s))))
    && (out.Some? ==> !UserHolds(st, out.value.s, out.value.b))
    && (into.Some? ==> into.value < |st.spans| && st.spans[into.value].phase != Cached)
  }

  lemma QuietMoves(st: State, st': State, s: SpanId)
    requires Quiet(st, st', s)
    ensures Moves(st, st', None, None, None, None)
  {
    forall x: SpanId, b ensures UserHolds(st', x, b) <==> UserHolds(st, x, b) {
      if x < |st.spans| && x != s { assert st'.spans[x] == st.spans[x]; }
    }
  }

  lemma GivenMoves(st: State, st': State, s: SpanId, b: nat)
    requires s < |st.spans| && st.spans[s].phase == Active && b < |st.spans[s].place| && st.spans[s].place[b] != User
    requires st'.n == st.n && st'.spans == st.spans[s := st.spans[s].(place := st.spans[s].place[b := User])]
    ensures Moves(st, st', Some(Block(s, b)), None, None, None)
  {
  }

  lemma PopMoves(st: State)
    requires Inv(st) && CanPop(st)
    ensures Moves(st, PopClass(st), Some(Block(st.classSpan, st.classFree[0])), None, None, None)
  {
    assert SpanOk(st, st.classSpan);
    assert st.classFree[0] in ClassList(st, st.classSpan);
    GivenMoves(st, PopClass(st), st.classSpan, st.classFree[0]);
  }

  lemma InitialiseMoves(st: State, s: SpanId, k: nat)
    requires Inv(st) && CanInitialise(st, s, k)
    ensures Moves(st, InitialiseSpan(st, s, k), Some(Block(s, 0)), None, None, Some(s))
  {
  }

  lemma ReturnMoves(st: State)
    requires Inv(st) && st.owner.Finish?
    ensures Moves(st, ReturnBlock(st), Some(Block(st.owner.s, st.owner.b)), None, None, None)
  {
    assert AtHead(st, st.owner.s, st.owner.b);
    GivenMoves(st, ReturnBlock(st), st.owner.s, st.owner.b);
  }

  lemma PushMoves(st: State, s: SpanId, b: nat)
    requires Inv(st) && CanFree(st, s, b)
    ensures Moves(st, PushLocal(st, s, b), None, Some(Block(s, b)), None, None)
  {
  }

  lemma StartMoves(st: State, t: nat, s: SpanId, b: nat)
    requires Inv(st) && CanFreeRemote(st, t, s, b)
    ensures Moves(st, StartRemote(st, t, s, b), None, Some(Block(s, b)), None, None)
  {
  }

  lemma UnlinkMoves(st: State)
    requires Inv(st) && st.owner.Retire?
    ensures Moves(st, UnlinkSpan(st), None, None, Some(st.owner.s), None)
  {
    assert Freeing(st, st.owner.s);
    SpanTheorems.RetiredByOwner(st, st.owner.s);
  }

  lemma AdoptMoves(st: State)
    requires Inv(st) && st.owner.Adopt?
    ensures Moves(st, AdoptSpan(st), None, None, st.owner.walk, None)
  {
    if st.owner.walk.Some? {
      assert Chain(st.spans, st.owner.walk, st.owner.rest);
      assert st.owner.rest != [] && st.owner.rest[0] in st.queue + Walk(st);
    }
  }

  function Initialised(a: Action): Option<SpanId> { if a.AllocNew? then Some(a.s) else None }

  /**
    Every step: an allocation gives the user a block that no user held, a free takes the freed one away, a retired
    span goes to the cache and a new one comes from there; and no step does anything else to users and caches.
  */
  lemma StepMoves(st: State, a: Action)
    requires Inv(st) && Enabled(st, a)
    ensures Moves(st, Apply(st, a), HandedOut(st, a), TakenBack(a), Released(st, a), Initialised(a))
  {
    if IsQuiet(st, a) {
      if SpanTheorems.RemoteAction(a) { QuietRemote(st, a); } else { QuietOwner(st, a); }
      QuietMoves(st, Apply(st, a), About(st, a));
    } else {
      LoudMoves(st, a);
    }
  }

  lemma LoudMoves(st: State, a: Action)
    requires Inv(st) && Enabled(st, a) && !IsQuiet(st, a)
    ensures Moves(st, Apply(st, a), HandedOut(st, a), TakenBack(a), Released(st, a), Initialised(a))
  {
    match a
    case AllocFast => PopMoves(st);
    case AllocNew(s, k) => InitialiseMoves(st, s, k);
    case Return => ReturnMoves(st);
    case FreeLocal(s, b) => PushMoves(st, s, b);
    case FreeRemote(t, s, b) => StartMoves(st, t, s, b);
    case Unlink => UnlinkMoves(st);
    case AdoptOne => AdoptMoves(st);
  }
}
