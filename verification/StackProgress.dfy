/** What a push on the deferred-span stack and the owner's walk of it come to. */
module StackProgress {
  import opened Options
  import P = SpanProtocol
  import SpanTheorems
  import SpanOwner
  import SpanProgress
  import opened DeferredStack

  /** The span is in a cache; a large or huge one is nobody's any more. */
  predicate Adopted(st: State, n: Node) {
    match n
    case InClass(p, s) => p < |st.pools| && s < |st.pools[p].spans| && st.pools[p].spans[s].phase == P.Cached
    case Other(i) => i < |st.others| && st.others[i] == Gone
  }

  /** The owner walks, and each of the spans is before it or adopted. */
  ghost predicate Walks(st: State, ids: seq<Node>) {
    st.walking && forall n :: n in ids ==> n in st.rest || Adopted(st, n)
  }

  // ----- an adopted span stays, while the owner walks

  lemma ClassLeaves(st: State, p: nat, act: P.Action, n: Node)
    requires Inv(st) && st.walking && ClassStep(st, p, act) && Adopted(st, n)
    ensures Adopted(SetPool(st, p, P.Apply(st.pools[p], act)), n)
  {
    var pool := st.pools[p];
    assert PartOk(pool, p, st.walking, st.stack, st.rest);
    SpanTheorems.ReachableInv(pool);
    assert SpanTheorems.RemoteAction(act);
    SpanProgress.OwnerStays(pool, act);
    if n.InClass? && n.p == p { SpanProgress.CachedStays(pool, act, n.s); }
  }

  ghost predicate InCache(pool: P.State, s: nat) { s < |pool.spans| && pool.spans[s].phase == P.Cached }

  lemma CachedOn(pool: P.State, act: P.Action, s: nat)
    requires SpanTheorems.Reachable(pool) && P.Enabled(pool, act) && SpanTheorems.RemoteAction(act) && InCache(pool, s)
    ensures InCache(P.Apply(pool, act), s)
  {
    SpanTheorems.ReachableInv(pool);
    SpanProgress.CachedStays(pool, act, s);
  }

  lemma LoadLeaves(st: State, p: nat, t: nat, n: Node)
    requires PoolsOk(st.pools) && Enabled(st, LoadTop(p, t)) && Adopted(st, n)
    ensures Adopted(Apply(st, LoadTop(p, t)), n)
  {
    if n.InClass? && n.p == p { CachedOn(st.pools[p], P.RemoteLoad(t), n.s); }
  }

  lemma SwapLeaves(st: State, p: nat, t: nat, spurious: bool, n: Node)
    requires PoolsOk(st.pools) && Enabled(st, SwapTop(p, t, spurious)) && Adopted(st, n)
    ensures Adopted(AfterSwap(st, p, t, spurious), n)
  {
    if n.InClass? && n.p == p { SwapCached(st.pools[p], t, n.s); }
  }

  lemma SwapCached(pool: P.State, t: nat, s: nat)
    requires SpanTheorems.Reachable(pool) && P.Pc(pool, t).Swap? && InCache(pool, s)
    ensures InCache(P.SwapTop(pool, t, true), s) && InCache(PushThrough(pool, t), s)
  {
    CachedOn(pool, P.RemoteSwap(t, true), s);
    ThroughCached(pool, t, s);
  }

  /** A push that goes through is to its class a miss, a load and a success, and none touches a cached span. */
  lemma ThroughCached(pool: P.State, t: nat, s: nat)
    requires SpanTheorems.Reachable(pool) && P.Pc(pool, t).Swap? && InCache(P.SwapTop(pool, t, true), s)
    ensures InCache(PushThrough(pool, t), s)
  {
    var again := P.SwapTop(pool, t, true);
    RetryOk(pool, t);
    LoadOk(again, t);
    CachedOn(again, P.RemoteLoad(t), s);
    var loaded := P.LoadTop(again, t);
    if P.Pc(loaded, t).Swap? { CachedOn(loaded, P.RemoteSwap(t, false), s); }
  }

  // ----- the walk

  lemma NextIs(st: State)
    requires Inv(st) && Enabled(st, AdoptNext)
    ensures st.rest != [] && st.at == Some(st.rest[0])
    ensures AfterAdopt(st).rest == st.rest[1..] && AfterAdopt(st).walking
  {
  }

  lemma NextAdopts(st: State, n: Node)
    requires Inv(st) && Enabled(st, AdoptNext) && (Adopted(st, n) || st.at == Some(n))
    ensures Adopted(AfterAdopt(st), n)
  {
    NextIs(st);
    NodesAdopt(|st.pools|, st.others, st.stack, st.rest);
    if st.rest[0].InClass? { ClassAdopts(st, st.rest[0].p, st.rest[0].s, n); }
  }

  lemma ClassAdopts(st: State, p: nat, s: nat, n: Node)
    requires Inv(st) && Enabled(st, AdoptNext) && st.at == Some(InClass(p, s)) && p < |st.pools|
    requires st.rest != [] && st.rest[0] == InClass(p, s) && (Adopted(st, n) || st.at == Some(n))
    ensures Adopted(AfterAdopt(st), n)
  {
    var pool := st.pools[p];
    assert PartOk(pool, p, true, st.stack, st.rest);
    AtHead(pool, p, s, st.stack, st.rest);
    HeadAdopts(pool, s);
    if n.InClass? && n.p == p { assert InCache(P.AdoptSpan(pool), n.s); }
  }

  lemma HeadAdopts(pool: P.State, s: nat)
    requires SpanTheorems.Reachable(pool) && pool.owner.Adopt? && pool.owner.walk == Some(s)
    ensures InCache(P.AdoptSpan(pool), s) && forall x :: InCache(pool, x) ==> InCache(P.AdoptSpan(pool), x)
  {
    SpanTheorems.ReachableInv(pool);
    SpanOwner.AdoptChains(pool);
  }

  lemma EndLeaves(st: State)
    requires Inv(st) && Enabled(st, AdoptEnd)
    ensures st.rest == [] && !Apply(st, AdoptEnd).walking
    ensures forall n :: Adopted(st, n) ==> Adopted(Apply(st, AdoptEnd), n)
  {
    assert st.rest == [];
    EndParts(st.pools, st.stack);
    forall p | 0 <= p < |st.pools| ensures P.AdoptSpan(st.pools[p]).spans == st.pools[p].spans {
      assert PartOk(st.pools[p], p, true, st.stack, st.rest);
      SpanTheorems.ReachableInv(st.pools[p]);
    }
  }

  /** The owner walks on until it ends the walk. */
  lemma StillWalks(st: State, a: Action)
    requires Inv(st) && Enabled(st, a) && st.walking && a != AdoptEnd && a != AdoptNext
    ensures Apply(st, a).walking && Apply(st, a).rest == st.rest
  {
  }

  lemma Leaves(st: State, a: Action, n: Node)
    requires Inv(st) && Enabled(st, a) && st.walking && a != AdoptEnd && Adopted(st, n)
    ensures Adopted(Apply(st, a), n)
  {
    match a
    case AdoptNext => NextAdopts(st, n);
    case Class(p, act) => ClassLeaves(st, p, act, n);
    case LoadTop(p, t) => LoadLeaves(st, p, t, n);
    case SwapTop(p, t, spurious) => SwapLeaves(st, p, t, spurious, n);
    case _ =>
  }

  lemma WalkOn(st: State, a: Action, ids: seq<Node>)
    requires Inv(st) && Enabled(st, a) && Walks(st, ids) && a != AdoptEnd
    ensures Walks(Apply(st, a), ids)
  {
    if a == AdoptNext { NextIs(st); } else { StillWalks(st, a); }
    forall n | n in ids && n !in Apply(st, a).rest ensures Adopted(Apply(st, a), n) {
      if Adopted(st, n) { Leaves(st, a, n); } else { NextAdopts(st, n); }
    }
  }

  /** The actions can be taken one after the other from st. */
  ghost predicate Steps(st: State, run: seq<Action>)
    decreases |run|
  {
    run == [] || (Enabled(st, run[0]) && Steps(Apply(st, run[0]), run[1..]))
  }

  ghost function End(st: State, run: seq<Action>): State
    requires Steps(st, run)
    decreases |run|
  {
    if run == [] then st else End(Apply(st, run[0]), run[1..])
  }

  lemma TakeBegins(st: State)
    requires Inv(st) && AtRest(st)
    ensures Walks(Apply(st, TakeAll), st.stack)
  {
  }

  lemma {:induction false} WalksOn(st: State, ids: seq<Node>, run: seq<Action>)
    requires Inv(st) && Walks(st, ids) && Steps(st, run) && AdoptEnd !in run
    ensures Inv(End(st, run)) && Walks(End(st, run), ids)
    decreases |run|
  {
    if run != [] {
      WalkOn(st, run[0], ids);
      StepKeeps(st, run[0]);
      WalksOn(Apply(st, run[0]), ids, run[1..]);
    }
  }

  /**
    Whatever the other threads push meanwhile, at the end of the owner's walk every span that was on the stack when it
    took it, of whatever class or size, is in a cache or nobody's any more.
  */
  lemma WalkComesTo(st: State, run: seq<Action>, n: Node)
    requires Inv(st) && AtRest(st) && n in st.stack
    requires Steps(Apply(st, TakeAll), run) && AdoptEnd !in run && Enabled(End(Apply(st, TakeAll), run), AdoptEnd)
    ensures Adopted(Apply(End(Apply(st, TakeAll), run), AdoptEnd), n)
  {
    TakeBegins(st);
    StepKeeps(st, TakeAll);
    WalksOn(Apply(st, TakeAll), st.stack, run);
    EndLeaves(End(Apply(st, TakeAll), run));
  }

  lemma Before(st: State, a: Action, run: seq<Action>)
    requires Enabled(st, a) && Steps(Apply(st, a), run)
    ensures Steps(st, [a] + run) && End(st, [a] + run) == End(Apply(st, a), run)
  {
    assert ([a] + run)[1..] == run;
  }

  /** And a walk can always be brought to its end, in as many steps as it has spans before it. */
  lemma {:induction false} WalkEnds(st: State) returns (run: seq<Action>)
    requires Inv(st) && st.walking
    ensures Steps(st, run) && AdoptEnd !in run && |run| == |st.rest| && Enabled(End(st, run), AdoptEnd)
    decreases |st.rest|
  {
    if st.at == None {
      run := [];
    } else {
      NextIs(st);
      StepKeeps(st, AdoptNext);
      var later := WalkEnds(AfterAdopt(st));
      run := [AdoptNext] + later;
      Before(st, AdoptNext, later);
    }
  }

  /** A push that nobody comes between puts its span on top of the stack. */
  lemma OtherLands(st: State, i: nat)
    requires Inv(st) && i < |st.others| && st.others[i] == Push
    ensures var t := Apply(st, LoadOther(i));
            && Enabled(t, SwapOther(i, false))
            && var u := Apply(t, SwapOther(i, false)); u.stack == [Other(i)] + st.stack && u.top == Some(Other(i))
  {
  }

  lemma ClassLands(st: State, p: nat, t: nat)
    requires Inv(st) && p < |st.pools| && P.Pc(st.pools[p], t).Push?
    ensures var n, u := Pushed(st, p, t), Apply(st, LoadTop(p, t));
            && Enabled(u, SwapTop(p, t, false))
            && var v := Apply(u, SwapTop(p, t, false)); v.stack == [n] + st.stack && v.top == Some(n)
  {
  }
}
