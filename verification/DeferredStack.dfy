/**
  The deferred-span stack of one heap (rpmalloc.c): spans of every size class, and large and huge ones, that other
  threads have freed, on one lock-free stack linked through their free_list words.  The owner takes all of it and
  walks it.  Each class has the protocol of its own (SpanProtocol), in which only its own spans are on the stack:
  a step of the one stack is a step, three steps or none of that protocol, and what is proved of it holds here.
*/
module DeferredStack {
  import opened Options
  import P = SpanProtocol
  import PS = SpanSafety
  import SpanTheorems

  /** Span s of class p; a large or huge span. */
  datatype Node = InClass(p: nat, s: nat) | Other(i: nat)

  /** A large or huge span: nobody's, in use, being freed by another thread, on the stack or taken off it. */
  datatype Phase = Gone | Used | Push | Swap | Queued

  datatype State = State(
    pools: seq<P.State>,              // the heap's classes
    others: seq<Phase>,
    link: map<Node, Option<Node>>,    // the free_list words of spans freed by other threads
    top: Option<Node>,                // span_free_deferred
    at: Option<Node>,                 // where the owner is in its walk
    walking: bool,
    full: int,                        // full_span_count
    // bookkeeping
    stack: seq<Node>,                 // what is below the top
    rest: seq<Node>)                  // what is left of the walk

  datatype Action =
    | Class(p: nat, act: P.Action)    // any step of a class that does not touch the stack
    | LoadTop(p: nat, t: nat)         // thread t pushes a span of class p: link written
    | SwapTop(p: nat, t: nat, spurious: bool)
    | Use(i: nat)                     // the owner allocates a large or huge span
    | Free(i: nat)                    // and frees it
    | FreeRemote(i: nat)              // another thread frees it
    | LoadOther(i: nat)
    | SwapOther(i: nat, spurious: bool)
    | TakeAll                         // the owner's exchange
    | AdoptNext
    | AdoptEnd

  // ----- the steps

  predicate OnStack(act: P.Action) { act.AdoptAll? || act.AdoptOne? || act.RemoteLoad? || act.RemoteSwap? }

  /** The owner is in no operation. */
  predicate AtRest(st: State) { !st.walking && forall q :: 0 <= q < |st.pools| ==> st.pools[q].owner.Ready? }

  predicate ClassStep(st: State, p: nat, act: P.Action) {
    p < |st.pools| && !OnStack(act) && P.Enabled(st.pools[p], act)
  }

  predicate Enabled(st: State, a: Action) {
    match a
    case Class(p, act) => ClassStep(st, p, act)
    case LoadTop(p, t) => p < |st.pools| && P.Pc(st.pools[p], t).Push?
    case SwapTop(p, t, _) => p < |st.pools| && P.Pc(st.pools[p], t).Swap?
    case Use(i) => i < |st.others| && st.others[i] == Gone && AtRest(st)
    case Free(i) => i < |st.others| && st.others[i] == Used && AtRest(st)
    case FreeRemote(i) => i < |st.others| && st.others[i] == Used
    case LoadOther(i) => i < |st.others| && st.others[i] == Push
    case SwapOther(i, _) => i < |st.others| && st.others[i] == Swap
    case TakeAll => AtRest(st)
    case AdoptNext => st.walking && st.at.Some?
    case AdoptEnd => st.walking && st.at.None?
  }

  function SetPool(st: State, p: nat, pool: P.State): State
    requires p < |st.pools|
  {
    st.(pools := st.pools[p := pool], full := st.full + pool.fullCount - st.pools[p].fullCount)
  }

  /** The span thread t of class p pushes. */
  function Pushed(st: State, p: nat, t: nat): Node
    requires p < |st.pools| && (P.Pc(st.pools[p], t).Push? || P.Pc(st.pools[p], t).Swap?)
  {
    InClass(p, P.Pc(st.pools[p], t).s)
  }

  /** The compare-and-swap finds the top the link was made for. */
  predicate Meets(st: State, n: Node, spurious: bool) { !spurious && n in st.link && st.link[n] == st.top }

  /** To its class the push is: once more from the load, and then through. */
  function PushThrough(pool: P.State, t: nat): P.State
    requires P.Pc(pool, t).Swap?
  {
    var again := P.SwapTop(pool, t, true);
    var loaded := if P.Pc(again, t).Push? then P.LoadTop(again, t) else again;
    if P.Pc(loaded, t).Swap? then P.SwapTop(loaded, t, false) else loaded
  }

  function AfterSwap(st: State, p: nat, t: nat, spurious: bool): State
    requires Enabled(st, SwapTop(p, t, spurious))
  {
    var n := Pushed(st, p, t);
    if Meets(st, n, spurious)
    then SetPool(st, p, PushThrough(st.pools[p], t)).(top := Some(n), stack := [n] + st.stack)
    else SetPool(st, p, P.SwapTop(st.pools[p], t, true))
  }

  function AfterSwapOther(st: State, i: nat, spurious: bool): State
    requires Enabled(st, SwapOther(i, spurious))
  {
    var n := Other(i);
    if Meets(st, n, spurious)
    then st.(others := st.others[i := Queued], top := Some(n), stack := [n] + st.stack)
    else st.(others := st.others[i := Push])
  }

  /** Every class takes its part of the stack. */
  function TakeEach(pools: seq<P.State>): (r: seq<P.State>)
    requires forall q :: 0 <= q < |pools| ==> pools[q].owner.Ready?
    ensures |r| == |pools|
  {
    seq(|pools|, q requires 0 <= q < |pools| => P.TakeStack(pools[q]))
  }

  /** Every class is done. */
  function EndEach(pools: seq<P.State>): (r: seq<P.State>)
    requires forall q :: 0 <= q < |pools| ==> pools[q].owner.Adopt?
    ensures |r| == |pools|
  {
    seq(|pools|, q requires 0 <= q < |pools| => P.AdoptSpan(pools[q]))
  }

  predicate AllAdopt(st: State) { forall q :: 0 <= q < |st.pools| ==> st.pools[q].owner.Adopt? }

  /** One span of the walk: what follows is read from its link before it goes to the cache, or is unmapped. */
  function AfterAdopt(st: State): State
    requires Enabled(st, AdoptNext)
  {
    var n := st.at.value;
    var next := if n in st.link then st.link[n] else None;
    var tail := if st.rest == [] then [] else st.rest[1..];
    var st' :=
      match n
      case InClass(p, s) =>
        if p < |st.pools| && st.pools[p].owner.Adopt? then SetPool(st, p, P.AdoptSpan(st.pools[p])) else st
      case Other(i) =>
        if i < |st.others| then st.(others := st.others[i := Gone], full := st.full - 1) else st;
    st'.(at := next, rest := tail)
  }

  function Apply(st: State, a: Action): State
    requires Enabled(st, a)
  {
    match a
    case Class(p, act) => SetPool(st, p, P.Apply(st.pools[p], act))
    case LoadTop(p, t) =>
      SetPool(st, p, P.LoadTop(st.pools[p], t)).(link := st.link[Pushed(st, p, t) := st.top])
    case SwapTop(p, t, spurious) => AfterSwap(st, p, t, spurious)
    case Use(i) => st.(others := st.others[i := Used], full := st.full + 1)
    case Free(i) => st.(others := st.others[i := Gone], full := st.full - 1)
    case FreeRemote(i) => st.(others := st.others[i := Push])
    case LoadOther(i) => st.(others := st.others[i := Swap], link := st.link[Other(i) := st.top])
    case SwapOther(i, spurious) => AfterSwapOther(st, i, spurious)
    case TakeAll =>
      st.(pools := TakeEach(st.pools), walking := true, at := st.top, rest := st.stack, top := None, stack := [])
    case AdoptNext => AfterAdopt(st)
    case AdoptEnd =>
      st.(pools := if AllAdopt(st) then EndEach(st.pools) else st.pools, walking := false, rest := [])
  }

  // ----- the invariant

  /** The spans of class p on the list. */
  function Only(list: seq<Node>, p: nat): seq<nat> {
    if list == [] then []
    else (if list[0].InClass? && list[0].p == p then [list[0].s] else []) + Only(list[1..], p)
  }

  /** Following the links from `from` visits exactly `list`. */
  ghost predicate Chain(link: map<Node, Option<Node>>, from: Option<Node>, list: seq<Node>)
    decreases |list|
  {
    if list == [] then from == None
    else from == Some(list[0]) && list[0] in link && Chain(link, link[list[0]], list[1..])
  }

  ghost predicate PoolsOk(pools: seq<P.State>) {
    forall p :: 0 <= p < |pools| ==> SpanTheorems.Reachable(pools[p])
  }

  /** To each class the stack and the walk are its own spans on them. */
  ghost predicate PartsOk(pools: seq<P.State>, walking: bool, stack: seq<Node>, rest: seq<Node>) {
    forall p :: 0 <= p < |pools| ==> PartOk(pools[p], p, walking, stack, rest)
  }

  ghost predicate PartOk(pool: P.State, p: nat, walking: bool, stack: seq<Node>, rest: seq<Node>) {
    && pool.queue == Only(stack, p) && pool.owner.Adopt? == walking
    && (walking ==> pool.owner.rest == Only(rest, p))
  }

  /** Nothing else is on them but large and huge spans that are queued, and all of those are. */
  ghost predicate NodesOk(classes: nat, others: seq<Phase>, list: seq<Node>) {
    && PS.Distinct(list)
    && (forall n <- list :: if n.InClass? then n.p < classes else n.i < |others| && others[n.i] == Queued)
    && forall i :: 0 <= i < |others| && others[i] == Queued ==> Other(i) in list
  }

  function InUse(others: seq<Phase>): nat {
    if others == [] then 0 else InUse(others[..|others| - 1]) + One(others[|others| - 1] != Gone)
  }

  function FullOf(pools: seq<P.State>): int {
    if pools == [] then 0 else FullOf(pools[..|pools| - 1]) + pools[|pools| - 1].fullCount
  }

  ghost predicate Inv(st: State) {
    && PoolsOk(st.pools) && PartsOk(st.pools, st.walking, st.stack, st.rest)
    && Chain(st.link, st.top, st.stack) && (st.walking ==> Chain(st.link, st.at, st.rest))
    && (!st.walking ==> st.rest == [])
    && NodesOk(|st.pools|, st.others, st.stack + st.rest)
    && st.full == FullOf(st.pools) + InUse(st.others)
  }

  // ----- the classes

  lemma {:induction false} RunOn(start: P.State, run: seq<P.Action>, a: P.Action)
    requires P.IsRun(start, run) && P.Enabled(P.After(start, run), a)
    ensures P.IsRun(start, run + [a]) && P.After(start, run + [a]) == P.Apply(P.After(start, run), a)
    decreases |run|
  {
    if run != [] {
      assert (run + [a])[1..] == run[1..] + [a];
      RunOn(P.Apply(start, run[0]), run[1..], a);
    }
  }

  lemma ReachableOn(pool: P.State, a: P.Action)
    requires SpanTheorems.Reachable(pool) && P.Enabled(pool, a)
    ensures SpanTheorems.Reachable(P.Apply(pool, a))
  {
    var start: P.State, run: seq<P.Action> :| P.Initial(start) && P.IsRun(start, run) && P.After(start, run) == pool;
    RunOn(start, run, a);
  }

  /** A step off the stack leaves it, and the walk, as they are. */
  lemma OffStack(pool: P.State, a: P.Action)
    requires P.Enabled(pool, a) && !OnStack(a)
    ensures var q := P.Apply(pool, a);
            q.queue == pool.queue && q.owner.Adopt? == pool.owner.Adopt? && (q.owner.Adopt? ==> q.owner == pool.owner)
  {
    if SpanTheorems.RemoteAction(a) { OffStackRemote(pool, a); } else { OffStackOwner(pool, a); }
  }

  lemma OffStackRemote(pool: P.State, a: P.Action)
    requires P.Enabled(pool, a) && !OnStack(a) && SpanTheorems.RemoteAction(a)
    ensures P.Apply(pool, a).queue == pool.queue && P.Apply(pool, a).owner == pool.owner
  {
  }

  lemma OffStackOwner(pool: P.State, a: P.Action)
    requires P.Enabled(pool, a) && !OnStack(a) && !SpanTheorems.RemoteAction(a)
    ensures P.Apply(pool, a).queue == pool.queue && !pool.owner.Adopt? && !P.Apply(pool, a).owner.Adopt?
  {
  }

  lemma LoadOk(pool: P.State, t: nat)
    requires SpanTheorems.Reachable(pool) && P.Pc(pool, t).Push?
    ensures var q := P.LoadTop(pool, t);
            SpanTheorems.Reachable(q) && q.queue == pool.queue && q.owner == pool.owner && q.fullCount == pool.fullCount
  {
    ReachableOn(pool, P.RemoteLoad(t));
  }

  lemma RetryOk(pool: P.State, t: nat)
    requires SpanTheorems.Reachable(pool) && P.Pc(pool, t).Swap?
    ensures var q := P.SwapTop(pool, t, true);
            && SpanTheorems.Reachable(q) && q.queue == pool.queue && q.owner == pool.owner
            && q.fullCount == pool.fullCount && P.Pc(q, t) == P.Push(P.Pc(pool, t).s)
  {
    ReachableOn(pool, P.RemoteSwap(t, true));
  }

  lemma PushThroughOk(pool: P.State, t: nat)
    requires SpanTheorems.Reachable(pool) && P.Pc(pool, t).Swap?
    ensures var q := PushThrough(pool, t);
            && SpanTheorems.Reachable(q) && q.queue == [P.Pc(pool, t).s] + pool.queue && q.owner == pool.owner
            && q.fullCount == pool.fullCount
  {
    var s, again := P.Pc(pool, t).s, P.SwapTop(pool, t, true);
    RetryOk(pool, t);
    SpanTheorems.ReachableInv(again);
    assert PS.RemoteOk(again, t);
    var loaded := P.LoadTop(again, t);
    LoadOk(again, t);
    assert P.Pc(loaded, t) == P.Swap(s) && P.SpanAt(loaded, s).free == P.Link(loaded.top);
    ReachableOn(loaded, P.RemoteSwap(t, false));
  }

  // ----- lists

  lemma {:induction false} OnlyHas(list: seq<Node>, p: nat, s: nat)
    ensures s in Only(list, p) <==> InClass(p, s) in list
  {
    if list != [] {
      OnlyHas(list[1..], p, s);
      assert list == [list[0]] + list[1..];
    }
  }

  lemma OnlyPush(n: Node, list: seq<Node>, p: nat)
    ensures Only([n] + list, p) == (if n.InClass? && n.p == p then [n.s] else []) + Only(list, p)
  {
    assert ([n] + list)[1..] == list;
  }

  lemma {:induction false} ChainFrame(link: map<Node, Option<Node>>, n: Node, to: Option<Node>, from: Option<Node>,
                                      list: seq<Node>)
    requires Chain(link, from, list) && n !in list
    ensures Chain(link[n := to], from, list)
    decreases |list|
  {
    if list != [] { ChainFrame(link, n, to, link[list[0]], list[1..]); }
  }

  lemma ChainPush(link: map<Node, Option<Node>>, top: Option<Node>, n: Node, list: seq<Node>)
    requires Chain(link, top, list) && n in link && link[n] == top
    ensures Chain(link, Some(n), [n] + list)
  {
    assert ([n] + list)[1..] == list;
  }

  lemma {:induction false} FullUpdate(pools: seq<P.State>, p: nat, pool: P.State)
    requires p < |pools|
    ensures FullOf(pools[p := pool]) == FullOf(pools) - pools[p].fullCount + pool.fullCount
    decreases |pools|
  {
    var n := |pools| - 1;
    if p < n {
      assert pools[p := pool][..n] == pools[..n][p := pool];
      FullUpdate(pools[..n], p, pool);
    } else {
      assert pools[p := pool][..n] == pools[..n];
    }
  }

  lemma {:induction false} FullSame(a: seq<P.State>, b: seq<P.State>)
    requires |a| == |b| && forall p :: 0 <= p < |a| ==> b[p].fullCount == a[p].fullCount
    ensures FullOf(b) == FullOf(a)
    decreases |a|
  {
    if a != [] { FullSame(a[..|a| - 1], b[..|a| - 1]); }
  }

  lemma {:induction false} InUseUpdate(others: seq<Phase>, i: nat, ph: Phase)
    requires i < |others|
    ensures InUse(others[i := ph]) + One(others[i] != Gone) == InUse(others) + One(ph != Gone)
    decreases |others|
  {
    var n := |others| - 1;
    if i < n {
      assert others[i := ph][..n] == others[..n][i := ph];
      InUseUpdate(others[..n], i, ph);
    } else {
      assert others[i := ph][..n] == others[..n];
    }
  }

  // ----- every step keeps the invariant

  /** A class whose part of the stack and of the walk is as it was. */
  lemma PoolKeeps(st: State, p: nat, pool: P.State)
    requires Inv(st) && p < |st.pools| && SpanTheorems.Reachable(pool)
    requires pool.queue == st.pools[p].queue && pool.owner.Adopt? == st.pools[p].owner.Adopt?
    requires pool.owner.Adopt? ==> pool.owner == st.pools[p].owner
    ensures Inv(SetPool(st, p, pool))
  {
    assert PartOk(st.pools[p], p, st.walking, st.stack, st.rest);
    PoolsUpdate(st.pools, p, pool);
    PartsUpdate(st.pools, p, pool, st.walking, st.stack, st.rest);
    FullUpdate(st.pools, p, pool);
  }

  lemma PoolsUpdate(pools: seq<P.State>, p: nat, pool: P.State)
    requires PoolsOk(pools) && p < |pools| && SpanTheorems.Reachable(pool)
    ensures PoolsOk(pools[p := pool])
  {
  }

  lemma PartsUpdate(pools: seq<P.State>, p: nat, pool: P.State, walking: bool, stack: seq<Node>, rest: seq<Node>)
    requires PartsOk(pools, walking, stack, rest) && p < |pools| && PartOk(pool, p, walking, stack, rest)
    ensures PartsOk(pools[p := pool], walking, stack, rest)
  {
    var after := pools[p := pool];
    forall q | 0 <= q < |after| ensures PartOk(after[q], q, walking, stack, rest) {
      assert PartOk(pools[q], q, walking, stack, rest);
    }
  }

  lemma ClassKeeps(st: State, p: nat, act: P.Action)
    requires Inv(st) && ClassStep(st, p, act)
    ensures Inv(SetPool(st, p, P.Apply(st.pools[p], act)))
  {
    OffStack(st.pools[p], act);
    ReachableOn(st.pools[p], act);
    PoolKeeps(st, p, P.Apply(st.pools[p], act));
  }

  /** A span being pushed is not on the stack, nor in the walk. */
  lemma PushedApart(st: State, p: nat, t: nat)
    requires Inv(st) && p < |st.pools| && (P.Pc(st.pools[p], t).Push? || P.Pc(st.pools[p], t).Swap?)
    ensures Pushed(st, p, t) !in st.stack + st.rest
  {
    var pool, s := st.pools[p], P.Pc(st.pools[p], t).s;
    SpanTheorems.ReachableInv(pool);
    assert PS.RemoteOk(pool, t) && PartOk(pool, p, st.walking, st.stack, st.rest);
    assert s !in pool.queue + PS.Walk(pool);
    OnlyHas(st.stack, p, s);
    OnlyHas(st.rest, p, s);
  }

  /** The word of a span that is on neither is written. */
  lemma LinkKeeps(st: State, n: Node)
    requires Inv(st) && n !in st.stack + st.rest
    ensures Inv(st.(link := st.link[n := st.top]))
  {
    ChainFrame(st.link, n, st.top, st.top, st.stack);
    if st.walking { ChainFrame(st.link, n, st.top, st.at, st.rest); }
  }

  lemma LoadTopKeeps(st: State, p: nat, t: nat)
    requires Inv(st) && Enabled(st, LoadTop(p, t))
    ensures Inv(Apply(st, LoadTop(p, t)))
  {
    PushedApart(st, p, t);
    LinkKeeps(st, Pushed(st, p, t));
    LoadOk(st.pools[p], t);
    PoolKeeps(st.(link := st.link[Pushed(st, p, t) := st.top]), p, P.LoadTop(st.pools[p], t));
  }

  /** The class of the span pushed has it in front; to the others nothing has happened. */
  lemma PushParts(pools: seq<P.State>, p: nat, s: nat, pool: P.State, walking: bool, stack: seq<Node>, rest: seq<Node>)
    requires PartsOk(pools, walking, stack, rest) && p < |pools|
    requires pool.queue == [s] + pools[p].queue && pool.owner == pools[p].owner
    ensures PartsOk(pools[p := pool], walking, [InClass(p, s)] + stack, rest)
  {
    var after := pools[p := pool];
    forall q | 0 <= q < |after| ensures PartOk(after[q], q, walking, [InClass(p, s)] + stack, rest) {
      assert PartOk(pools[q], q, walking, stack, rest);
      OnlyPush(InClass(p, s), stack, q);
    }
  }

  lemma NodesPush(classes: nat, others: seq<Phase>, n: Node, stack: seq<Node>, rest: seq<Node>)
    requires NodesOk(classes, others, stack + rest) && n !in stack + rest && n.InClass? && n.p < classes
    ensures NodesOk(classes, others, [n] + stack + rest)
  {
    DistinctPush(n, stack, rest);
  }

  lemma DistinctPush(n: Node, stack: seq<Node>, rest: seq<Node>)
    requires PS.Distinct(stack + rest) && n !in stack + rest
    ensures PS.Distinct([n] + stack + rest) && forall m :: m in [n] + stack + rest <==> m == n || m in stack + rest
  {
    var more := [n] + stack + rest;
    assert more == [n] + (stack + rest);
    forall i, j | 0 <= i < j < |more| ensures more[i] != more[j] {
      if i > 0 { assert more[i] == (stack + rest)[i - 1]; }
      assert more[j] == (stack + rest)[j - 1];
    }
  }

  lemma PushKeeps(st: State, p: nat, s: nat, pool: P.State)
    requires Inv(st) && p < |st.pools| && InClass(p, s) !in st.stack + st.rest
    requires InClass(p, s) in st.link && st.link[InClass(p, s)] == st.top
    requires SpanTheorems.Reachable(pool) && pool.queue == [s] + st.pools[p].queue && pool.owner == st.pools[p].owner
    requires pool.fullCount == st.pools[p].fullCount
    ensures Inv(SetPool(st, p, pool).(top := Some(InClass(p, s)), stack := [InClass(p, s)] + st.stack))
  {
    ChainPush(st.link, st.top, InClass(p, s), st.stack);
    PoolsUpdate(st.pools, p, pool);
    PushParts(st.pools, p, s, pool, st.walking, st.stack, st.rest);
    NodesPush(|st.pools|, st.others, InClass(p, s), st.stack, st.rest);
    FullUpdate(st.pools, p, pool);
  }

  lemma SwapTopKeeps(st: State, p: nat, t: nat, spurious: bool)
    requires Inv(st) && Enabled(st, SwapTop(p, t, spurious))
    ensures Inv(AfterSwap(st, p, t, spurious))
  {
    var n := Pushed(st, p, t);
    if Meets(st, n, spurious) {
      var pool := PushThrough(st.pools[p], t);
      PushThroughOk(st.pools[p], t);
      PushedApart(st, p, t);
      PushKeeps(st, p, n.s, pool);
    } else {
      RetryOk(st.pools[p], t);
      PoolKeeps(st, p, P.SwapTop(st.pools[p], t, true));
    }
  }

  // large and huge spans

  lemma NodesPhase(classes: nat, others: seq<Phase>, list: seq<Node>, i: nat, ph: Phase)
    requires NodesOk(classes, others, list) && i < |others| && others[i] != Queued && ph != Queued
    ensures NodesOk(classes, others[i := ph], list)
  {
  }

  lemma PhaseKeeps(st: State, i: nat, ph: Phase, full: int)
    requires Inv(st) && i < |st.others| && st.others[i] != Queued && ph != Queued
    requires full == st.full + One(ph != Gone) - One(st.others[i] != Gone)
    ensures Inv(st.(others := st.others[i := ph], full := full))
  {
    NodesPhase(|st.pools|, st.others, st.stack + st.rest, i, ph);
    InUseUpdate(st.others, i, ph);
  }

  lemma LoadOtherKeeps(st: State, i: nat)
    requires Inv(st) && Enabled(st, LoadOther(i))
    ensures Inv(Apply(st, LoadOther(i)))
  {
    LinkKeeps(st, Other(i));
    PhaseKeeps(st.(link := st.link[Other(i) := st.top]), i, Swap, st.full);
  }

  lemma PushOtherParts(pools: seq<P.State>, i: nat, walking: bool, stack: seq<Node>, rest: seq<Node>)
    requires PartsOk(pools, walking, stack, rest)
    ensures PartsOk(pools, walking, [Other(i)] + stack, rest)
  {
    forall q | 0 <= q < |pools| ensures PartOk(pools[q], q, walking, [Other(i)] + stack, rest) {
      assert PartOk(pools[q], q, walking, stack, rest);
      OnlyPush(Other(i), stack, q);
    }
  }

  lemma NodesPushOther(classes: nat, others: seq<Phase>, i: nat, stack: seq<Node>, rest: seq<Node>)
    requires NodesOk(classes, others, stack + rest) && i < |others| && others[i] == Swap
    ensures Other(i) !in stack + rest && NodesOk(classes, others[i := Queued], [Other(i)] + stack + rest)
  {
    assert Other(i) !in stack + rest;
    DistinctPush(Other(i), stack, rest);
  }

  lemma SwapOtherKeeps(st: State, i: nat, spurious: bool)
    requires Inv(st) && Enabled(st, SwapOther(i, spurious))
    ensures Inv(AfterSwapOther(st, i, spurious))
  {
    if Meets(st, Other(i), spurious) {
      PushOtherKeeps(st, i);
    } else {
      PhaseKeeps(st, i, Push, st.full);
    }
  }

  lemma PushOtherKeeps(st: State, i: nat)
    requires Inv(st) && i < |st.others| && st.others[i] == Swap
    requires Other(i) in st.link && st.link[Other(i)] == st.top
    ensures Inv(st.(others := st.others[i := Queued], top := Some(Other(i)), stack := [Other(i)] + st.stack))
  {
    NodesPushOther(|st.pools|, st.others, i, st.stack, st.rest);
    ChainPush(st.link, st.top, Other(i), st.stack);
    PushOtherParts(st.pools, i, st.walking, st.stack, st.rest);
    InUseUpdate(st.others, i, Queued);
  }

  // the owner's walk

  lemma TakeParts(pools: seq<P.State>, stack: seq<Node>)
    requires PartsOk(pools, false, stack, []) && forall q :: 0 <= q < |pools| ==> pools[q].owner.Ready?
    ensures PartsOk(TakeEach(pools), true, [], stack) && FullOf(TakeEach(pools)) == FullOf(pools)
  {
    forall q | 0 <= q < |pools| ensures PartOk(TakeEach(pools)[q], q, true, [], stack) {
      assert PartOk(pools[q], q, false, stack, []);
    }
    FullSame(pools, TakeEach(pools));
  }

  lemma TakeAllKeeps(st: State)
    requires Inv(st) && AtRest(st)
    ensures Inv(Apply(st, TakeAll))
  {
    TakeParts(st.pools, st.stack);
    forall q | 0 <= q < |st.pools| ensures SpanTheorems.Reachable(TakeEach(st.pools)[q]) {
      ReachableOn(st.pools[q], P.AdoptAll);
    }
    assert st.stack + [] == st.stack == [] + st.stack;
  }

  lemma EndParts(pools: seq<P.State>, stack: seq<Node>)
    requires PartsOk(pools, true, stack, []) && PoolsOk(pools)
    ensures forall q :: 0 <= q < |pools| ==> pools[q].owner.Adopt?
    ensures PartsOk(EndEach(pools), false, stack, []) && PoolsOk(EndEach(pools))
    ensures FullOf(EndEach(pools)) == FullOf(pools)
  {
    forall q | 0 <= q < |pools| ensures pools[q].owner.Adopt? && pools[q].owner.walk == None {
      assert PartOk(pools[q], q, true, stack, []);
      SpanTheorems.ReachableInv(pools[q]);
    }
    forall q | 0 <= q < |pools|
      ensures PartOk(EndEach(pools)[q], q, false, stack, []) && SpanTheorems.Reachable(EndEach(pools)[q])
    {
      assert PartOk(pools[q], q, true, stack, []);
      ReachableOn(pools[q], P.AdoptOne);
    }
    FullSame(pools, EndEach(pools));
  }

  lemma AdoptEndKeeps(st: State)
    requires Inv(st) && Enabled(st, AdoptEnd)
    ensures Inv(Apply(st, AdoptEnd))
  {
    assert st.rest == [];
    EndParts(st.pools, st.stack);
  }

  /** The class of the span at the head of the walk has it at the head of its own. */
  lemma AtHead(pool: P.State, p: nat, s: nat, stack: seq<Node>, rest: seq<Node>)
    requires SpanTheorems.Reachable(pool) && PartOk(pool, p, true, stack, rest) && rest != [] &&
             rest[0] == InClass(p, s)
    ensures pool.owner.walk == Some(s) && pool.owner.rest == [s] + Only(rest[1..], p) && pool.fullCount >= 1
    ensures var q := P.AdoptSpan(pool);
            && SpanTheorems.Reachable(q) && PartOk(q, p, true, stack, rest[1..])
            && q.fullCount == pool.fullCount - 1
  {
    SpanTheorems.ReachableInv(pool);
    assert s in pool.queue + PS.Walk(pool);
    assert s in PS.FullSpans(pool);
    ReachableOn(pool, P.AdoptOne);
  }

  lemma AdoptParts(pools: seq<P.State>, p: nat, s: nat, pool: P.State, stack: seq<Node>, rest: seq<Node>)
    requires PartsOk(pools, true, stack, rest) && p < |pools| && rest != [] && rest[0] == InClass(p, s)
    requires PartOk(pool, p, true, stack, rest[1..])
    ensures PartsOk(pools[p := pool], true, stack, rest[1..])
  {
    var after := pools[p := pool];
    forall q | 0 <= q < |after| ensures PartOk(after[q], q, true, stack, rest[1..]) {
      assert PartOk(pools[q], q, true, stack, rest);
    }
  }

  lemma AdoptOtherParts(pools: seq<P.State>, stack: seq<Node>, rest: seq<Node>)
    requires PartsOk(pools, true, stack, rest) && rest != [] && rest[0].Other?
    ensures PartsOk(pools, true, stack, rest[1..])
  {
    forall q | 0 <= q < |pools| ensures PartOk(pools[q], q, true, stack, rest[1..]) {
      assert PartOk(pools[q], q, true, stack, rest);
    }
  }

  lemma TailDistinct(stack: seq<Node>, rest: seq<Node>)
    requires PS.Distinct(stack + rest) && rest != []
    ensures PS.Distinct(stack + rest[1..])
    ensures forall m :: m in stack + rest[1..] <==> m in stack + rest && m != rest[0]
  {
    var less, all := stack + rest[1..], stack + rest;
    forall i | 0 <= i < |less| ensures less[i] == all[if i < |stack| then i else i + 1] {}
    assert all[|stack|] == rest[0];
    forall m ensures m in less <==> m in all && m != rest[0] {
      if m in less {
        var i :| 0 <= i < |less| && less[i] == m;
        assert all[if i < |stack| then i else i + 1] == m;
      }
      if m in all && m != rest[0] {
        var i :| 0 <= i < |all| && all[i] == m;
        assert less[if i < |stack| then i else i - 1] == m;
      }
    }
  }

  lemma NodesAdopt(classes: nat, others: seq<Phase>, stack: seq<Node>, rest: seq<Node>)
    requires NodesOk(classes, others, stack + rest) && rest != []
    ensures if rest[0].InClass? then NodesOk(classes, others, stack + rest[1..]) && rest[0].p < classes
            else rest[0].i < |others| && others[rest[0].i] == Queued &&
                 NodesOk(classes, others[rest[0].i := Gone], stack + rest[1..])
  {
    assert rest[0] in stack + rest;
    TailDistinct(stack, rest);
  }

  lemma AdoptClassKeeps(st: State, p: nat, s: nat)
    requires Inv(st) && Enabled(st, AdoptNext) && st.at == Some(InClass(p, s))
    ensures Inv(AfterAdopt(st))
  {
    assert st.rest != [] && st.at == Some(st.rest[0]);
    NodesAdopt(|st.pools|, st.others, st.stack, st.rest);
    assert PartOk(st.pools[p], p, true, st.stack, st.rest);
    AtHead(st.pools[p], p, s, st.stack, st.rest);
    AdoptParts(st.pools, p, s, P.AdoptSpan(st.pools[p]), st.stack, st.rest);
    FullUpdate(st.pools, p, P.AdoptSpan(st.pools[p]));
  }

  lemma AdoptOtherKeeps(st: State, i: nat)
    requires Inv(st) && Enabled(st, AdoptNext) && st.at == Some(Other(i))
    ensures Inv(AfterAdopt(st))
  {
    assert st.rest != [] && st.at == Some(st.rest[0]);
    NodesAdopt(|st.pools|, st.others, st.stack, st.rest);
    AdoptOtherParts(st.pools, st.stack, st.rest);
    InUseUpdate(st.others, i, Gone);
  }

  lemma StepKeeps(st: State, a: Action)
    requires Inv(st) && Enabled(st, a)
    ensures Inv(Apply(st, a))
  {
    match a
    case Class(p, act) => ClassKeeps(st, p, act);
    case LoadTop(p, t) => LoadTopKeeps(st, p, t);
    case SwapTop(p, t, spurious) => SwapTopKeeps(st, p, t, spurious);
    case Use(i) => PhaseKeeps(st, i, Used, st.full + 1);
    case Free(i) => PhaseKeeps(st, i, Gone, st.full - 1);
    case FreeRemote(i) => PhaseKeeps(st, i, Push, st.full);
    case LoadOther(i) => LoadOtherKeeps(st, i);
    case SwapOther(i, spurious) => SwapOtherKeeps(st, i, spurious);
    case TakeAll => TakeAllKeeps(st);
    case AdoptNext =>
      if st.at.value.InClass? { AdoptClassKeeps(st, st.at.value.p, st.at.value.s); }
      else { AdoptOtherKeeps(st, st.at.value.i); }
    case AdoptEnd => AdoptEndKeeps(st);
  }

  // ----- runs

  /** Every class as its protocol starts, and no large or huge span. */
  ghost predicate Start(st: State) {
    && (forall p :: 0 <= p < |st.pools| ==> P.Initial(st.pools[p]))
    && (forall i :: 0 <= i < |st.others| ==> st.others[i] == Gone)
    && st.top == None && !st.walking && st.full == 0 && st.stack == [] && st.rest == []
  }

  lemma {:induction false} NoneFull(pools: seq<P.State>)
    requires forall p :: 0 <= p < |pools| ==> P.Initial(pools[p])
    ensures FullOf(pools) == 0
  {
    if pools != [] { NoneFull(pools[..|pools| - 1]); }
  }

  lemma {:induction false} NoneInUse(others: seq<Phase>)
    requires forall i :: 0 <= i < |others| ==> others[i] == Gone
    ensures InUse(others) == 0
  {
    if others != [] { NoneInUse(others[..|others| - 1]); }
  }

  lemma StartKeeps(st: State)
    requires Start(st)
    ensures Inv(st)
  {
    forall p | 0 <= p < |st.pools| ensures SpanTheorems.Reachable(st.pools[p]) {
      assert P.After(st.pools[p], []) == st.pools[p] && P.IsRun(st.pools[p], []);
    }
    NoneFull(st.pools);
    NoneInUse(st.others);
  }

  ghost predicate Run(states: seq<State>, actions: seq<Action>) {
    && |states| == |actions| + 1 && Start(states[0])
    && forall i :: 0 <= i < |actions| ==> Follows(states[i], actions[i], states[i + 1])
  }

  ghost predicate Follows(st: State, a: Action, st': State) { Enabled(st, a) && st' == Apply(st, a) }

  lemma {:induction false} EveryRun(states: seq<State>, actions: seq<Action>, n: nat)
    requires Run(states, actions) && n <= |actions|
    ensures Inv(states[n])
  {
    if n == 0 {
      StartKeeps(states[0]);
    } else {
      EveryRun(states, actions, n - 1);
      assert Follows(states[n - 1], actions[n - 1], states[n]);
      StepKeeps(states[n - 1], actions[n - 1]);
    }
  }

  /** So each class is in a state its own protocol reaches, and all that is proved of those holds. */
  lemma EachReachable(states: seq<State>, actions: seq<Action>, n: nat, p: nat)
    requires Run(states, actions) && n <= |actions| && p < |states[n].pools|
    ensures SpanTheorems.Reachable(states[n].pools[p])
  {
    EveryRun(states, actions, n);
  }

  predicate Waiting(st: State, n: Node) {
    match n
    case InClass(p, s) =>
      p < |st.pools| && s < |st.pools[p].spans| && st.pools[p].spans[s].phase == P.Queued
    case Other(i) => i < |st.others| && st.others[i] == Queued
  }

  lemma QueuedIs(pool: P.State, p: nat, s: nat, walking: bool, stack: seq<Node>, rest: seq<Node>)
    requires SpanTheorems.Reachable(pool) && PartOk(pool, p, walking, stack, rest) && (!walking ==> rest == [])
    ensures s < |pool.spans| && pool.spans[s].phase == P.Queued <==> InClass(p, s) in stack + rest
  {
    SpanTheorems.ReachableInv(pool);
    assert PS.Walk(pool) == Only(rest, p);
    assert s in pool.queue + PS.Walk(pool) <==> s in Only(stack, p) || s in Only(rest, p);
    OnlyHas(stack, p, s);
    OnlyHas(rest, p, s);
  }

  /**
    A span that was pushed and not adopted yet, of whatever kind, is in one place: on the stack or left of the walk,
    once.  The owner is at the first of those left of its walk, and has come to the end if there is none.
  */
  lemma WaitsOnce(states: seq<State>, actions: seq<Action>, k: nat, n: Node)
    requires Run(states, actions) && k <= |actions|
    ensures var st := states[k];
            && (Waiting(st, n) <==> n in st.stack + st.rest) && PS.Distinct(st.stack + st.rest)
            && (st.walking ==> st.at == if st.rest == [] then None else Some(st.rest[0]))
            && (!st.walking ==> st.rest == [])
  {
    EveryRun(states, actions, k);
    WaitsOnceNow(states[k], n);
  }

  lemma WaitsOnceNow(st: State, n: Node)
    requires Inv(st)
    ensures Waiting(st, n) <==> n in st.stack + st.rest
  {
    if n.InClass? && n.p < |st.pools| {
      assert PartOk(st.pools[n.p], n.p, st.walking, st.stack, st.rest);
      QueuedIs(st.pools[n.p], n.p, n.s, st.walking, st.stack, st.rest);
    }
  }

  /**
    full_span_count is what it counts: in every class the spans not on its partial list, and every other span in
    use.
  */
  lemma CountsAll(states: seq<State>, actions: seq<Action>, n: nat, p: nat)
    requires Run(states, actions) && n <= |actions|
    ensures states[n].full == FullOf(states[n].pools) + InUse(states[n].others)
    ensures p < |states[n].pools| ==> states[n].pools[p].fullCount == |PS.FullSpans(states[n].pools[p])|
  {
    EveryRun(states, actions, n);
    if p < |states[n].pools| { SpanTheorems.ReachableInv(states[n].pools[p]); }
  }

  lemma NotNegative(pool: P.State)
    requires SpanTheorems.Reachable(pool)
    ensures pool.fullCount >= 0
  {
    SpanTheorems.ReachableInv(pool);
  }

  lemma {:induction false} FullAtLeast(pools: seq<P.State>, p: nat)
    requires p < |pools| && forall q :: 0 <= q < |pools| ==> pools[q].fullCount >= 0
    ensures FullOf(pools) >= pools[p].fullCount
  {
    var n := |pools| - 1;
    if p < n { FullAtLeast(pools[..n], p); } else { FullNotNegative(pools[..n]); }
  }

  lemma {:induction false} FullNotNegative(pools: seq<P.State>)
    requires forall q :: 0 <= q < |pools| ==> pools[q].fullCount >= 0
    ensures FullOf(pools) >= 0
  {
    if pools != [] { FullNotNegative(pools[..|pools| - 1]); }
  }

  lemma NoneNegative(pools: seq<P.State>)
    requires PoolsOk(pools)
    ensures forall q :: 0 <= q < |pools| ==> pools[q].fullCount >= 0
  {
    forall q | 0 <= q < |pools| ensures pools[q].fullCount >= 0 { NotNegative(pools[q]); }
  }

  lemma {:induction false} InUseSome(others: seq<Phase>, i: nat)
    requires i < |others| && others[i] != Gone
    ensures InUse(others) >= 1
  {
    var n := |others| - 1;
    if i < n { InUseSome(others[..n], i); }
  }

  lemma CountedNext(st: State)
    requires Inv(st) && Enabled(st, AdoptNext)
    ensures st.full >= 1 && AfterAdopt(st).full == st.full - 1
  {
    assert st.rest != [] && st.at == Some(st.rest[0]);
    NodesAdopt(|st.pools|, st.others, st.stack, st.rest);
    NoneNegative(st.pools);
    if st.rest[0].InClass? {
      var p := st.rest[0].p;
      assert PartOk(st.pools[p], p, true, st.stack, st.rest);
      AtHead(st.pools[p], p, st.rest[0].s, st.stack, st.rest);
      FullAtLeast(st.pools, p);
    } else {
      FullNotNegative(st.pools);
      InUseSome(st.others, st.rest[0].i);
    }
  }

  /**
    Whenever a span is adopted, or a large or huge one freed by the owner, the count has it: it never goes below
    zero.
  */
  lemma NeverBelow(states: seq<State>, actions: seq<Action>, n: nat)
    requires Run(states, actions) && n < |actions| && (actions[n].AdoptNext? || actions[n].Free?)
    ensures states[n].full >= 1 && states[n + 1].full == states[n].full - 1
  {
    EveryRun(states, actions, n);
    assert Follows(states[n], actions[n], states[n + 1]);
    if actions[n].Free? {
      NoneNegative(states[n].pools);
      FullNotNegative(states[n].pools);
      InUseSome(states[n].others, actions[n].i);
    } else {
      CountedNext(states[n]);
    }
  }
}
