/**
  The invariant of the block protocol, and the proof that every step of every thread keeps it.  The proof
  is by rely and guarantee: a step changes one span, and what it may do to that span (`RemoteStep`,
  `OwnerStep`) is all the other threads need to know about it.
 */
module SpanSafety {
  import opened Options
  import opened SpanProtocol

  // ----- what the threads hold

  /** The thread has taken block b of span s into its own variables. */
  predicate HasBlock(st: State, w: Who, s: SpanId, b: nat) {
    match w
    case Owner => WorksOn(st.owner, s) && st.owner.b == b
    case Remote(t) =>
      match Pc(st, t)
      case Want(s', b') => s' == s && b' == b
      case Hold(s', b', _) => s' == s && b' == b
      case _ => false
  }

  /** The owner is allocating from span s. */
  predicate WorksOn(pc: OwnerPc, s: SpanId) {
    (pc.Took? || pc.Extract? || pc.Extracted? || pc.Restore? || pc.Finish?) && pc.s == s
  }

  /** The thread holds the INVALID_POINTER lock of span s. */
  predicate HasLock(st: State, w: Who, s: SpanId) {
    match w
    case Owner => (st.owner.Extracted? || st.owner.Restore? || st.owner.Synced?) && st.owner.s == s
    case Remote(t) =>
      match Pc(st, t)
      case Hold(s', _, _) => s' == s
      case Linked(s', _, _) => s' == s
      case _ => false
  }

  /** Remote thread t is handing span s back to the heap. */
  predicate HandsOver(st: State, t: nat, s: SpanId) {
    match Pc(st, t)
    case Push(s') => s' == s
    case Swap(s') => s' == s
    case _ => false
  }

  ghost predicate Distinct<T>(s: seq<T>) {
    forall i, j :: 0 <= i < j < |s| ==> s[i] != s[j]
  }

  /** The blocks on the class free list that are blocks of s. */
  function ClassList(st: State, s: SpanId): seq<nat> {
    if s == st.classSpan then st.classFree else []
  }

  // ----- one span

  /** No block of the span is out: not with a user, not on the class list, not in a thread's hand. */
  ghost predicate NothingOut(sp: Span) {
    forall b :: 0 <= b < |sp.place| ==> sp.place[b].InSpan? || sp.place[b].InDeferred? || sp.place[b].Uninit?
  }

  ghost predicate BlocksOk(n: nat, sp: Span, cls: seq<nat>) {
    && |sp.place| == n && 1 <= sp.limit <= n
    && sp.free.List?
    && Distinct(sp.free.blocks) && Distinct(sp.deferred) && Distinct(cls)
    && (forall b :: b in sp.free.blocks ==> b < n && sp.place[b] == InSpan)
    && (forall b :: b in sp.deferred ==> b < n && sp.place[b] == InDeferred)
    && (forall b :: b in cls ==> b < n && sp.place[b] == InClass)
    && forall b :: 0 <= b < n ==>
         && (sp.place[b] == InSpan ==> b in sp.free.blocks)
         && (sp.place[b] == InDeferred ==> b in sp.deferred)
         && (sp.place[b] == InClass ==> b in cls)
         && (sp.place[b] == Uninit <==> b >= sp.limit)
  }

  /** The counters.  Between the exchange and the adjustment list_size still counts the list just taken. */
  ghost predicate CountsOk(sp: Span, extracted: bool) {
    && sp.free.List?
    && sp.used - sp.listSize == sp.limit - |sp.free.blocks| - |sp.deferred|
    && (if extracted then sp.listSize == |sp.free.blocks| && sp.deferred == [] && sp.holder == Some(Owner)
        else sp.listSize == |sp.deferred|)
  }

  ghost predicate LockOk(sp: Span) {
    && (sp.word == Locked <==> sp.holder.Some?)
    && (sp.word.Blocks? ==> sp.word.list == sp.deferred)
  }

  /** Every hand, lock and hand-over of the span belongs to the thread it names. */
  ghost predicate ClaimsOk(st: State, s: SpanId)
    requires s < |st.spans|
  {
    var sp := st.spans[s];
    && (forall b :: 0 <= b < |sp.place| && sp.place[b].Hand? ==> HasBlock(st, sp.place[b].w, s, b))
    && (sp.holder.Some? ==> HasLock(st, sp.holder.value, s))
    && (sp.phase.Handing? ==> HandsOver(st, sp.phase.t, s))
  }

  ghost predicate SpanOk(st: State, s: SpanId)
    requires s < |st.spans|
  {
    var sp := st.spans[s];
    && ClaimsOk(st, s)
    && if sp.phase == Active then
         && BlocksOk(st.n, sp, ClassList(st, s))
         && CountsOk(sp, st.owner.Extracted? && st.owner.s == s)
         && LockOk(sp)
         && (|sp.deferred| == st.n ==> sp.holder.Some? && sp.holder.value.Remote?)
         && sp.lives == sp.retired + 1
       else
         NothingOut(sp) && sp.holder == None && ClassList(st, s) == [] && sp.lives == sp.retired
  }

  // ----- one thread

  ghost predicate InHand(st: State, s: SpanId, b: nat, w: Who) {
    IsBlock(st, s, b) && st.spans[s].place[b] == Hand(w)
  }

  ghost predicate Locks(st: State, s: SpanId, w: Who) {
    IsActive(st, s) && st.spans[s].holder == Some(w)
  }

  ghost predicate IsActive(st: State, s: SpanId) {
    s < |st.spans| && st.spans[s].phase == Active
  }

  ghost predicate RemoteOk(st: State, t: nat) {
    match Pc(st, t)
    case Idle => true
    case Want(s, b) => InHand(st, s, b, Remote(t))
    case Hold(s, b, list) => InHand(st, s, b, Remote(t)) && Locks(st, s, Remote(t)) && st.spans[s].deferred == list
    case Linked(s, list, all) =>
      Locks(st, s, Remote(t)) && st.spans[s].deferred == list && list != [] && (all <==> |list| == st.n)
    case Push(s) => s < |st.spans| && st.spans[s].phase == Handing(t)
    case Swap(s) => s < |st.spans| && st.spans[s].phase == Handing(t) && st.spans[s].free.Link?
  }

  /** An allocation works on the head of the partial list. */
  ghost predicate AtHead(st: State, s: SpanId, b: nat) {
    InHand(st, s, b, Owner) && st.partial != [] && st.partial[0] == s
  }

  /** A local free works on a span with at least the freed block on its list. */
  ghost predicate Freeing(st: State, s: SpanId) {
    IsActive(st, s) && st.spans[s].free.List? && st.spans[s].free.blocks != []
  }

  ghost predicate OwnerOk(st: State) {
    match st.owner
    case Ready => true
    case Took(s, b) => AtHead(st, s, b) && st.spans[s].free == List([])
    case Extract(s, b) => AtHead(st, s, b) && st.spans[s].free == List([])
    case Extracted(s, b) => AtHead(st, s, b) && Locks(st, s, Owner)
    case Restore(s, b) => AtHead(st, s, b) && Locks(st, s, Owner) && st.spans[s].deferred == []
    case Finish(s, b) => AtHead(st, s, b)
    case Freed(s) => Freeing(st, s)
    case Sync(s) => Freeing(st, s) && NothingOut(st.spans[s])
    case Synced(s, list) =>
      Freeing(st, s) && NothingOut(st.spans[s]) && Locks(st, s, Owner) && st.spans[s].deferred == list
    case Retire(s) => Freeing(st, s) && NothingOut(st.spans[s]) && st.spans[s].holder == None
    case Adopt(walk, rest) => true
  }

  // ----- the lists of spans

  /** On the partial list exactly when not fully utilised, but for the span an allocation is working on. */
  ghost predicate PartialOk(st: State) {
    && Distinct(st.partial)
    && (forall s :: s in st.partial ==> IsActive(st, s))
    && forall s: nat :: IsActive(st, s) && !WorksOn(st.owner, s) ==> (s in st.partial <==> !Full(st.n, st.spans[s]))
  }

  /** Following the links from `from` visits exactly `ids`. */
  ghost predicate Chain(spans: seq<Span>, from: Option<SpanId>, ids: seq<SpanId>)
    decreases |ids|
  {
    if ids == [] then from == None
    else
      && from == Some(ids[0]) && ids[0] < |spans|
      && spans[ids[0]].free.Link? && Chain(spans, spans[ids[0]].free.next, ids[1..])
  }

  function Walk(st: State): seq<SpanId> {
    if st.owner.Adopt? then st.owner.rest else []
  }

  ghost predicate QueueOk(st: State) {
    && Chain(st.spans, st.top, st.queue)
    && (st.owner.Adopt? ==> Chain(st.spans, st.owner.walk, st.owner.rest))
    && Distinct(st.queue + Walk(st))
    && (forall s :: s in st.queue + Walk(st) ==> s < |st.spans| && st.spans[s].phase == Queued)
    && forall s :: 0 <= s < |st.spans| && st.spans[s].phase == Queued ==> s in st.queue + Walk(st)
  }

  /** The spans heap->full_span_count counts: fully utilised ones, and the handed-back ones until adopted. */
  ghost function FullSpans(st: State): set<SpanId> {
    set s | 0 <= s < |st.spans| && InFull(st, s)
  }

  ghost predicate InFull(st: State, s: SpanId)
    requires s < |st.spans|
  {
    var ph := st.spans[s].phase;
    (ph == Active && s !in st.partial) || ph.Handing? || ph == Queued
  }

  ghost predicate SpansOk(st: State) {
    forall s :: 0 <= s < |st.spans| ==> SpanOk(st, s)
  }

  ghost predicate RemotesOk(st: State) {
    forall t :: 0 <= t < |st.threads| ==> RemoteOk(st, t)
  }

  ghost predicate ClassOk(st: State) {
    st.classFree != [] ==> IsActive(st, st.classSpan)
  }

  ghost predicate CountOk(st: State) {
    st.fullCount == |FullSpans(st)|
  }

  ghost predicate Inv(st: State) {
    && st.n >= 1 && SpansOk(st) && RemotesOk(st) && OwnerOk(st) && ClassOk(st)
    && PartialOk(st) && QueueOk(st) && CountOk(st)
  }

  // ----- counting

  ghost function Elements(s: seq<nat>): set<nat> {
    set x | x in s
  }

  lemma {:induction false} DistinctSet(s: seq<nat>)
    requires Distinct(s)
    ensures |Elements(s)| == |s|
  {
    if s != [] {
      DistinctSet(s[1..]);
      assert s == [s[0]] + s[1..];
      assert Elements(s) == {s[0]} + Elements(s[1..]);
    }
  }

  lemma HeadIn<T>(s: seq<T>)
    ensures s == [] || s[0] in s
  {
  }

  lemma Subset<T>(a: set<T>, b: set<T>)
    requires a <= b
    ensures |a| <= |b|
    ensures |a| == |b| ==> a == b
  {
    assert b == a + (b - a);
  }

  /** Two disjoint lists of distinct blocks below n: n of them are all of them. */
  lemma Cover(n: nat, a: seq<nat>, b: seq<nat>)
    requires Distinct(a) && Distinct(b)
    requires forall x :: x in a ==> x < n && x !in b
    requires forall x :: x in b ==> x < n
    ensures |a| + |b| <= n
    ensures |a| + |b| == n ==> forall x :: 0 <= x < n ==> x in a || x in b
  {
    var below := SpanProtocol.Range(0, n);
    DistinctSet(a); DistinctSet(b); DistinctSet(below);
    var both := Elements(a) + Elements(b);
    assert |both| == |a| + |b| by { assert Elements(a) !! Elements(b); }
    assert forall x :: 0 <= x < n ==> below[x] == x;
    forall x | x in both ensures x in Elements(below) { assert below[x] == x; }
    Subset(both, Elements(below));
    if |a| + |b| == n {
      forall x | 0 <= x < n ensures x in a || x in b { assert below[x] in both; }
    }
  }

  /** The racy tests are right: as many deferred and free blocks as laid out ones leave nothing out. */
  lemma AllAccounted(n: nat, sp: Span, cls: seq<nat>)
    requires BlocksOk(n, sp, cls) && |sp.free.blocks| + |sp.deferred| >= sp.limit
    ensures NothingOut(sp) && cls == []
    ensures |sp.free.blocks| + |sp.deferred| == sp.limit
  {
    Cover(sp.limit, sp.free.blocks, sp.deferred);
    HeadIn(cls);
  }

  lemma DeferredBelow(n: nat, sp: Span, cls: seq<nat>)
    requires BlocksOk(n, sp, cls)
    ensures |sp.free.blocks| + |sp.deferred| <= sp.limit
  {
    Cover(sp.limit, sp.free.blocks, sp.deferred);
  }
}
