/**
  The block protocol of one size class of one heap (rpmalloc.c).  The owner thread allocates and frees
  its blocks through owner-only fields; any number of other threads free blocks of the same spans through
  `free_list_deferred`, a word that doubles as a spin lock (INVALID_POINTER).  A span that is completely
  freed by the other threads is pushed by the last of them on the heap's `span_free_deferred` stack.

  Every atomic access is a step of its own; accesses to fields that only one thread can reach at that
  point are joined to the step before them.  A failed exchange or compare-and-swap is a step that
  changes nothing, or goes back to the load.
 */
module SpanProtocol {
  import opened Options

  type SpanId = nat

  /** A thread of the program: the heap's owner, or some other thread. */
  datatype Who = Owner | Remote(t: nat)

  /** Where a block of an active span is.  Bookkeeping: no step of the allocator reads it. */
  datatype Place =
    | Uninit          // at or past free_list_limit
    | InClass         // on heap_size_class->free_list
    | InSpan          // on span->free_list
    | InDeferred      // on the deferred list (possibly taken out by the lock's holder)
    | User            // handed out, not yet freed
    | Hand(w: Who)    // in a local variable of a thread inside malloc or free

  /** The life of a span.  Bookkeeping, too. */
  datatype Phase =
    | Cached          // in a span cache, fully free
    | Active          // serving blocks
    | Handing(t: nat) // completely freed; remote thread t is pushing it on the deferred-span stack
    | Queued          // on the deferred-span stack, or taken off it and not yet adopted

  /** The word free_list_deferred. */
  datatype Word = Locked | Blocks(list: seq<nat>)

  /** The word span->free_list: a block list while active, a link of the deferred-span stack afterwards. */
  datatype FreeWord = List(blocks: seq<nat>) | Link(next: Option<SpanId>)

  datatype Span = Span(
    free: FreeWord,        // free_list
    limit: nat,            // free_list_limit
    used: int,             // used_count
    listSize: int,         // list_size
    word: Word,            // free_list_deferred
    // bookkeeping
    phase: Phase,
    place: seq<Place>,     // one entry a block
    deferred: seq<nat>,    // the deferred list, whoever holds it
    holder: Option<Who>,   // who holds the INVALID_POINTER lock
    lives: nat,            // times the span was initialised
    retired: nat)          // times the span was retired

  /** Where a remote thread is inside rpfree. */
  datatype RemotePc =
    | Idle
    | Want(s: SpanId, b: nat)                       // spinning on the exchange
    | Hold(s: SpanId, b: nat, list: seq<nat>)       // lock taken, list read
    | Linked(s: SpanId, list: seq<nat>, all: bool)  // block linked, list_size bumped
    | Push(s: SpanId)                               // about to load span_free_deferred
    | Swap(s: SpanId)                               // link written, about to compare-and-swap

  /** Where the owner is inside rpmalloc or rpfree. */
  datatype OwnerPc =
    | Ready
    | Took(s: SpanId, b: nat)       // slow path: block taken, about to look at the deferred word
    | Extract(s: SpanId, b: nat)    // spinning on the exchange
    | Extracted(s: SpanId, b: nat)  // list swapped in, counters not yet adjusted
    | Restore(s: SpanId, b: nat)    // counters adjusted, about to release the word
    | Finish(s: SpanId, b: nat)     // about to test for full utilisation and return
    | Freed(s: SpanId)              // block pushed, about to compare used_count and list_size
    | Sync(s: SpanId)               // span found free, spinning on the exchange
    | Synced(s: SpanId, list: seq<nat>)
    | Retire(s: SpanId)             // about to unlink the span and release it to the cache
    | Adopt(walk: Option<SpanId>, rest: seq<SpanId>) // walking the spans taken off the stack; rest: bookkeeping

  datatype State = State(
    n: nat,                     // block_count of the class
    spans: seq<Span>,
    classFree: seq<nat>,        // heap_size_class->free_list, all blocks of one span
    classSpan: SpanId,          // that span (a pointer mask in C); junk when the list is empty
    partial: seq<SpanId>,       // heap_size_class->partial_span, head first
    fullCount: int,             // the spans of this class counted by heap->full_span_count
    top: Option<SpanId>,        // heap->span_free_deferred
    queue: seq<SpanId>,         // the stack below it; bookkeeping
    owner: OwnerPc,
    threads: seq<RemotePc>)

  datatype Action =
    | AllocFast
    | AllocSlow(k: nat)             // k: the blocks free_list_partial_init lays out, when it runs
    | AllocNew(s: SpanId, k: nat)
    | Load
    | Exchange
    | Adjust
    | Release
    | Return
    | FreeLocal(s: SpanId, b: nat)
    | Compare
    | SyncExchange
    | SyncRelease
    | Unlink
    | AdoptAll
    | AdoptOne
    | FreeRemote(t: nat, s: SpanId, b: nat)
    | RemoteExchange(t: nat)
    | RemoteLink(t: nat)
    | RemoteRelease(t: nat)
    | RemoteLoad(t: nat)
    | RemoteSwap(t: nat, spurious: bool)

  // ----- reading the state

  /** _rpmalloc_span_is_fully_utilized */
  predicate Full(n: nat, sp: Span) {
    sp.free == List([]) && sp.limit >= n
  }

  predicate IsSpan(st: State, s: SpanId) { s < |st.spans| }

  predicate IsBlock(st: State, s: SpanId, b: nat) {
    s < |st.spans| && st.spans[s].phase == Active && b < |st.spans[s].place|
  }

  predicate UserHolds(st: State, s: SpanId, b: nat) {
    IsBlock(st, s, b) && st.spans[s].place[b] == User
  }

  function Pc(st: State, t: nat): RemotePc {
    if t < |st.threads| then st.threads[t] else Idle
  }

  // ----- the steps

  predicate CanPop(st: State) { st.owner.Ready? && st.classFree != [] }

  predicate CanTake(st: State, k: nat) {
    && st.owner.Ready? && st.classFree == [] && st.partial != []
    && IsSpan(st, st.partial[0])
    && var sp := st.spans[st.partial[0]];
       sp.free.List? && (sp.free.blocks == [] ==> 1 <= k <= st.n - sp.limit)
  }

  predicate CanInitialise(st: State, s: SpanId, k: nat) {
    && st.owner.Ready? && st.classFree == [] && st.partial == []
    && IsSpan(st, s) && st.spans[s].phase == Cached && 1 <= k <= st.n
  }

  predicate CanFree(st: State, s: SpanId, b: nat) { st.owner.Ready? && UserHolds(st, s, b) }

  predicate CanFreeRemote(st: State, t: nat, s: SpanId, b: nat) {
    t < |st.threads| && st.threads[t].Idle? && UserHolds(st, s, b)
  }

  /** The order a program has to keep: who may take which step when. */
  predicate Enabled(st: State, a: Action) {
    match a
    case AllocFast => CanPop(st)
    case AllocSlow(k) => CanTake(st, k)
    case AllocNew(s, k) => CanInitialise(st, s, k)
    case Load => st.owner.Took?
    case Exchange => st.owner.Extract?
    case Adjust => st.owner.Extracted?
    case Release => st.owner.Restore?
    case Return => st.owner.Finish?
    case FreeLocal(s, b) => CanFree(st, s, b)
    case Compare => st.owner.Freed?
    case SyncExchange => st.owner.Sync?
    case SyncRelease => st.owner.Synced?
    case Unlink => st.owner.Retire?
    case AdoptAll => st.owner.Ready?
    case AdoptOne => st.owner.Adopt?
    case FreeRemote(t, s, b) => CanFreeRemote(st, t, s, b)
    case RemoteExchange(t) => Pc(st, t).Want?
    case RemoteLink(t) => Pc(st, t).Hold?
    case RemoteRelease(t) => Pc(st, t).Linked?
    case RemoteLoad(t) => Pc(st, t).Push?
    case RemoteSwap(t, _) => Pc(st, t).Swap?
  }

  function SetSpan(st: State, s: SpanId, sp: Span): State {
    if s < |st.spans| then st.(spans := st.spans[s := sp]) else st
  }

  function SetPc(st: State, t: nat, pc: RemotePc): State {
    if t < |st.threads| then st.(threads := st.threads[t := pc]) else st
  }

  function SpanAt(st: State, s: SpanId): Span {
    if s < |st.spans| then st.spans[s] else Span(List([]), 0, 0, 0, Blocks([]), Cached, [], [], None, 0, 0)
  }

  function Put(place: seq<Place>, b: nat, p: Place): seq<Place> {
    if b < |place| then place[b := p] else place
  }

  /** Every block of `list` moves to p. */
  function PutAll(place: seq<Place>, list: seq<nat>, p: Place): (r: seq<Place>)
    ensures |r| == |place|
    ensures forall b :: 0 <= b < |r| ==> r[b] == if b in list then p else place[b]
  {
    seq(|place|, b requires 0 <= b < |place| => if b in list then p else place[b])
  }

  function Range(lo: nat, hi: nat): (r: seq<nat>)
    requires lo <= hi
    ensures |r| == hi - lo
    ensures forall i :: 0 <= i < |r| ==> r[i] == lo + i
  {
    seq(hi - lo, i requires 0 <= i < hi - lo => lo + i)
  }

  function Remove<T(==)>(s: seq<T>, x: T): seq<T> {
    if s == [] then [] else if s[0] == x then s[1..] else [s[0]] + Remove(s[1..], x)
  }

  function TakeBlock(st: State, k: nat): State
    requires CanTake(st, k)
  {
    var s := st.partial[0];
    var sp := st.spans[s];
    if sp.free.blocks != [] then
      var b, rest := sp.free.blocks[0], sp.free.blocks[1..];
      var sp' := sp.(free := List([]), used := sp.limit,
                     place := Put(PutAll(sp.place, rest, InClass), b, Hand(Owner)));
      SetSpan(st, s, sp').(classFree := rest, classSpan := s, owner := Took(s, b))
    else
      var b, rest := sp.limit, Range(sp.limit + 1, sp.limit + k);
      var sp' := sp.(limit := sp.limit + k, used := sp.limit + k,
                     place := Put(PutAll(sp.place, rest, InClass), b, Hand(Owner)));
      SetSpan(st, s, sp').(classFree := rest, classSpan := s, owner := Took(s, b))
  }

  /** _rpmalloc_span_initialize_new: nothing of the span's former life survives. */
  function InitialiseSpan(st: State, s: SpanId, k: nat): State
    requires CanInitialise(st, s, k)
  {
    var rest := Range(1, k);
    var place := Put(PutAll(seq(st.n, _ => Uninit), rest, InClass), 0, User);
    var sp := Span(List([]), k, k, 0, Blocks([]), Active, place, [], None,
                   st.spans[s].lives + 1, st.spans[s].retired);
    var st' := SetSpan(st, s, sp).(classFree := rest, classSpan := s);
    if k < st.n then st'.(partial := [s] + st.partial) else st'.(fullCount := st.fullCount + 1)
  }

  function PushLocal(st: State, s: SpanId, b: nat): State
    requires CanFree(st, s, b)
  {
    var sp := st.spans[s];
    var full := Full(st.n, sp);
    var list := if sp.free.List? then sp.free.blocks else [];
    var sp' := sp.(free := List([b] + list), used := (if full then st.n else sp.used) - 1,
                   place := Put(sp.place, b, InSpan));
    var st' := SetSpan(st, s, sp').(owner := Freed(s));
    if full then st'.(partial := [s] + st.partial, fullCount := st.fullCount - 1) else st'
  }

  function PopClass(st: State): State
    requires CanPop(st)
  {
    var sp := SpanAt(st, st.classSpan);
    SetSpan(st, st.classSpan, sp.(place := Put(sp.place, st.classFree[0], User))).(classFree := st.classFree[1..])
  }

  function LoadWord(st: State): State
    requires st.owner.Took?
  {
    if SpanAt(st, st.owner.s).word == Blocks([])
    then st.(owner := Finish(st.owner.s, st.owner.b))
    else st.(owner := Extract(st.owner.s, st.owner.b))
  }

  function ExchangeWord(st: State): State
    requires st.owner.Extract?
  {
    var s, b := st.owner.s, st.owner.b;
    var sp := SpanAt(st, s);
    if sp.word == Locked then st
    else
      SetSpan(st, s, sp.(free := List(sp.word.list), word := Locked, deferred := [], holder := Some(Owner),
                         place := PutAll(sp.place, sp.word.list, InSpan)))
        .(owner := Extracted(s, b))
  }

  function AdjustCounts(st: State): State
    requires st.owner.Extracted?
  {
    var s, b := st.owner.s, st.owner.b;
    var sp := SpanAt(st, s);
    SetSpan(st, s, sp.(used := sp.used - sp.listSize, listSize := 0)).(owner := Restore(s, b))
  }

  function ReleaseWord(st: State): State
    requires st.owner.Restore?
  {
    var s, b := st.owner.s, st.owner.b;
    SetSpan(st, s, SpanAt(st, s).(word := Blocks([]), holder := None)).(owner := Finish(s, b))
  }

  function ReturnBlock(st: State): State
    requires st.owner.Finish?
  {
    var s, b := st.owner.s, st.owner.b;
    var sp := SpanAt(st, s);
    var st' := SetSpan(st, s, sp.(place := Put(sp.place, b, User))).(owner := Ready);
    if Full(st.n, sp) && st.partial != []
    then st'.(partial := st.partial[1..], fullCount := st.fullCount + 1) else st'
  }

  function CompareCounts(st: State): State
    requires st.owner.Freed?
  {
    var s := st.owner.s;
    var sp := SpanAt(st, s);
    st.(owner := if sp.used != sp.listSize then Ready else if sp.used != 0 then Sync(s) else Retire(s))
  }

  function SyncLock(st: State): State
    requires st.owner.Sync?
  {
    var s := st.owner.s;
    var sp := SpanAt(st, s);
    if sp.word == Locked then st
    else SetSpan(st, s, sp.(word := Locked, holder := Some(Owner))).(owner := Synced(s, sp.word.list))
  }

  function SyncUnlock(st: State): State
    requires st.owner.Synced?
  {
    var s := st.owner.s;
    SetSpan(st, s, SpanAt(st, s).(word := Blocks(st.owner.list), holder := None)).(owner := Retire(s))
  }

  function UnlinkSpan(st: State): State
    requires st.owner.Retire?
  {
    var s := st.owner.s;
    var sp := SpanAt(st, s);
    SetSpan(st, s, sp.(phase := Cached, retired := sp.retired + 1)).(partial := Remove(st.partial, s), owner := Ready)
  }

  function TakeStack(st: State): State
    requires st.owner.Ready?
  {
    st.(owner := Adopt(st.top, st.queue), top := None, queue := [])
  }

  function AdoptSpan(st: State): State
    requires st.owner.Adopt?
  {
    if st.owner.walk == None then st.(owner := Ready)
    else
      var s := st.owner.walk.value;
      var sp := SpanAt(st, s);
      var next := if sp.free.Link? then sp.free.next else None;
      SetSpan(st, s, sp.(phase := Cached))
        .(fullCount := st.fullCount - 1, owner := Adopt(next, if st.owner.rest == [] then [] else st.owner.rest[1..]))
  }

  function StartRemote(st: State, t: nat, s: SpanId, b: nat): State
    requires CanFreeRemote(st, t, s, b)
  {
    var sp := st.spans[s];
    SetPc(SetSpan(st, s, sp.(place := Put(sp.place, b, Hand(Remote(t))))), t, Want(s, b))
  }

  function LockRemote(st: State, t: nat): State
    requires Pc(st, t).Want?
  {
    var s, b := Pc(st, t).s, Pc(st, t).b;
    var sp := SpanAt(st, s);
    if sp.word == Locked then st
    else SetPc(SetSpan(st, s, sp.(word := Locked, holder := Some(Remote(t)))), t, Hold(s, b, sp.word.list))
  }

  function LinkRemote(st: State, t: nat): State
    requires Pc(st, t).Hold?
  {
    var s, b := Pc(st, t).s, Pc(st, t).b;
    var sp := SpanAt(st, s);
    var list := [b] + Pc(st, t).list;
    SetPc(SetSpan(st, s, sp.(listSize := sp.listSize + 1, deferred := list, place := Put(sp.place, b, InDeferred))),
          t, Linked(s, list, sp.listSize + 1 == st.n))
  }

  function UnlockRemote(st: State, t: nat): State
    requires Pc(st, t).Linked?
  {
    var s, all := Pc(st, t).s, Pc(st, t).all;
    var sp := SpanAt(st, s).(word := Blocks(Pc(st, t).list), holder := None);
    if all
    then SetPc(SetSpan(st, s, sp.(phase := Handing(t), retired := sp.retired + 1)), t, Push(s))
    else SetPc(SetSpan(st, s, sp), t, Idle)
  }

  function LoadTop(st: State, t: nat): State
    requires Pc(st, t).Push?
  {
    var s := Pc(st, t).s;
    SetPc(SetSpan(st, s, SpanAt(st, s).(free := Link(st.top))), t, Swap(s))
  }

  function SwapTop(st: State, t: nat, spurious: bool): State
    requires Pc(st, t).Swap?
  {
    var s := Pc(st, t).s;
    if !spurious && SpanAt(st, s).free == Link(st.top)
    then SetPc(SetSpan(st, s, SpanAt(st, s).(phase := Queued)), t, Idle).(top := Some(s), queue := [s] + st.queue)
    else SetPc(st, t, Push(s))
  }

  function Apply(st: State, a: Action): State
    requires Enabled(st, a)
  {
    match a
    case AllocFast => PopClass(st)
    case AllocSlow(k) => TakeBlock(st, k)
    case AllocNew(s, k) => InitialiseSpan(st, s, k)
    case Load => LoadWord(st)
    case Exchange => ExchangeWord(st)
    case Adjust => AdjustCounts(st)
    case Release => ReleaseWord(st)
    case Return => ReturnBlock(st)
    case FreeLocal(s, b) => PushLocal(st, s, b)
    case Compare => CompareCounts(st)
    case SyncExchange => SyncLock(st)
    case SyncRelease => SyncUnlock(st)
    case Unlink => UnlinkSpan(st)
    case AdoptAll => TakeStack(st)
    case AdoptOne => AdoptSpan(st)
    case FreeRemote(t, s, b) => StartRemote(st, t, s, b)
    case RemoteExchange(t) => LockRemote(st, t)
    case RemoteLink(t) => LinkRemote(st, t)
    case RemoteRelease(t) => UnlockRemote(st, t)
    case RemoteLoad(t) => LoadTop(st, t)
    case RemoteSwap(t, spurious) => SwapTop(st, t, spurious)
  }

  /** All spans in the cache, nobody inside the allocator. */
  predicate Initial(st: State) {
    && st.n >= 1
    && st.classFree == [] && st.partial == [] && st.fullCount == 0
    && st.top == None && st.queue == [] && st.owner == Ready
    && (forall t :: 0 <= t < |st.threads| ==> st.threads[t] == Idle)
    && forall s :: 0 <= s < |st.spans| ==>
         && st.spans[s].phase == Cached && st.spans[s].holder == None && st.spans[s].place == []
         && st.spans[s].lives == st.spans[s].retired
  }

  /** The actions can be taken one after the other from st. */
  predicate IsRun(st: State, run: seq<Action>)
    decreases |run|
  {
    run == [] || (Enabled(st, run[0]) && IsRun(Apply(st, run[0]), run[1..]))
  }

  function After(st: State, run: seq<Action>): State
    requires IsRun(st, run)
    decreases |run|
  {
    if run == [] then st else After(Apply(st, run[0]), run[1..])
  }
}
