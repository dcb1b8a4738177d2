/**
  An open index (pup.c): sorted runs, oldest first, and a memtable in two parts, PAST (sorted) and DATA.
  Cursor entries and run views point into the runs and the memtable; every leaf that moves them detaches
  the views and bumps the epoch first, and a range scan bars those leaves while its callbacks run.

  What libdog decides (when to collapse, seal and compact, whether a new run gets a page index, where it is
  mapped) is a Plan chosen by the environment.
 */
module PupHandle {
  import opened Options
  import opened PupOrder
  import opened PupMerge
  import opened PupToc

  /** A committed run: the address it is mapped at, its rows and its page index. */
  datatype Run = Run(base: nat, rows: seq<Row>, toc: seq<Row>)

  /** One live no-copy view over a run's mapping: the ArrayBuffer, and the mapping it wraps. */
  datatype View = View(buf: nat, base: nat, len: nat)

  datatype Plan = Plan(collapse: bool, seal: bool, compact: nat, base: nat, indexed: bool)

  /** What a leaf says: done, or why it throws. */
  datatype Outcome = Done | Closed | ReadOnly | Busy | NoRun

  const MAX_RUNS: nat := 64

  // ----- what a range callback may do

  datatype Call =
    | DoPut(row: Row, plan: Plan)
    | DoCommit(plan: Plan)
    | DoDrop(which: Option<nat>)
    | DoClose
    | DoView(i: nat)
    | DoGet(key: nat)
    | DoSeek(key: nat)
    | DoNext
    | DoRange(lo: nat, hi: nat, script: Script)

  datatype Answer = More | Enough | Throw

  /** What the callback does at its n-th call; past the end it returns undefined. */
  datatype Script = Script(turns: seq<Turn>)

  datatype Turn = Turn(calls: seq<Call>, answer: Answer)

  function AnswerAt(script: Script, n: nat): Answer { if n < |script.turns| then script.turns[n].answer else More }

  /** The callback goes on k times. */
  predicate GoesOn(script: Script, k: nat) {
    k == 0 || (GoesOn(script, k - 1) && AnswerAt(script, k - 1) == More)
  }

  /** The callback, called k times, went on each time; or it went on until its last call, which is what ended it. */
  predicate Stops(script: Script, k: nat, ended: Answer) {
    if ended == More then GoesOn(script, k) else k >= 1 && GoesOn(script, k - 1) && AnswerAt(script, k - 1) == ended
  }

  lemma StopsOn(script: Script, k: nat, ended: Answer)
    requires Stops(script, k, More) && ended == AnswerAt(script, k)
    ensures Stops(script, k + 1, ended)
  {
  }

  lemma {:induction false} GoesOnIs(script: Script, k: nat)
    ensures GoesOn(script, k) <==> forall n :: 0 <= n < k ==> AnswerAt(script, n) == More
  {
    if k > 0 { GoesOnIs(script, k - 1); }
  }

  /**
    So a scan is ended by the first turn that does not go on, and by its answer; if none it came to does, it
    runs out.
  */
  lemma EndedBy(script: Script, k: nat, ended: Answer)
    requires Stops(script, k, ended)
    ensures ended == More <==> forall n :: 0 <= n < k ==> AnswerAt(script, n) == More
    ensures ended != More ==> k >= 1 && AnswerAt(script, k - 1) == ended &&
                              forall n :: 0 <= n < k - 1 ==> AnswerAt(script, n) == More
    ensures (forall t <- script.turns :: t.answer == More) ==> ended == More
  {
    GoesOnIs(script, k);
    if k > 0 { GoesOnIs(script, k - 1); }
  }

  // ----- pages

  /** The page index libdog builds: one cell a page. */
  function Index(rows: seq<Row>, per: nat, n: nat): (toc: seq<Row>)
    requires per >= 1 && (n > 0 ==> PageStart(n - 1, per) < |rows|)
    ensures |toc| == n
  {
    seq(n, i requires 0 <= i < n => CellOf(rows, per, n, i))
  }

  function CellOf(rows: seq<Row>, per: nat, n: nat, i: nat): Row
    requires per >= 1 && i < n && PageStart(n - 1, per) < |rows|
  {
    assert PageStart(i, per) < |rows| by { if i < n - 1 { PageOrder(i, n - 1, per); } }
    rows[PageStart(i, per)]
  }

  /** The number of pages of n rows. */
  function Pages(n: nat, per: nat): (r: nat)
    requires per >= 1
    ensures n <= PageStart(r, per) && (r > 0 ==> PageStart(r - 1, per) < n)
  {
    if n <= per then (if n == 0 then 0 else 1)
    else
      PagesStep(Pages(n - per, per), per);
      Pages(n - per, per) + 1
  }

  lemma PagesStep(r: nat, per: nat)
    ensures PageStart(r + 1, per) == PageStart(r, per) + per
    ensures r > 0 ==> PageStart(r, per) == PageStart(r - 1, per) + per
  {
  }

  function TocFor(rows: seq<Row>, per: nat, indexed: bool): (toc: seq<Row>)
    ensures TocOk(rows, toc, per) && |toc| == if indexed && per > 0 then Pages(|rows|, per) else 0
  {
    if !indexed || per == 0 then []
    else
      var toc := Index(rows, per, Pages(|rows|, per));
      assert forall i :: 0 <= i < |toc| ==> PageStart(i, per) < |rows| by {
        forall i | 0 <= i < |toc| - 1 ensures PageStart(i, per) < |rows| { PageOrder(i, |toc| - 1, per); }
      }
      toc
  }

  function RunRows(runs: seq<Run>): (s: seq<seq<Row>>)
    ensures |s| == |runs| && forall i :: 0 <= i < |s| ==> s[i] == runs[i].rows
  {
    seq(|runs|, i requires 0 <= i < |runs| => runs[i].rows)
  }

  ghost predicate RunOk(l: Lane, per: nat, run: Run) {
    Sorted(l, run.rows) && TocOk(run.rows, run.toc, per)
  }

  /** The rows a range [lo, hi) over the log has to emit. */
  ghost predicate InRange(l: Lane, lo: Row, hi: Row, r: Row) {
    !Z(l, r, lo) && Z(l, r, hi)
  }

  /** The emitted rows: sorted, last rows of the log in range; all of them, or all up to the last emitted. */
  ghost predicate Emission(l: Lane, log: seq<Row>, lo: Row, hi: Row, out: seq<Row>, whole: bool) {
    && Sorted(l, out)
    && forall r :: r in out <==>
         Last(l, log, r) && InRange(l, lo, hi, r) && (whole || (out != [] && !Z(l, out[|out| - 1], r)))
  }

  /** The query sources, oldest first: the runs, then the memtable's PAST (if any) and DATA. */
  function SourcesOf(runs: seq<Run>, past: seq<Row>, data: seq<Row>): seq<seq<Row>> {
    RunRows(runs) + (if past == [] then [] else [past]) + [data]
  }

  /** Everything the index holds, oldest first. */
  function LogOf(runs: seq<Run>, past: seq<Row>, data: seq<Row>): seq<Row> {
    Flat(RunRows(runs)) + past + data
  }

  ghost predicate RunsOk(l: Lane, per: nat, runs: seq<Run>) {
    forall i :: 0 <= i < |runs| ==> RunOk(l, per, runs[i])
  }

  ghost predicate StoreOk(l: Lane, per: nat, runs: seq<Run>, past: seq<Row>, data: seq<Row>) {
    RunsOk(l, per, runs) && Sorted(l, past) && Sorted(l, data)
  }

  /** nview counts the occupied slots; every view wraps the mapping of its run; nothing else is attached. */
  ghost predicate ViewsOk(runs: seq<Run>, view: map<nat, View>, nview: int, attached: map<nat, nat>) {
    && nview == |view|
    && (forall i :: i in view ==>
          i < MAX_RUNS && i < |runs| && view[i].base == runs[i].base && view[i].len == |runs[i].rows|
          && view[i].buf in attached && attached[view[i].buf] == view[i].base)
    && Registered(view, attached)
  }

  /** What is attached was made, and wraps what it was made over. */
  ghost predicate AllMade(attached: map<nat, nat>, made: seq<nat>) {
    forall b <- attached :: b < |made| && attached[b] == made[b]
  }

  /** Every attached buffer is some slot's, and no two slots share one. */
  ghost predicate Registered(view: map<nat, View>, attached: map<nat, nat>) {
    && (forall b :: b in attached ==> exists i :: i in view && view[i].buf == b)
    && (forall i, j :: i in view && j in view && view[i].buf == view[j].buf ==> i == j)
  }

  /** The cursor's entries hold exactly the rows past its bound. */
  ghost predicate CutOk(l: Lane, srcs: seq<seq<Row>>, ents: seq<Slice>, log: seq<Row>, key: Row, pulled: bool) {
    SlicesOk(srcs, ents) && Content(srcs, ents) == Filter(l, log, key, pulled)
  }

  /** An armed cursor cut at the current epoch is a cut of the current sources. */
  ghost predicate CursorOk(l: Lane, runs: seq<Run>, past: seq<Row>, data: seq<Row>, epoch: nat,
                           armed: bool, cutEpoch: nat, ents: seq<Slice>, key: Row, pulled: bool)
  {
    && cutEpoch <= epoch
    && (armed && cutEpoch == epoch ==>
          CutOk(l, SourcesOf(runs, past, data), ents, LogOf(runs, past, data), key, pulled))
  }

  /** Dropping runs leaves a proper store, and a spent cursor claims nothing. */
  lemma DropOk(l: Lane, per: nat, runs: seq<Run>, past: seq<Row>, data: seq<Row>, which: Option<nat>,
               epoch: nat, cutEpoch: nat, ents: seq<Slice>, key: Row, pulled: bool)
    requires StoreOk(l, per, runs, past, data) && cutEpoch <= epoch
    ensures var left := DropRun(runs, which);
            && StoreOk(l, per, left, past, data) && StoreOk(l, per, [], [], [])
            && CursorOk(l, left, past, data, epoch, false, cutEpoch, ents, key, pulled)
            && CursorOk(l, [], [], [], epoch, false, cutEpoch, ents, key, pulled)
            && ViewsOk(left, map[], 0, map[]) && ViewsOk([], map[], 0, map[])
  {
    NoViews(DropRun(runs, which));
    NoViews([]);
  }

  /** The runs that are left when run `which`, or every run, is dropped. */
  function DropRun(runs: seq<Run>, which: Option<nat>): seq<Run> {
    if which.None? then [] else if which.value < |runs| then runs[..which.value] + runs[which.value + 1..] else runs
  }

  /** Every run is gone, or run i only and the others are there in order; with no such run nothing changes. */
  ghost predicate Thinned(before: seq<Run>, after: seq<Run>, which: Option<nat>) {
    if which.None? then after == []
    else if which.value >= |before| then after == before
    else
      && |after| + 1 == |before|
      && (forall j :: 0 <= j < which.value ==> after[j] == before[j])
      && forall j :: which.value <= j < |after| ==> after[j] == before[j + 1]
  }

  lemma DropExactly(runs: seq<Run>, which: Option<nat>)
    ensures Thinned(runs, DropRun(runs, which), which)
  {
  }

  /** With nothing attached the runs may change. */
  lemma NoViews(runs: seq<Run>)
    ensures ViewsOk(runs, map[], 0, map[])
  {
  }

  lemma SourcesSorted(l: Lane, per: nat, runs: seq<Run>, past: seq<Row>, data: seq<Row>)
    requires StoreOk(l, per, runs, past, data)
    ensures AllSorted(l, SourcesOf(runs, past, data))
  {
  }

  lemma DetachOne(view: map<nat, View>, attached: map<nat, nat>, i: nat)
    requires Registered(view, attached) && i in view
    ensures Registered(view - {i}, attached - {view[i].buf})
  {
    var view', attached' := view - {i}, attached - {view[i].buf};
    forall b | b in attached' ensures exists k :: k in view' && view'[k].buf == b {
      var k :| k in view && view[k].buf == b;
      assert k in view' && view'[k].buf == b;
    }
  }

  lemma AttachOne(view: map<nat, View>, attached: map<nat, nat>, i: nat, v: View)
    requires Registered(view, attached) && i !in view && v.buf !in attached
    requires forall k :: k in view ==> view[k].buf in attached
    ensures Registered(view[i := v], attached[v.buf := v.base])
  {
    var view', attached' := view[i := v], attached[v.buf := v.base];
    forall b | b in attached' ensures exists k :: k in view' && view'[k].buf == b {
      if b == v.buf {
        assert view'[i].buf == b;
      } else {
        var k :| k in view && view[k].buf == b;
        assert k in view' && view'[k].buf == b;
      }
    }
  }

  /** The slot of run i, minted again when it is free or wraps another mapping; the views count; the buffers. */
  function Mint(runs: seq<Run>, view: map<nat, View>, nview: int, attached: map<nat, nat>, i: nat, buf: nat)
    : (r: (map<nat, View>, int, map<nat, nat>))
    requires i < |runs|
    ensures i in r.0
  {
    var stale := i in view &&
      !(view[i].buf in attached && view[i].base == runs[i].base && view[i].len == |runs[i].rows|);
    var slots, n := if stale then view - {i} else view, if stale then nview - 1 else nview;
    if i in slots then (slots, n, attached)
    else (slots[i := View(buf, runs[i].base, |runs[i].rows|)], n + 1, attached[buf := runs[i].base])
  }

  lemma MintOk(runs: seq<Run>, view: map<nat, View>, nview: int, attached: map<nat, nat>, i: nat, buf: nat)
    requires ViewsOk(runs, view, nview, attached) && i < |runs| && i < MAX_RUNS && buf !in attached
    ensures var r := Mint(runs, view, nview, attached, i, buf);
            && ViewsOk(runs, r.0, r.1, r.2)
            && r.0[i].buf in r.2 && r.2[r.0[i].buf] == runs[i].base
            && (forall b :: b in attached ==> b in r.2 && r.2[b] == attached[b])
            && forall b :: b in r.2 ==> b in attached || b == buf
  {
    if i !in view { AttachOne(view, attached, i, View(buf, runs[i].base, |runs[i].rows|)); }
  }

  /** The buffers made, with a new one over the base if `buf` is one. */
  function Made(made: seq<nat>, buf: nat, base: nat): seq<nat> { if buf == |made| then made + [base] else made }

  lemma MintAttaches(runs: seq<Run>, view: map<nat, View>, nview: int, attached: map<nat, nat>, i: nat, buf: nat)
    requires i < |runs|
    ensures var r := Mint(runs, view, nview, attached, i, buf);
            r.2 == attached || (r.0[i].buf == buf && r.2 == attached[buf := runs[i].base])
  {
  }

  lemma MadeMore(attached: map<nat, nat>, after: map<nat, nat>, made: seq<nat>, buf: nat, base: nat)
    requires AllMade(attached, made) && buf in after && after[buf] == base
    requires after == attached || (buf == |made| && after == attached[buf := base])
    ensures var more := Made(made, buf, base);
            && AllMade(after, more) && made <= more && buf < |more| && more[buf] == base
            && forall b <- after :: b < |made| ==> b in attached
  {
  }

  // ----- what the leaves do, seen from outside

  datatype Snapshot = Snapshot(log: seq<Row>, armed: bool, key: Row, pulled: bool)

  datatype Event =
    | Putting(row: Row)            // a put that went through
    | Keeping                      // any leaf that changes neither the rows nor the cursor
    | Seeking(needle: Row)
    | Pulling(found: Option<Row>)    // next, with its result
    | Scanning                     // a scan, whose callback may have moved the cursor
    | Dropping                     // drop or close

  ghost predicate StepOk(l: Lane, s: Snapshot, e: Event, s': Snapshot) {
    match e
    case Putting(row) => KeptCursor(s, s') && SameLast(l, s'.log, s.log + [row])
    case Keeping => KeptCursor(s, s') && SameLast(l, s'.log, s.log)
    case Seeking(needle) => s' == Snapshot(s.log, true, needle, false)
    case Pulling(found) => PulledOk(l, s, found, s')
    case Scanning => s'.log == s.log
    case Dropping => !s'.armed
  }

  ghost predicate KeptCursor(s: Snapshot, s': Snapshot) {
    s' == s.(log := s'.log)
  }

  /** next returns the least row past the bound, and moves the bound to it; or there is none, and it disarms. */
  ghost predicate PulledOk(l: Lane, s: Snapshot, found: Option<Row>, s': Snapshot) {
    match found
    case None => s' == s.(armed := false) && (s.armed ==> NoneBeyond(l, s.log, s.key, s.pulled))
    case Some(row) => s.armed && s' == s.(key := row, pulled := true) && LeastBeyond(l, s.log, s.key, s.pulled, row)
  }

  // ----- what a callback's calls do to the cursor

  /** A call of a live handle from a scan's callback, which finds everything barred that would move rows. */
  ghost predicate CallRun(l: Lane, s: Snapshot, call: Call, s': Snapshot)
    decreases call
  {
    match call
    case DoSeek(k) => s' == Snapshot(s.log, true, Row(k, 0), false)
    case DoNext => exists found :: PulledOk(l, s, found, s')
    case DoRange(lo, hi, script) =>
      exists rows, ended ::
        && ScanEnds(l, s.log, lo, hi, script, rows, ended)
        && TurnsRun(l, s, script, |rows|, s')
    case _ => s' == s
  }

  /** The rows a scan emits with its script, and the answer it ends with. */
  ghost predicate ScanEnds(l: Lane, log: seq<Row>, lo: nat, hi: nat, script: Script, rows: seq<Row>, ended: Answer) {
    && Stops(script, |rows|, ended)
    && (Keyed(l) ==> Emission(l, log, Row(lo, 0), Row(hi, 0), rows, ended == More))
  }

  /** The first j calls of a turn, one after the other. */
  ghost predicate CallsRun(l: Lane, s: Snapshot, turn: Turn, j: nat, s': Snapshot)
    requires j <= |turn.calls|
    decreases turn, j
  {
    if j == 0 then s' == s
    else
      var i := j - 1;
      exists m :: CallsRun(l, s, turn, i, m) && CallRun(l, m, turn.calls[i], s')
  }

  ghost predicate TurnRun(l: Lane, s: Snapshot, script: Script, n: nat, s': Snapshot)
    decreases script, 0
  {
    if n < |script.turns| then CallsRun(l, s, script.turns[n], |script.turns[n].calls|, s') else s' == s
  }

  /** The first k turns. */
  ghost predicate TurnsRun(l: Lane, s: Snapshot, script: Script, k: nat, s': Snapshot)
    decreases script, 1, k
  {
    if k == 0 then s' == s
    else
      var n := k - 1;
      exists m :: TurnsRun(l, s, script, n, m) && TurnRun(l, m, script, n, s')
  }

  /** Callbacks that leave the cursor alone: they call neither seek nor next, and scan no further. */
  predicate Quiet(script: Script) {
    forall t <- script.turns :: forall c <- t.calls :: !c.DoSeek? && !c.DoNext? && !c.DoRange?
  }

  /** Then the cursor is where it was. */
  lemma {:induction false} QuietTurns(l: Lane, s: Snapshot, script: Script, k: nat, s': Snapshot)
    requires Quiet(script) && TurnsRun(l, s, script, k, s')
    ensures s' == s
    decreases k
  {
    if k > 0 {
      var n := k - 1;
      var m :| TurnsRun(l, s, script, n, m) && TurnRun(l, m, script, n, s');
      QuietTurns(l, s, script, n, m);
      if n < |script.turns| { QuietCalls(l, m, script.turns[n], |script.turns[n].calls|, s'); }
    }
  }

  lemma {:induction false} QuietCalls(l: Lane, s: Snapshot, turn: Turn, j: nat, s': Snapshot)
    requires j <= |turn.calls| && CallsRun(l, s, turn, j, s')
    requires forall c <- turn.calls :: !c.DoSeek? && !c.DoNext? && !c.DoRange?
    ensures s' == s
    decreases j
  {
    if j > 0 {
      var i := j - 1;
      var m :| CallsRun(l, s, turn, i, m) && CallRun(l, m, turn.calls[i], s');
      QuietCalls(l, s, turn, i, m);
      assert turn.calls[i] in turn.calls;
    }
  }

  ghost predicate NoneBeyond(l: Lane, log: seq<Row>, key: Row, pulled: bool) {
    forall r :: Last(l, log, r) ==> !Beyond(l, key, pulled, r)
  }

  ghost predicate LeastBeyond(l: Lane, log: seq<Row>, key: Row, pulled: bool, row: Row) {
    && Last(l, log, row) && Beyond(l, key, pulled, row)
    && forall r :: Last(l, log, r) && Beyond(l, key, pulled, r) ==> !Z(l, r, row)
  }

  lemma SourcesFlat(runs: seq<Run>, past: seq<Row>, data: seq<Row>)
    ensures Flat(SourcesOf(runs, past, data)) == LogOf(runs, past, data)
  {
    var mem := if past == [] then [] else [past];
    FlatConcat(RunRows(runs) + mem, [data]);
    FlatConcat(RunRows(runs), mem);
    FlatOne(data);
    FlatOne(past);
  }

  lemma AdjacentSorted(l: Lane, s: seq<Row>)
    requires forall i :: 1 <= i < |s| ==> Z(l, s[i - 1], s[i])
    ensures Sorted(l, s)
  {
    forall i, j | 0 <= i < j < |s| ensures Z(l, s[i], s[j]) { AdjacentPair(l, s, i, j); }
  }

  lemma {:induction false} AdjacentPair(l: Lane, s: seq<Row>, i: nat, j: nat)
    requires forall i :: 1 <= i < |s| ==> Z(l, s[i - 1], s[i])
    requires i < j < |s|
    ensures Z(l, s[i], s[j])
    decreases j
  {
    if i < j - 1 {
      AdjacentPair(l, s, i, j - 1);
      assert Z(l, s[j - 1], s[j]);
    }
  }

  class Handle {
    const lane: Lane
    const per: nat
    var live: bool
    var rw: bool
    var busy: bool
    var runs: seq<Run>
    var past: seq<Row>
    var data: seq<Row>
    var epoch: nat
    var view: map<nat, View>      // the occupied view slots, by run index
    var nview: int
    var armed: bool               // A
    var key: Row                  // K
    var pulled: bool              // X
    var cutEpoch: nat             // E
    var ents: seq<Slice>
    var attached: map<nat, nat>   // the engine: ArrayBuffers not detached yet, with the mapping each wraps
    var made: seq<nat>            // the engine: the mapping each ArrayBuffer of the handle was made over

    function Sources(): seq<seq<Row>>
      reads this
    {
      SourcesOf(runs, past, data)
    }

    function Log(): seq<Row>
      reads this
    {
      LogOf(runs, past, data)
    }

    /** Each part is compared with true, which keeps the verifier from taking it apart at every use. */
    ghost predicate Valid()
      reads this
    {
      && (StoreOk(lane, per, runs, past, data) == true)
      && (ViewsOk(runs, view, nview, attached) == true)
      && (AllMade(attached, made) == true)
      && (CursorOk(lane, runs, past, data, epoch, armed, cutEpoch, ents, key, pulled) == true)
    }

    function Snap(): Snapshot
      reads this
    {
      Snapshot(Log(), armed, key, pulled)
    }

    /** DOGPupOpenAll: the runs found in the directory, an empty memtable. */
    constructor (l: Lane, rows: nat, writable: bool, found: seq<Run>)
      requires forall i :: 0 <= i < |found| ==> RunOk(l, rows, found[i])
      ensures Valid() && live && !busy && rw == writable && lane == l && per == rows && runs == found
      ensures Log() == Flat(RunRows(found)) && !armed && attached == map[] && made == []
    {
      lane, per, live, rw, busy := l, rows, true, writable, false;
      runs, past, data := found, [], [];
      epoch, cutEpoch, armed, pulled, key, ents := 1, 0, false, false, Row(0, 0), [];
      view, nview, attached, made := map[], 0, map[], [];
    }

    // ----- views

    /** JABCPupUnview: the ArrayBuffer of every occupied slot is detached. */
    method Unview()
      requires ViewsOk(runs, view, nview, attached)
      modifies this`view, this`nview, this`attached
      ensures view == map[] && nview == 0 && attached == map[]
    {
      if nview == 0 {
        assert view == map[];
        return;
      }
      for i := 0 to MAX_RUNS
        invariant forall k :: k in view ==> i <= k < MAX_RUNS
        invariant Registered(view, attached)
      {
        if i in view {
          DetachOne(view, attached, i);
          attached := attached - {view[i].buf};
          view := view - {i};
        }
      }
      nview := 0;
    }

    /** JABCPupMoved: called before anything moves. */
    method Moved()
      requires ViewsOk(runs, view, nview, attached)
      modifies this`view, this`nview, this`attached, this`epoch
      ensures view == map[] && nview == 0 && attached == map[] && epoch == old(epoch) + 1
    {
      Unview();
      epoch := epoch + 1;
    }

    /** Buffers are made and detached; none comes back. */
    twostate predicate Lent()
      reads this
    {
      && old(made) <= made
      && forall b <- attached :: b < |old(made)| ==> b in old(attached)
    }

    /** JABCPupView: a view over run i; a slot that still wraps this mapping is used again. */
    method MintView(i: nat) returns (buf: nat)
      requires ViewsOk(runs, view, nview, attached) && AllMade(attached, made) && i < |runs| && i < MAX_RUNS
      modifies this`view, this`nview, this`attached, this`made
      ensures ViewsOk(runs, view, nview, attached) && AllMade(attached, made) && Lent()
      ensures buf in attached && buf < |made| && made[buf] == runs[i].base
      ensures forall b :: b in old(attached) ==> b in attached && attached[b] == old(attached)[b]
    {
      MintOk(runs, view, nview, attached, i, |made|);
      MintAttaches(runs, view, nview, attached, i, |made|);
      var minted := Mint(runs, view, nview, attached, i, |made|);
      MadeMore(attached, minted.2, made, minted.0[i].buf, runs[i].base);
      view, nview, attached := minted.0, minted.1, minted.2;
      buf := view[i].buf;
      made := Made(made, buf, runs[i].base);
    }

    /** run(h, i) */
    method RunView(i: nat) returns (o: Outcome, buf: nat)
      requires Valid()
      modifies this`view, this`nview, this`attached, this`made
      ensures Valid() && Lent()
      ensures o == if !live then Closed else if i >= |runs| || i >= MAX_RUNS then NoRun else Done
      ensures o == Done ==> buf in attached && buf < |made| && made[buf] == runs[i].base
      ensures forall b :: b in old(attached) ==> b in attached && attached[b] == old(attached)[b]
    {
      o, buf := if !live then Closed else if i >= |runs| || i >= MAX_RUNS then NoRun else Done, 0;
      if o == Done { buf := MintView(i); }
    }

    // ----- the memtable and the ladder

    /** jpup_sync: sort and deduplicate DATA; on collapse fold it into PAST. */
    method Sync(collapse: bool)
      requires Sorted(lane, past)
      modifies this`past, this`data
      ensures Sorted(lane, past) && Sorted(lane, data)
      ensures SameLast(lane, past + data, old(past + data))
      ensures if collapse then data == [] else past == old(past)
    {
      ghost var before := past + data;
      var clean, p := true, 1;
      while clean && p < |data|
        invariant 1 <= p
        invariant clean ==> forall i :: 1 <= i < p && i < |data| ==> Z(lane, data[i - 1], data[i])
        decreases |data| - p, clean
      {
        if !Z(lane, data[p - 1], data[p]) {
          clean := false;
        } else {
          p := p + 1;
        }
      }
      if !clean {
        var ascending := InsertionSort(lane, data);
        var deduped := Dedup(lane, ascending);
        Congruence(lane, past, past, deduped, data);
        data := deduped;
      } else {
        AdjacentSorted(lane, data);
      }
      if !collapse {
        return;
      }
      if past == [] {
        assert past + data == data + [];
        past, data := data, [];
        return;
      }
      var merged := Merge(lane, [past, data]);
      FlatConcat([past], [data]); FlatOne(past); FlatOne(data);
      assert [past] + [data] == [past, data];
      assert merged + [] == merged;
      past, data := merged, [];
    }

    /** Seal: the collapsed memtable becomes the youngest run. */
    method Seal(base: nat, indexed: bool)
      requires RunsOk(lane, per, runs) && Sorted(lane, past) && attached == map[]
      modifies this`past, this`runs
      ensures RunsOk(lane, per, runs) && past == []
      ensures Flat(RunRows(runs)) == old(Flat(RunRows(runs)) + past)
      ensures |runs| == old(|runs|) + 1 && runs[..|runs| - 1] == old(runs) && runs[|runs| - 1].rows == old(past)
    {
      SealLog(runs, Run(base, past, TocFor(past, per, indexed)));
      runs := runs + [Run(base, past, TocFor(past, per, indexed))];
      past := [];
    }

    /** One compaction: the m youngest runs merge into one (jpup_merge). */
    method Compact(m: nat, base: nat, indexed: bool)
      requires RunsOk(lane, per, runs) && attached == map[]
      modifies this`runs
      ensures RunsOk(lane, per, runs) && SameLast(lane, Flat(RunRows(runs)), Flat(RunRows(old(runs))))
      ensures Compacted(lane, old(runs), runs, m)
    {
      if m < 2 || m > |runs| {
        return;
      }
      var older, younger := runs[..|runs| - m], runs[|runs| - m..];
      var rows := Merge(lane, RunRows(younger));
      CompactLog(lane, older, younger, Run(base, rows, TocFor(rows, per, indexed)));
      assert runs == older + younger;
      runs := older + [Run(base, rows, TocFor(rows, per, indexed))];
    }

    /** The memtable is sorted, and as the plan says made one, and a run. */
    method Settle(plan: Plan)
      requires RunsOk(lane, per, runs) && Sorted(lane, past) && attached == map[]
      modifies this`past, this`data, this`runs
      ensures StoreOk(lane, per, runs, past, data) && SameLast(lane, Log(), old(Log()))
      ensures (plan.collapse || plan.seal ==> data == []) && (plan.seal ==> past == [])
      ensures |runs| == old(|runs|) + (if plan.seal then 1 else 0) && (!plan.seal ==> runs == old(runs))
    {
      ghost var runs0, past0, data0 := runs, past, data;
      Sync(plan.collapse || plan.seal);
      MemLog(lane, runs0, past0, data0, past, data);
      ghost var past1, data1 := past, data;
      if plan.seal {
        Seal(plan.base, plan.indexed);
        assert LogOf(runs, past, data) == LogOf(runs0, past1, data1);
      }
    }

    /** What libdog does behind a put or a commit, as the plan says. */
    method Maintain(plan: Plan)
      requires RunsOk(lane, per, runs) && Sorted(lane, past) && attached == map[]
      modifies this`past, this`data, this`runs
      ensures StoreOk(lane, per, runs, past, data) && SameLast(lane, Log(), old(Log()))
      ensures Carried(plan, old(runs), runs, past, data)
    {
      Settle(plan);
      ghost var settled := runs;
      Compact(plan.compact, plan.base + 1, plan.indexed);
      RunsLog(lane, settled, runs, past, data);
      CarriedOn(lane, plan, old(runs), settled, runs, past, data);
    }

    // ----- the mutating leaves

    /** Why a mutating leaf refuses, if it does. */
    function Refusal(): Outcome
      reads this
    {
      if !live then Closed else if !rw then ReadOnly else if busy then Busy else Done
    }

    /** A row more, and what libdog does behind it. */
    method Append(rows: seq<Row>, plan: Plan)
      requires Valid() && |rows| <= 1
      modifies this`runs, this`past, this`data, this`epoch, this`view, this`nview, this`attached
      ensures Valid() && attached == map[] && SameLast(lane, Log(), old(Log()) + rows)
      ensures Carried(plan, old(runs), runs, past, data)
    {
      ghost var log := Log();
      Moved();
      PutLog(runs, past, data, rows);
      data := data + rows;
      assert Log() == log + rows;
      Maintain(plan);
      NoViews(runs);
    }

    method Put(row: Row, plan: Plan) returns (o: Outcome)
      requires Valid()
      modifies this`runs, this`past, this`data, this`epoch, this`view, this`nview, this`attached
      ensures Valid() && o == Refusal()
      ensures o == Done ==> SameLast(lane, Log(), old(Log()) + [row]) && attached == map[]
      ensures o == Done ==> Carried(plan, old(runs), runs, past, data)
      ensures o != Done ==> unchanged(this)
    {
      o := Refusal();
      if o == Done { Append([row], plan); }
    }

    method Commit(plan: Plan) returns (o: Outcome)
      requires Valid()
      modifies this`runs, this`past, this`data, this`epoch, this`view, this`nview, this`attached
      ensures Valid() && o == Refusal()
      ensures o == Done ==> SameLast(lane, Log(), old(Log())) && attached == map[]
      ensures o == Done ==> Carried(plan, old(runs), runs, past, data)
      ensures o != Done ==> unchanged(this)
    {
      o := Refusal();
      if o == Done {
        assert Log() + [] == Log();
        Append([], plan);
      }
    }

    /** The runs go, all or one, and the cursor is spent. */
    method Thin(which: Option<nat>)
      requires Valid()
      modifies this`runs, this`epoch, this`view, this`nview, this`attached, this`ents, this`armed
      ensures Valid() && !armed && attached == map[] && runs == DropRun(old(runs), which)
    {
      Moved();
      ents, armed := [], false;
      DropOk(lane, per, runs, past, data, which, epoch, cutEpoch, ents, key, pulled);
      runs := DropRun(runs, which);
    }

    /** drop(): every run, or run i only; the memtable stays, the cursor is spent. */
    method Drop(which: Option<nat>) returns (o: Outcome)
      requires Valid()
      modifies this`runs, this`epoch, this`view, this`nview, this`attached, this`ents, this`armed
      ensures Valid()
      ensures o == if Refusal() != Done then Refusal()
                   else if which.Some? && which.value >= old(|runs|) then NoRun else Done
      ensures Refusal() != Done ==> unchanged(this)
      ensures Refusal() == Done ==> !armed && attached == map[] && Thinned(old(runs), runs, which)
      ensures Refusal() == Done ==> runs == DropRun(old(runs), which)
    {
      o := Refusal();
      if o == Done {
        DropExactly(runs, which);
        if which.Some? && which.value >= |runs| { o := NoRun; }
        Thin(which);
      }
    }

    /** Every mapping goes, and the handle with them. */
    method Shut()
      requires Valid()
      modifies this`live, this`runs, this`past, this`data, this`epoch, this`view, this`nview, this`attached,
               this`ents, this`armed
      ensures Valid() && !live && !armed && attached == map[] && runs == [] && past == [] && data == []
    {
      Moved();
      DropOk(lane, per, runs, past, data, None, epoch, cutEpoch, [], key, pulled);
      runs, past, data := [], [], [];
      live := false;
      ents, armed := [], false;
    }

    method Close() returns (o: Outcome)
      requires Valid()
      modifies this`live, this`runs, this`past, this`data, this`epoch, this`view, this`nview, this`attached,
               this`ents, this`armed
      ensures Valid()
      ensures o == if !old(live) then Closed else if busy then Busy else Done
      ensures o != Done ==> unchanged(this)
      ensures o == Done ==> !live && !armed && attached == map[] && runs == [] && past == [] && data == []
    {
      o := if !live then Closed else if busy then Busy else Done;
      if o == Done { Shut(); }
    }

    // ----- the cursor

    /** jpup_cut: every source at its first row past the bound; exhausted sources are left out. */
    method Cut()
      requires StoreOk(lane, per, runs, past, data)
      modifies this`ents, this`cutEpoch
      ensures CursorOk(lane, runs, past, data, epoch, true, cutEpoch, ents, key, pulled) && cutEpoch == epoch
    {
      var srcs := Sources();
      SourcesFlat(runs, past, data);
      SourcesSorted(lane, per, runs, past, data);
      var cut: seq<Slice> := [];
      for i := 0 to |srcs|
        invariant SlicesOk(srcs, cut)
        invariant Content(srcs, cut) == Filter(lane, Flat(srcs[..i]), key, pulled)
      {
        var pos := FirstBeyond(lane, srcs[i], key, pulled);
        CutOne(lane, srcs, i, key, pulled, pos, cut);
        if pos < |srcs[i]| {
          cut := cut + [Slice(i, pos, |srcs[i]|)];
        }
      }
      assert srcs[..|srcs|] == srcs;
      ents := cut;
      cutEpoch := epoch;
    }

    /** What a leaf that changes no rows says: nothing but that the handle is closed stops it. */
    function Reached(): Outcome
      reads this
    {
      if live then Done else Closed
    }

    method SeekTo(needle: Row)
      requires StoreOk(lane, per, runs, past, data)
      modifies this`key, this`pulled, this`armed, this`ents, this`cutEpoch
      ensures CursorOk(lane, runs, past, data, epoch, armed, cutEpoch, ents, key, pulled)
      ensures armed && key == needle && !pulled
    {
      key, pulled, armed := needle, false, true;
      Cut();
    }

    method Seek(needle: Row) returns (o: Outcome)
      requires Valid()
      modifies this`key, this`pulled, this`armed, this`ents, this`cutEpoch
      ensures Valid() && o == Reached()
      ensures Snap() == if o == Done then Snapshot(old(Log()), true, needle, false) else old(Snap())
    {
      o := Reached();
      if o == Done { SeekTo(needle); }
    }

    /** One merged row from the entries of the cursor, which are cut again if anything has moved since. */
    method PullOne() returns (row: Option<Row>)
      requires Valid() && armed
      modifies this`ents, this`cutEpoch
      ensures if row.Some? then CursorOk(lane, runs, past, data, epoch, true, cutEpoch, ents, row.value, true)
              else CursorOk(lane, runs, past, data, epoch, false, cutEpoch, ents, key, pulled)
      ensures if row.Some? then LeastBeyond(lane, Log(), key, pulled, row.value)
              else NoneBeyond(lane, Log(), key, pulled)
    {
      if cutEpoch != epoch { Cut(); }
      SourcesSorted(lane, per, runs, past, data);
      row, ents := Pull(lane, Sources(), ents);
      NextStep(lane, Sources(), ents, Log(), key, pulled, row);
    }

    method Advance() returns (row: Option<Row>)
      requires Valid() && armed
      modifies this`key, this`pulled, this`armed, this`ents, this`cutEpoch
      ensures Valid() && PulledOk(lane, old(Snap()), row, Snap())
    {
      row := PullOne();
      if row.Some? {
        key, pulled := row.value, true;
      } else {
        armed := false;
      }
    }

    method Next() returns (o: Outcome, row: Option<Row>)
      requires Valid()
      modifies this`key, this`pulled, this`armed, this`ents, this`cutEpoch
      ensures Valid() && o == Reached()
      ensures if o == Done then PulledOk(lane, old(Snap()), row, Snap()) else Snap() == old(Snap())
    {
      o, row := Reached(), None;
      if o == Done && armed { row := Advance(); }
    }

    // ----- lookups and scans

    function TocAt(j: nat): seq<Row>
      reads this
    {
      TocOf(runs, j)
    }

    /** The youngest source that has the key answers. */
    method Get(k: nat) returns (o: Outcome, found: Option<Row>)
      requires Valid()
      ensures o == Reached() && (o == Done ==> GetOk(Sources(), k, found))
    {
      o := Reached();
      found := Lookup(k);
    }

    /** The indexed search of one source. */
    method FindIn(srcs: seq<seq<Row>>, j: nat, k: nat) returns (hit: Option<Row>)
      requires AllSorted(lane, srcs) && j < |srcs| && TocOk(srcs[j], TocAt(j), per)
      ensures hit.None? <==> !HasKey(srcs[j], k)
      ensures hit.Some? ==> hit.value in srcs[j] && hit.value.key == k
    {
      TocSorted(lane, srcs[j], TocAt(j), per);
      FindsKey(lane, srcs[j], TocAt(j), per, k);
      var f := PagedFind(lane, srcs[j], TocAt(j), per, Row(k, 0));
      hit := if f < |srcs[j]| then Some(srcs[j][f]) else None;
    }

    method Lookup(k: nat) returns (found: Option<Row>)
      requires Valid()
      ensures GetOk(Sources(), k, found)
    {
      var srcs := Sources();
      SourcesSorted(lane, per, runs, past, data);
      found := None;
      var j := |srcs|;
      while j > 0 && found.None?
        invariant 0 <= j <= |srcs|
        invariant found.None? ==> forall i :: 0 <= j <= i < |srcs| ==> !HasKey(srcs[i], k)
        invariant found.Some? ==> GetOk(srcs, k, found)
        decreases j
      {
        j := j - 1;
        found := FindIn(srcs, j, k);
      }
    }

    /** Where the scan enters and leaves every source. */
    method RangeCut(lo: Row, hi: Row) returns (ents: seq<Slice>)
      requires Valid() && lo.val == 0
      ensures SlicesOk(Sources(), ents)
      ensures NoStraddle(lane, per, runs, lo) ==>
                Content(Sources(), ents) == Below(lane, Filter(lane, Log(), lo, false), hi)
      ensures Trimmed(lane, per, runs, Log(), Content(Sources(), ents), lo, hi)
    {
      SourcesFlat(runs, past, data);
      SourcesSorted(lane, per, runs, past, data);
      SourcesOk(lane, per, runs, past, data);
      ents := EnterAll(lane, per, runs, Sources(), lo, hi);
      EnteredAll(lane, per, runs, Sources(), Log(), ents, lo, hi);
    }

    /** The rows and everything that says where they are stand still; so does the guard. */
    twostate predicate Frozen()
      reads this
    {
      && runs == old(runs) && past == old(past) && data == old(data) && epoch == old(epoch)
      && busy == old(busy) && live == old(live) && rw == old(rw) && Lent()
    }

    /**
      An ordered [lo, hi) scan through a callback, which may call any leaf of this handle, further scans
      included, and may stop the scan or throw.
     */
    method RangeScan(lo: nat, hi: nat, script: Script) returns (o: Outcome, out: seq<Row>, ended: Answer)
      requires Valid()
      modifies this
      ensures Valid() && Frozen() && o == Reached() && (o != Done ==> Snap() == old(Snap()))
      ensures o == Done ==> Stops(script, |out|, ended) && TurnsRun(lane, old(Snap()), script, |out|, Snap())
      ensures o == Done && NoStraddle(lane, per, runs, Row(lo, 0)) ==>
                Emission(lane, old(Log()), Row(lo, 0), Row(hi, 0), out, ended == More)
      ensures o == Done && lane.Wh128? ==>
              LateEmission(lane, per, runs, old(Log()), Row(lo, 0), Row(hi, 0), out, ended == More)
      decreases script, 4
    {
      o, out, ended := Reached(), [], Throw;
      if o == Done {
        ghost var log, left;
        out, ended, log, left := Scan(lo, hi, script);
        DrainedEmission(lane, Log(), Row(lo, 0), Row(hi, 0), log, out, left, ended == More);
        if lane.Wh128? { DrainedLate(lane, per, runs, Log(), Row(lo, 0), Row(hi, 0), log, out, left, ended == More); }
      }
    }

    /** The scan itself, with the guard raised: `log` is what the entries hold, `left` what a stop leaves of it. */
    method Scan(lo: nat, hi: nat, script: Script)
      returns (out: seq<Row>, ended: Answer, ghost log: seq<Row>, ghost left: seq<Row>)
      requires Valid() && live
      modifies this
      ensures Valid() && Frozen() && Drained(lane, log, out, left) && (if ended == More then left == [] else out != [])
      ensures Stops(script, |out|, ended) && TurnsRun(lane, old(Snap()), script, |out|, Snap())
      ensures NoStraddle(lane, per, runs, Row(lo, 0)) ==>
              log == Below(lane, Filter(lane, Log(), Row(lo, 0), false), Row(hi, 0))
      ensures Trimmed(lane, per, runs, Log(), log, Row(lo, 0), Row(hi, 0))
      decreases script, 3
    {
      var entries := RangeCut(Row(lo, 0), Row(hi, 0));
      SourcesSorted(lane, per, runs, past, data);
      log := Content(Sources(), entries);
      var was := busy;
      busy := true;
      out, ended, left := Drain(Sources(), entries, script);
      busy := was;
    }

    /** The loop of a scan: pull, call back, until the heap is empty or the callback has had enough. */
    method Drain(srcs: seq<seq<Row>>, entries: seq<Slice>, script: Script)
      returns (out: seq<Row>, ended: Answer, ghost left: seq<Row>)
      requires Valid() && busy && live && AllSorted(lane, srcs) && SlicesOk(srcs, entries)
      modifies this
      ensures Valid() && Frozen()
      ensures Drained(lane, Content(srcs, entries), out, left)
      ensures if ended == More then left == [] else out != []
      ensures Stops(script, |out|, ended) && TurnsRun(lane, old(Snap()), script, |out|, Snap())
      decreases script, 2
    {
      ghost var log, start := Content(srcs, entries), Snap();
      out, ended, left := [], More, log;
      var row, rest := Pull(lane, srcs, entries);
      while row.Some? && ended == More
        invariant Valid() && Frozen() && SlicesOk(srcs, rest)
        invariant Midway(lane, log, script, out, left, ended, Content(srcs, rest), row, start, Snap())
        decreases |left|, ended == More
      {
        ghost var before, was, cursor := out, Content(srcs, rest), Snap();
        var r := row.value;
        ended, row, rest := AskOn(script, |out|, srcs, rest);
        MidwayOn(lane, log, script, before, left, was, r, ended, Content(srcs, rest), row, start, cursor, Snap());
        out, left := out + [r], was;
      }
    }

    /** The callback, and if it goes on the next row. */
    method AskOn(script: Script, n: nat, srcs: seq<seq<Row>>, rest: seq<Slice>)
      returns (ended: Answer, row: Option<Row>, rest': seq<Slice>)
      requires Valid() && busy && live && AllSorted(lane, srcs) && SlicesOk(srcs, rest)
      modifies this
      ensures Valid() && Frozen() && ended == AnswerAt(script, n) && SlicesOk(srcs, rest')
      ensures ended == More ==> Ahead(lane, Content(srcs, rest), Content(srcs, rest'), row)
      ensures TurnRun(lane, old(Snap()), script, n, Snap())
      decreases script, 1
    {
      ended := Ask(script, n);
      row, rest' := None, rest;
      if ended == More { row, rest' := Pull(lane, srcs, rest); }
    }

    /** The callback's n-th call. */
    method Ask(script: Script, n: nat) returns (ended: Answer)
      requires Valid() && busy && live
      modifies this
      ensures Valid() && Frozen() && ended == AnswerAt(script, n) && TurnRun(lane, old(Snap()), script, n, Snap())
      decreases script, 0
    {
      ended := More;
      if n < |script.turns| {
        RunTurn(script.turns[n]);
        ended := script.turns[n].answer;
      }
    }

    method RunTurn(turn: Turn)
      requires Valid() && busy && live
      modifies this
      ensures Valid() && Frozen() && CallsRun(lane, old(Snap()), turn, |turn.calls|, Snap())
      decreases turn, 1
    {
      ghost var start := Snap();
      for i := 0 to |turn.calls|
        invariant Valid() && Frozen() && CallsRun(lane, start, turn, i, Snap())
      {
        NextCall(turn, i, start);
      }
    }

    method NextCall(turn: Turn, i: nat, ghost start: Snapshot)
      requires Valid() && busy && live && i < |turn.calls| && CallsRun(lane, start, turn, i, Snap())
      modifies this
      ensures Valid() && Frozen() && CallsRun(lane, start, turn, i + 1, Snap())
      decreases turn, 0
    {
      RunCall(turn.calls[i]);
      CallsOn(lane, start, turn, i, old(Snap()), Snap());
    }

    /** A leaf that would move rows refuses while the guard is up. */
    method RunBarred(call: Call)
      requires Valid() && busy && (call.DoPut? || call.DoCommit? || call.DoDrop? || call.DoClose?)
      modifies this
      ensures Valid() && unchanged(this) && Frozen() && CallRun(lane, old(Snap()), call, Snap())
    {
      match call {
        case DoPut(row, plan) => var _ := Put(row, plan);
        case DoCommit(plan) => var _ := Commit(plan);
        case DoDrop(which) => var _ := Drop(which);
        case DoClose => var _ := Close();
      }
    }

    /** The cursor and lookup leaves move nothing but the cursor. */
    method RunReading(call: Call)
      requires Valid() && live && (call.DoGet? || call.DoSeek? || call.DoNext?)
      modifies this`key, this`pulled, this`armed, this`ents, this`cutEpoch
      ensures Valid() && Frozen() && CallRun(lane, old(Snap()), call, Snap())
    {
      match call {
        case DoGet(k) => var _, _ := Get(k);
        case DoSeek(k) => var _ := Seek(Row(k, 0));
        case DoNext => var _, _ := Next();
      }
    }

    method RunRange(call: Call)
      requires Valid() && busy && live && call.DoRange?
      modifies this
      ensures Valid() && Frozen() && CallRun(lane, old(Snap()), call, Snap())
      decreases call, 0
    {
      var o, out, ended := RangeScan(call.lo, call.hi, call.script);
      if Keyed(lane) { KeyedNoStraddle(lane, per, runs, Row(call.lo, 0)); }
      ScanRun(lane, old(Snap()), call, out, ended, Snap());
    }

    method RunCall(call: Call)
      requires Valid() && busy && live
      modifies this
      ensures Valid() && Frozen() && CallRun(lane, old(Snap()), call, Snap())
      decreases call, 1
    {
      if call.DoRange? { RunRange(call); } else { RunPlain(call); }
    }

    method RunPlain(call: Call)
      requires Valid() && busy && live && !call.DoRange?
      modifies this
      ensures Valid() && Frozen() && CallRun(lane, old(Snap()), call, Snap())
    {
      if call.DoPut? || call.DoCommit? || call.DoDrop? || call.DoClose? {
        RunBarred(call);
      } else if call.DoView? {
        RunMinting(call);
      } else {
        RunReading(call);
      }
    }

    method RunMinting(call: Call)
      requires Valid() && call.DoView?
      modifies this`view, this`nview, this`attached, this`made
      ensures Valid() && Frozen() && CallRun(lane, old(Snap()), call, Snap())
    {
      var _, _ := RunView(call.i);
    }
  }

  lemma CallsOn(l: Lane, s: Snapshot, turn: Turn, j: nat, m: Snapshot, s': Snapshot)
    requires j < |turn.calls| && CallsRun(l, s, turn, j, m) && CallRun(l, m, turn.calls[j], s')
    ensures CallsRun(l, s, turn, j + 1, s')
  {
  }

  lemma TurnsOn(l: Lane, s: Snapshot, script: Script, k: nat, m: Snapshot, s': Snapshot)
    requires TurnsRun(l, s, script, k, m) && TurnRun(l, m, script, k, s')
    ensures TurnsRun(l, s, script, k + 1, s')
  {
  }

  lemma ScanRun(l: Lane, s: Snapshot, call: Call, rows: seq<Row>, ended: Answer, s': Snapshot)
    requires call.DoRange? && ScanEnds(l, s.log, call.lo, call.hi, call.script, rows, ended)
    requires TurnsRun(l, s, call.script, |rows|, s')
    ensures CallRun(l, s, call, s')
  {
  }

  /** The row pulled from what is left, if there is any, and what the sources then hold. */
  ghost predicate Ahead(l: Lane, left: seq<Row>, next: seq<Row>, row: Option<Row>) {
    if row.None? then left == [] else LeastLast(l, left, row.value) && next == Filter(l, left, row.value, true)
  }

  /**
    A scan's loop: what is out, what is left, the next row unless it is ended, and what the turns did to the
    cursor.
  */
  ghost predicate Midway(l: Lane, log: seq<Row>, script: Script, out: seq<Row>, left: seq<Row>, ended: Answer,
                         next: seq<Row>, row: Option<Row>, start: Snapshot, now: Snapshot)
  {
    && Drained(l, log, out, left) && Stops(script, |out|, ended) && TurnsRun(l, start, script, |out|, now)
    && if ended == More then Ahead(l, left, next, row) else out != []
  }

  /** One turn of it: the row is out, and the callback has been asked. */
  lemma MidwayOn(l: Lane, log: seq<Row>, script: Script, out: seq<Row>, left: seq<Row>, next: seq<Row>, r: Row,
                 ended: Answer, after: seq<Row>, row: Option<Row>, start: Snapshot, was: Snapshot, now: Snapshot)
    requires Midway(l, log, script, out, left, More, next, Some(r), start, was)
    requires ended == AnswerAt(script, |out|) && (ended == More ==> Ahead(l, next, after, row))
    requires TurnRun(l, was, script, |out|, now)
    ensures Midway(l, log, script, out + [r], next, ended, after, row, start, now) && |next| < |left|
  {
    var n := |out| + 1;
    assert |out + [r]| == n;
    TakeAhead(l, log, out, left, next, r);
    TurnOver(l, script, |out|, ended, start, was, now);
  }

  lemma TurnOver(l: Lane, script: Script, n: nat, ended: Answer, start: Snapshot, was: Snapshot, now: Snapshot)
    requires Stops(script, n, More) && ended == AnswerAt(script, n)
    requires TurnsRun(l, start, script, n, was) && TurnRun(l, was, script, n, now)
    ensures Stops(script, n + 1, ended) && TurnsRun(l, start, script, n + 1, now)
  {
    StopsOn(script, n, ended);
    TurnsOn(l, start, script, n, was, now);
  }

  lemma TakeAhead(l: Lane, log: seq<Row>, out: seq<Row>, left: seq<Row>, next: seq<Row>, r: Row)
    requires Drained(l, log, out, left) && Ahead(l, left, next, Some(r))
    ensures Drained(l, log, out + [r], next) && |next| < |left|
  {
    Take(l, log, out, left, r);
  }

  /** Part of the log is out, in order; the rest is left, all of it greater. */
  ghost predicate Drained(l: Lane, log: seq<Row>, out: seq<Row>, left: seq<Row>) {
    && Sorted(l, out)
    && (forall r :: Last(l, log, r) <==> r in out || Last(l, left, r))
    && (forall x, r :: x in out && Last(l, left, r) ==> Z(l, x, r))
  }

  lemma DrainedEmission(l: Lane, all: seq<Row>, lo: Row, hi: Row, log: seq<Row>, out: seq<Row>, left: seq<Row>,
                        whole: bool)
    requires Drained(l, log, out, left) && (whole ==> left == [])
    requires !whole ==> out != [] || left == []
    ensures log == Below(l, Filter(l, all, lo, false), hi) ==> Emission(l, all, lo, hi, out, whole)
  {
    if log == Below(l, Filter(l, all, lo, false), hi) {
      forall r ensures Last(l, log, r) <==> Last(l, all, r) && InRange(l, lo, hi, r) {
        FilterLast(l, all, lo, false, r);
        BelowLast(l, Filter(l, all, lo, false), hi, r);
      }
      if out != [] {
        forall r | r in out ensures !Z(l, out[|out| - 1], r) {
          var i :| 0 <= i < |out| && out[i] == r;
          assert i < |out| - 1 ==> Z(l, out[i], out[|out| - 1]);
        }
        assert out[|out| - 1] in out;
      }
    }
  }

  ghost predicate HasKey(rows: seq<Row>, k: nat) {
    exists i :: 0 <= i < |rows| && rows[i].key == k
  }

  /** A hit is a row of the youngest source that has the key; a miss means that none has it. */
  ghost predicate GetOk(srcs: seq<seq<Row>>, k: nat, found: Option<Row>) {
    match found
    case None => forall i :: 0 <= i < |srcs| ==> !HasKey(srcs[i], k)
    case Some(r) =>
      r.key == k && exists j :: 0 <= j < |srcs| && r in srcs[j] && forall i :: j < i < |srcs| ==> !HasKey(srcs[i], k)
  }

  /** The indexed lookup hits exactly when the run has the key. */
  lemma FindsKey(l: Lane, rows: seq<Row>, toc: seq<Row>, per: nat, k: nat)
    requires Sorted(l, rows) && TocOk(rows, toc, per) && Sorted(l, toc)
    ensures var f := PagedFind(l, rows, toc, per, Row(k, 0));
            (f < |rows| <==> HasKey(rows, k)) && (f < |rows| ==> rows[f].key == k)
  {
    LookupExact(l, rows, toc, per, Row(k, 0));
    var g := FindGE(l, rows, Row(k, 0));
    if HasKey(rows, k) {
      var i :| 0 <= i < |rows| && rows[i].key == k;
      assert g <= i && (g < i ==> Z(l, rows[g], rows[i]));
    }
  }

  /** No run's page index starts the range late; always so on the keyed lanes. */
  ghost predicate NoStraddle(l: Lane, per: nat, runs: seq<Run>, lo: Row) {
    forall i :: 0 <= i < |runs| ==> Sorted(l, runs[i].rows) ==> !Straddles(l, runs[i].rows, runs[i].toc, per, lo)
  }

  /** On the keyed lanes no scan has a run that straddles. */
  lemma KeyedNoStraddle(l: Lane, per: nat, runs: seq<Run>, lo: Row)
    requires Keyed(l) && RunsOk(l, per, runs)
    ensures NoStraddle(l, per, runs, lo)
  {
    forall i | 0 <= i < |runs| ensures !Straddles(l, runs[i].rows, runs[i].toc, per, lo) {
      assert RunOk(l, per, runs[i]);
      KeyedNeverStraddles(l, runs[i].rows, runs[i].toc, per, lo);
    }
  }

  /** The page index of source j; the memtable has none. */
  function TocOf(runs: seq<Run>, j: nat): seq<Row> { if j < |runs| then runs[j].toc else [] }

  ghost predicate SourceOk(per: nat, runs: seq<Run>, s: seq<Row>, i: nat) {
    IsSource(runs, s, TocOf(runs, i), i) && TocOk(s, TocOf(runs, i), per)
  }

  lemma SourcesOk(l: Lane, per: nat, runs: seq<Run>, past: seq<Row>, data: seq<Row>)
    requires StoreOk(l, per, runs, past, data)
    ensures forall i: nat :: i < |SourcesOf(runs, past, data)| ==>
            SourceOk(per, runs, SourcesOf(runs, past, data)[i], i)
  {
    forall i: nat | i < |runs| ensures SourceOk(per, runs, SourcesOf(runs, past, data)[i], i) {
      assert RunOk(l, per, runs[i]);
    }
  }

  /** The lower bound of every source, narrowed by its page index, and the upper. */
  method EnterAll(l: Lane, per: nat, runs: seq<Run>, srcs: seq<seq<Row>>, lo: Row, hi: Row) returns (ents: seq<Slice>)
    requires lo.val == 0 && AllSorted(l, srcs) && forall i: nat :: i < |srcs| ==> SourceOk(per, runs, srcs[i], i)
    ensures Entered(l, per, runs, srcs, |srcs|, ents, lo, hi)
  {
    ents := [];
    for i := 0 to |srcs|
      invariant Entered(l, per, runs, srcs, i, ents, lo, hi)
    {
      TocSorted(l, srcs[i], TocOf(runs, i), per);
      EnteredOn(l, per, runs, srcs, i, TocOf(runs, i), ents, lo, hi);
      ents := ents + [Trim(l, srcs[i], i, RangeStart(l, srcs[i], TocOf(runs, i), per, lo), lo, hi)];
    }
  }

  /** Source i is a run, with its page index, or part of the memtable, with none. */
  ghost predicate IsSource(runs: seq<Run>, s: seq<Row>, toc: seq<Row>, i: nat) {
    if i < |runs| then s == runs[i].rows && toc == runs[i].toc else toc == []
  }

  lemma NoLateStart(l: Lane, per: nat, runs: seq<Run>, s: seq<Row>, toc: seq<Row>, i: nat, lo: Row)
    requires IsSource(runs, s, toc, i) && NoStraddle(l, per, runs, lo) && Sorted(l, s)
    ensures !Straddles(l, s, toc, per, lo)
  {
  }

  /** A row of a straddling run before the place the range starts at in it. */
  ghost predicate Dropped(l: Lane, per: nat, runs: seq<Run>, lo: Row, r: Row) {
    exists i :: 0 <= i < |runs| && DroppedIn(l, per, runs[i], lo, r)
  }

  ghost predicate DroppedIn(l: Lane, per: nat, run: Run, lo: Row, r: Row) {
    && Sorted(l, run.rows) && Sorted(l, run.toc) && Straddles(l, run.rows, run.toc, per, lo)
    && RangeStart(l, run.rows, run.toc, per, lo) <= |run.rows| &&
       r in run.rows[..RangeStart(l, run.rows, run.toc, per, lo)]
  }

  /** `part` has rows of the log in range, and all of them but those dropped. */
  ghost predicate Trimmed(l: Lane, per: nat, runs: seq<Run>, log: seq<Row>, part: seq<Row>, lo: Row, hi: Row) {
    && (forall r <- part :: r in log && InRange(l, lo, hi, r))
    && forall r <- log :: InRange(l, lo, hi, r) ==> r in part || Dropped(l, per, runs, lo, r)
  }

  /**
    What a scan emits on wh128, straddling or not: rows of the log in range, ascending; and of the others in
    range, but for those past a stop, each was dropped by a run that straddles.
  */
  ghost predicate LateEmission(l: Lane, per: nat, runs: seq<Run>, log: seq<Row>, lo: Row, hi: Row, out: seq<Row>,
                               whole: bool) {
    && Sorted(l, out)
    && (forall r <- out :: Last(l, log, r) && InRange(l, lo, hi, r))
    && forall r :: Last(l, log, r) && InRange(l, lo, hi, r) && (whole || (out != [] && !Z(l, out[|out| - 1], r))) ==>
         r in out || Dropped(l, per, runs, lo, r)
  }

  /** The rows of one source from `start` on that lie in the range (HITSeekRange). */
  function Trim(l: Lane, s: seq<Row>, src: nat, start: nat, lo: Row, hi: Row): (e: Slice)
    requires Sorted(l, s) && start <= |s|
    ensures e.src == src && e.pos <= e.end <= |s|
  {
    var first, last := FindGE(l, s, lo), FindGE(l, s, hi);
    var pos := if first < start then start else first;
    Slice(src, pos, if last < pos then pos else last)
  }

  lemma TrimRange(l: Lane, s: seq<Row>, src: nat, start: nat, lo: Row, hi: Row, j: nat)
    requires Sorted(l, s) && start <= |s| && j < |s|
    ensures var e := Trim(l, s, src, start, lo, hi); e.pos <= j < e.end <==> start <= j && InRange(l, lo, hi, s[j])
  {
  }

  /** What a source's slice leaves out of the range is dropped by a run that straddles. */
  lemma TrimDropped(l: Lane, per: nat, runs: seq<Run>, s: seq<Row>, toc: seq<Row>, i: nat, lo: Row, hi: Row)
    requires IsSource(runs, s, toc, i) && Sorted(l, s) && TocOk(s, toc, per) && Sorted(l, toc) && lo.val == 0
    requires RangeStart(l, s, toc, per, lo) <= |s|
    ensures var e := Trim(l, s, i, RangeStart(l, s, toc, per, lo), lo, hi);
            Trimmed(l, per, runs, s, s[e.pos..e.end], lo, hi)
  {
    var start := RangeStart(l, s, toc, per, lo);
    var e := Trim(l, s, i, start, lo, hi);
    forall r | r in s[e.pos..e.end] ensures r in s && InRange(l, lo, hi, r) {
      var j :| 0 <= j < e.end - e.pos && s[e.pos..e.end][j] == r;
      TrimRange(l, s, i, start, lo, hi, e.pos + j);
    }
    forall r | r in s && InRange(l, lo, hi, r) ensures r in s[e.pos..e.end] || Dropped(l, per, runs, lo, r) {
      var j :| 0 <= j < |s| && s[j] == r;
      TrimRow(l, per, runs, s, toc, i, lo, hi, j);
    }
  }

  lemma TrimRow(l: Lane, per: nat, runs: seq<Run>, s: seq<Row>, toc: seq<Row>, i: nat, lo: Row, hi: Row, j: nat)
    requires IsSource(runs, s, toc, i) && Sorted(l, s) && TocOk(s, toc, per) && Sorted(l, toc) && lo.val == 0
    requires j < |s| && InRange(l, lo, hi, s[j]) && RangeStart(l, s, toc, per, lo) <= |s|
    ensures var e := Trim(l, s, i, RangeStart(l, s, toc, per, lo), lo, hi);
            s[j] in s[e.pos..e.end] || Dropped(l, per, runs, lo, s[j])
  {
    var start := RangeStart(l, s, toc, per, lo);
    if j < start {
      DroppedRow(l, per, runs, s, toc, i, lo, j);
    } else {
      var e := Trim(l, s, i, start, lo, hi);
      assert FindGE(l, s, lo) <= j < FindGE(l, s, hi);
      assert s[e.pos..e.end][j - e.pos] == s[j];
    }
  }

  lemma DroppedRow(l: Lane, per: nat, runs: seq<Run>, s: seq<Row>, toc: seq<Row>, i: nat, lo: Row, j: nat)
    requires IsSource(runs, s, toc, i) && Sorted(l, s) && TocOk(s, toc, per) && Sorted(l, toc) && lo.val == 0
    requires j < RangeStart(l, s, toc, per, lo) <= |s| && !Z(l, s[j], lo)
    ensures Dropped(l, per, runs, lo, s[j])
  {
    RangeStartExact(l, s, toc, per, lo);
    assert Straddles(l, s, toc, per, lo);
    assert s[..RangeStart(l, s, toc, per, lo)][j] == s[j];
    assert i < |runs| && DroppedIn(l, per, runs[i], lo, s[j]);
  }

  lemma TrimmedOn(l: Lane, per: nat, runs: seq<Run>, srcs: seq<seq<Row>>, i: nat, ents: seq<Slice>, e: Slice, lo: Row,
                  hi: Row)
    requires i < |srcs| && SlicesOk(srcs, ents) && SliceOk(srcs, e)
    requires Trimmed(l, per, runs, Flat(srcs[..i]), Content(srcs, ents), lo, hi)
    requires Trimmed(l, per, runs, srcs[i], RowsOf(srcs, e), lo, hi)
    ensures SlicesOk(srcs, ents + [e])
    ensures Trimmed(l, per, runs, Flat(srcs[..i + 1]), Content(srcs, ents + [e]), lo, hi)
  {
    ContentConcat(srcs, ents, [e]);
    ContentOne(srcs, e);
    assert srcs[..i + 1] == srcs[..i] + [srcs[i]];
    FlatConcat(srcs[..i], [srcs[i]]);
    FlatOne(srcs[i]);
  }

  /** The entries of the first i sources. */
  ghost predicate Entered(l: Lane, per: nat, runs: seq<Run>, srcs: seq<seq<Row>>, i: nat, ents: seq<Slice>, lo: Row,
                          hi: Row)
    requires i <= |srcs|
  {
    && SlicesOk(srcs, ents)
    && (NoStraddle(l, per, runs, lo) ==> Content(srcs, ents) == Below(l, Filter(l, Flat(srcs[..i]), lo, false), hi))
    && Trimmed(l, per, runs, Flat(srcs[..i]), Content(srcs, ents), lo, hi)
  }

  lemma EnteredAll(l: Lane, per: nat, runs: seq<Run>, srcs: seq<seq<Row>>, log: seq<Row>, ents: seq<Slice>, lo: Row,
                   hi: Row)
    requires Entered(l, per, runs, srcs, |srcs|, ents, lo, hi) && Flat(srcs) == log
    ensures SlicesOk(srcs, ents) && Trimmed(l, per, runs, log, Content(srcs, ents), lo, hi)
    ensures NoStraddle(l, per, runs, lo) ==> Content(srcs, ents) == Below(l, Filter(l, log, lo, false), hi)
  {
    assert srcs[..|srcs|] == srcs;
  }

  lemma EnteredOn(l: Lane, per: nat, runs: seq<Run>, srcs: seq<seq<Row>>, i: nat, toc: seq<Row>, ents: seq<Slice>,
                  lo: Row, hi: Row)
    requires i < |srcs| && Entered(l, per, runs, srcs, i, ents, lo, hi) && lo.val == 0
    requires IsSource(runs, srcs[i], toc, i) && Sorted(l, srcs[i]) && TocOk(srcs[i], toc, per) && Sorted(l, toc)
    ensures RangeStart(l, srcs[i], toc, per, lo) <= |srcs[i]|
    ensures var e := Trim(l, srcs[i], i, RangeStart(l, srcs[i], toc, per, lo), lo, hi);
            Entered(l, per, runs, srcs, i + 1, ents + [e], lo, hi)
  {
    RangeStartExact(l, srcs[i], toc, per, lo);
    var start := RangeStart(l, srcs[i], toc, per, lo);
    var e := Trim(l, srcs[i], i, start, lo, hi);
    TrimDropped(l, per, runs, srcs[i], toc, i, lo, hi);
    TrimmedOn(l, per, runs, srcs, i, ents, e, lo, hi);
    if NoStraddle(l, per, runs, lo) {
      NoLateStart(l, per, runs, srcs[i], toc, i, lo);
      TrimExact(l, srcs[i], i, start, lo, hi);
      RangeCutOne(l, srcs, i, ents, e, lo, hi);
    }
  }

  /** On wh128 a group is one row. */
  lemma LastOnWh128(log: seq<Row>, r: Row)
    ensures Last(Wh128, log, r) <==> r in log
  {
    if r in log { LastOccurrence(log, r); }
  }

  lemma {:induction false} LastOccurrence(log: seq<Row>, r: Row)
    requires r in log
    ensures Last(Wh128, log, r)
    decreases |log|
  {
    var n := |log| - 1;
    if log[n] == r {
      assert Last(Wh128, log, r);
    } else {
      assert log == log[..n] + [log[n]];
      LastOccurrence(log[..n], r);
      HasOne(Wh128, log[n], r);
      LastLeft(Wh128, log[..n], [log[n]], r);
    }
  }

  lemma DrainedLate(l: Lane, per: nat, runs: seq<Run>, all: seq<Row>, lo: Row, hi: Row, log: seq<Row>, out: seq<Row>,
                    left: seq<Row>, whole: bool)
    requires l.Wh128? && Trimmed(l, per, runs, all, log, lo, hi) && Drained(l, log, out, left) && (whole ==> left == [])
    requires !whole ==> out != [] || left == []
    ensures LateEmission(l, per, runs, all, lo, hi, out, whole)
  {
    forall r ensures Last(l, all, r) <==> r in all { LastOnWh128(all, r); }
    forall r ensures Last(l, log, r) <==> r in log { LastOnWh128(log, r); }
    forall r | Last(l, all, r) && InRange(l, lo, hi, r) && (whole || (out != [] && !Z(l, out[|out| - 1], r)))
      ensures r in out || Dropped(l, per, runs, lo, r)
    {
      assert r in log ==> r in out || Last(l, left, r);
      assert out != [] ==> out[|out| - 1] in out;
    }
  }

  lemma TrimExact(l: Lane, s: seq<Row>, src: nat, start: nat, lo: Row, hi: Row)
    requires Sorted(l, s) && start <= |s| && forall i :: 0 <= i < start ==> Z(l, s[i], lo)
    ensures var e := Trim(l, s, src, start, lo, hi); s[e.pos..e.end] == Below(l, Filter(l, s, lo, false), hi)
  {
    var first := FindGE(l, s, lo);
    FilterSuffix(l, s, lo, false, first);
    assert first == |s| || !Z(l, s[first], lo);
    BelowOfSuffix(l, s, first, hi);
  }

  lemma BelowOfSuffix(l: Lane, s: seq<Row>, first: nat, hi: Row)
    requires Sorted(l, s) && first <= |s|
    ensures Below(l, s[first..], hi) == if FindGE(l, s, hi) < first then [] else s[first..FindGE(l, s, hi)]
  {
    var last := FindGE(l, s, hi);
    var n := if last < first then 0 else last - first;
    var rest := s[first..];
    assert forall i :: 0 <= i < |rest| ==> rest[i] == s[first + i];
    BelowPrefix(l, rest, hi, n);
  }

  lemma RangeCutOne(l: Lane, srcs: seq<seq<Row>>, i: nat, ents: seq<Slice>, e: Slice, lo: Row, hi: Row)
    requires i < |srcs| && SlicesOk(srcs, ents) && SliceOk(srcs, e)
    requires RowsOf(srcs, e) == Below(l, Filter(l, srcs[i], lo, false), hi)
    requires Content(srcs, ents) == Below(l, Filter(l, Flat(srcs[..i]), lo, false), hi)
    ensures Content(srcs, ents + [e]) == Below(l, Filter(l, Flat(srcs[..i + 1]), lo, false), hi)
  {
    ContentConcat(srcs, ents, [e]);
    ContentOne(srcs, e);
    assert srcs[..i + 1] == srcs[..i] + [srcs[i]];
    FlatConcat(srcs[..i], [srcs[i]]);
    FlatOne(srcs[i]);
    FilterConcat(l, Flat(srcs[..i]), srcs[i], lo, false);
    BelowConcat(l, Filter(l, Flat(srcs[..i]), lo, false), Filter(l, srcs[i], lo, false), hi);
  }

  /** Past the needle's position, and past its whole group when it was pulled already. */
  method FirstBeyond(l: Lane, s: seq<Row>, key: Row, pulled: bool) returns (pos: nat)
    requires Sorted(l, s)
    ensures pos <= |s|
    ensures forall j :: 0 <= j < pos ==> !Beyond(l, key, pulled, s[j])
    ensures forall j :: pos <= j < |s| ==> Beyond(l, key, pulled, s[j])
  {
    pos := FindGE(l, s, key);
    while pulled && pos < |s| && !Z(l, key, s[pos])
      invariant pos <= |s|
      invariant forall j :: 0 <= j < pos ==> !Beyond(l, key, pulled, s[j])
      invariant forall j :: pos <= j < |s| ==> !Z(l, s[j], key)
    {
      pos := pos + 1;
    }
    if pulled && pos < |s| {
      forall j | pos <= j < |s| ensures Z(l, key, s[j]) { StrictWeak(l, key, s[pos], s[j]); }
    }
  }

  /** The m youngest runs are one, with their newest rows in order; the older ones are as they were. */
  ghost predicate Compacted(l: Lane, before: seq<Run>, after: seq<Run>, m: nat) {
    if m < 2 || m > |before| then after == before
    else
      var older := |before| - m;
      && |after| == older + 1 && after[..older] == before[..older]
      && Digest(l, after[older].rows, Flat(RunRows(before[older..])))
  }

  /**
    What the plan says has been done: the memtable sorted into one, or sealed as a run, and the youngest runs
    merged.
  */
  ghost predicate Carried(plan: Plan, before: seq<Run>, after: seq<Run>, past: seq<Row>, data: seq<Row>) {
    var n := |before| + if plan.seal then 1 else 0;
    && (plan.collapse || plan.seal ==> data == []) && (plan.seal ==> past == [])
    && |after| == (if plan.compact < 2 || plan.compact > n then n else n - plan.compact + 1)
    && (!plan.seal && (plan.compact < 2 || plan.compact > n) ==> after == before)
  }

  lemma CarriedOn(l: Lane, plan: Plan, before: seq<Run>, settled: seq<Run>, after: seq<Run>, past: seq<Row>,
                  data: seq<Row>)
    requires Compacted(l, settled, after, plan.compact)
    requires |settled| == |before| + (if plan.seal then 1 else 0) && (!plan.seal ==> settled == before)
    requires (plan.collapse || plan.seal ==> data == []) && (plan.seal ==> past == [])
    ensures Carried(plan, before, after, past, data)
  {
  }

  lemma SealLog(runs: seq<Run>, run: Run)
    ensures Flat(RunRows(runs + [run])) == Flat(RunRows(runs)) + run.rows
  {
    assert RunRows(runs + [run]) == RunRows(runs) + [run.rows];
    FlatConcat(RunRows(runs), [run.rows]);
    FlatOne(run.rows);
  }

  lemma CompactLog(l: Lane, older: seq<Run>, younger: seq<Run>, run: Run)
    requires Digest(l, run.rows, Flat(RunRows(younger)))
    ensures SameLast(l, Flat(RunRows(older + [run])), Flat(RunRows(older + younger)))
  {
    SealLog(older, run);
    assert RunRows(older + younger) == RunRows(older) + RunRows(younger);
    FlatConcat(RunRows(older), RunRows(younger));
    Congruence(l, Flat(RunRows(older)), Flat(RunRows(older)), run.rows, Flat(RunRows(younger)));
  }

  lemma MemLog(l: Lane, runs: seq<Run>, past: seq<Row>, data: seq<Row>, past': seq<Row>, data': seq<Row>)
    requires SameLast(l, past' + data', past + data)
    ensures SameLast(l, LogOf(runs, past', data'), LogOf(runs, past, data))
  {
    Congruence(l, Flat(RunRows(runs)), Flat(RunRows(runs)), past' + data', past + data);
    assert LogOf(runs, past', data') == Flat(RunRows(runs)) + (past' + data');
    assert LogOf(runs, past, data) == Flat(RunRows(runs)) + (past + data);
  }

  lemma RunsLog(l: Lane, runs: seq<Run>, runs': seq<Run>, past: seq<Row>, data: seq<Row>)
    requires SameLast(l, Flat(RunRows(runs')), Flat(RunRows(runs)))
    ensures SameLast(l, LogOf(runs', past, data), LogOf(runs, past, data))
  {
    Congruence(l, Flat(RunRows(runs')), Flat(RunRows(runs)), past, past);
    Congruence(l, Flat(RunRows(runs')) + past, Flat(RunRows(runs)) + past, data, data);
  }

  lemma PutLog(runs: seq<Run>, past: seq<Row>, data: seq<Row>, rows: seq<Row>)
    ensures LogOf(runs, past, data + rows) == LogOf(runs, past, data) + rows
  {
  }

  lemma CutOne(l: Lane, srcs: seq<seq<Row>>, i: nat, key: Row, pulled: bool, pos: nat, ents: seq<Slice>)
    requires i < |srcs| && Sorted(l, srcs[i]) && pos <= |srcs[i]| && SlicesOk(srcs, ents)
    requires forall j :: 0 <= j < pos ==> !Beyond(l, key, pulled, srcs[i][j])
    requires forall j :: pos <= j < |srcs[i]| ==> Beyond(l, key, pulled, srcs[i][j])
    requires Content(srcs, ents) == Filter(l, Flat(srcs[..i]), key, pulled)
    ensures var more := if pos < |srcs[i]| then ents + [Slice(i, pos, |srcs[i]|)] else ents;
            SlicesOk(srcs, more) && Content(srcs, more) == Filter(l, Flat(srcs[..i + 1]), key, pulled)
  {
    var s := srcs[i];
    FilterSuffix(l, s, key, pulled, pos);
    assert srcs[..i + 1] == srcs[..i] + [s];
    FlatConcat(srcs[..i], [s]); FlatOne(s);
    FilterConcat(l, Flat(srcs[..i]), s, key, pulled);
    if pos < |s| {
      ContentConcat(srcs, ents, [Slice(i, pos, |s|)]);
      ContentOne(srcs, Slice(i, pos, |s|));
    }
  }

  /** What a pull from the rows past the bound means for the whole log. */
  lemma NextStep(l: Lane, srcs: seq<seq<Row>>, rest: seq<Slice>, log: seq<Row>, key: Row, pulled: bool,
                 row: Option<Row>)
    requires row.None? ==> Filter(l, log, key, pulled) == []
    requires row.Some? ==> LeastLast(l, Filter(l, log, key, pulled), row.value)
    requires row.Some? ==>
               SlicesOk(srcs, rest) && Content(srcs, rest) == Filter(l, Filter(l, log, key, pulled), row.value, true)
    ensures row.None? ==> NoneBeyond(l, log, key, pulled)
    ensures row.Some? ==> LeastBeyond(l, log, key, pulled, row.value) && CutOk(l, srcs, rest, log, row.value, true)
  {
    forall r ensures Last(l, Filter(l, log, key, pulled), r) <==> Last(l, log, r) && Beyond(l, key, pulled, r) {
      FilterLast(l, log, key, pulled, r);
    }
    if row.Some? { FilterTwice(l, log, key, pulled, row.value); }
  }

  lemma {:induction false} FilterTwice(l: Lane, s: seq<Row>, key: Row, pulled: bool, row: Row)
    requires Beyond(l, key, pulled, row)
    ensures Filter(l, Filter(l, s, key, pulled), row, true) == Filter(l, s, row, true)
  {
    if s != [] {
      FilterTwice(l, s[1..], key, pulled, row);
      StrictWeak(l, key, row, s[0]);
      var head := if Beyond(l, key, pulled, s[0]) then [s[0]] else [];
      FilterConcat(l, head, Filter(l, s[1..], key, pulled), row, true);
    }
  }
}
