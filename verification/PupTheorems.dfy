/**
  What the leaves of an index add up to over whole histories: a history is a sequence of snapshots, each
  step being what some leaf of PupHandle.Handle guarantees.
 */
module PupTheorems {
  import opened Options
  import opened PupOrder
  import opened PupMerge
  import opened PupHandle

  ghost predicate History(l: Lane, snaps: seq<Snapshot>, events: seq<Event>) {
    |snaps| == |events| + 1 && forall i :: 0 <= i < |events| ==> StepOk(l, snaps[i], events[i], snaps[i + 1])
  }

  /** The rows put, in order. */
  function Puts(events: seq<Event>): seq<Row> {
    if events == [] then []
    else Puts(events[..|events| - 1]) + (if events[|events| - 1].Putting? then [events[|events| - 1].row] else [])
  }

  /** The rows the cursor returned, in order. */
  function Pulls(events: seq<Event>): seq<Row> {
    if events == [] then []
    else
      var last := events[|events| - 1];
      Pulls(events[..|events| - 1]) + (if last.Pulling? && last.found.Some? then [last.found.value] else [])
  }

  // ----- replay

  /** Whatever was synced, sealed and merged in between, the index stands for the log of its puts. */
  lemma {:induction false} Replay(l: Lane, snaps: seq<Snapshot>, events: seq<Event>)
    requires History(l, snaps, events)
    requires forall i :: 0 <= i < |events| ==> !events[i].Dropping?
    ensures SameLast(l, snaps[|events|].log, snaps[0].log + Puts(events))
    decreases |events|
  {
    if events == [] {
      assert snaps[0].log + Puts(events) == snaps[0].log;
    } else {
      var n := |events| - 1;
      Replay(l, snaps[..|events|], events[..n]);
      var put := if events[n].Putting? then [events[n].row] else [];
      assert StepOk(l, snaps[n], events[n], snaps[n + 1]);
      Congruence(l, snaps[n].log, snaps[0].log + Puts(events[..n]), put, put);
      assert snaps[n].log + [] == snaps[n].log;
      assert snaps[0].log + Puts(events[..n]) + put == snaps[0].log + Puts(events);
    }
  }

  /** The last row of the log with the key. */
  function LastPut(log: seq<Row>, k: nat): Option<Row> {
    if log == [] then None
    else if log[|log| - 1].key == k then Some(log[|log| - 1]) else LastPut(log[..|log| - 1], k)
  }

  lemma {:induction false} LastPutLast(l: Lane, log: seq<Row>, k: nat)
    requires Keyed(l)
    ensures LastPut(log, k).Some? ==> LastPut(log, k).value.key == k && Last(l, log, LastPut(log, k).value)
    ensures LastPut(log, k).None? ==> !HasKey(log, k)
    decreases |log|
  {
    if log != [] {
      var n := |log| - 1;
      LastPutLast(l, log[..n], k);
      assert log == log[..n] + [log[n]];
      if log[n].key == k {
        assert log[n] == LastPut(log, k).value;
      } else if LastPut(log, k).Some? {
        LastConcat(l, log[..n], [log[n]], LastPut(log, k).value);
        HasOne(l, log[n], LastPut(log, k).value);
      }
    }
  }

  /** On a keyed lane the youngest source with the key holds the last row of its group. */
  lemma YoungestIsLast(l: Lane, srcs: seq<seq<Row>>, k: nat, j: nat, r: Row)
    requires Keyed(l) && AllSorted(l, srcs) && j < |srcs| && r in srcs[j] && r.key == k
    requires forall i :: j < i < |srcs| ==> !HasKey(srcs[i], k)
    ensures Last(l, Flat(srcs), r)
  {
    FlatAt(srcs, j);
    SortedLast(l, srcs[j], r);
    LastRight(l, Flat(srcs[..j]), srcs[j], r);
    NoKeyNoGroup(l, srcs[j + 1..], k, r);
    LastLeft(l, Flat(srcs[..j]) + srcs[j], Flat(srcs[j + 1..]), r);
  }

  lemma FlatAt(srcs: seq<seq<Row>>, j: nat)
    requires j < |srcs|
    ensures Flat(srcs) == Flat(srcs[..j]) + srcs[j] + Flat(srcs[j + 1..])
  {
    assert srcs == srcs[..j] + srcs[j..];
    FlatConcat(srcs[..j], srcs[j..]);
    assert srcs[j..][0] == srcs[j] && srcs[j..][1..] == srcs[j + 1..];
  }

  lemma {:induction false} NoKeyNoGroup(l: Lane, srcs: seq<seq<Row>>, k: nat, r: Row)
    requires r.key == k && forall i :: 0 <= i < |srcs| ==> !HasKey(srcs[i], k)
    ensures !Has(l, Flat(srcs), r)
  {
    if srcs != [] {
      NoKeyNoGroup(l, srcs[1..], k, r);
      HasConcat(l, srcs[0], Flat(srcs[1..]), r);
      assert forall i :: 0 <= i < |srcs[0]| ==> srcs[0][i].key != k;
    }
  }

  /** On the keyed lanes a lookup answers with the last put of the key, or with nothing if there was none. */
  lemma GetIsLastPut(l: Lane, srcs: seq<seq<Row>>, log: seq<Row>, k: nat, found: Option<Row>)
    requires Keyed(l) && AllSorted(l, srcs) && SameLast(l, Flat(srcs), log) && GetOk(srcs, k, found)
    ensures found == LastPut(log, k)
  {
    LastPutLast(l, log, k);
    if found.Some? {
      var j :| 0 <= j < |srcs| && found.value in srcs[j] && forall i :: j < i < |srcs| ==> !HasKey(srcs[i], k);
      YoungestIsLast(l, srcs, k, j, found.value);
      LastHas(l, log, found.value);
      if LastPut(log, k).Some? { LastUnique(l, log, found.value, LastPut(log, k).value); }
    } else if LastPut(log, k).Some? {
      var r := LastPut(log, k).value;
      NoKeyNoGroup(l, srcs, k, r);
      LastHas(l, Flat(srcs), r);
    }
  }

  /** Replay, for a lookup at the end of any history without a drop. */
  lemma GetAfterHistory(l: Lane, snaps: seq<Snapshot>, events: seq<Event>, srcs: seq<seq<Row>>, k: nat,
                        found: Option<Row>)
    requires Keyed(l) && History(l, snaps, events) && forall i :: 0 <= i < |events| ==> !events[i].Dropping?
    requires AllSorted(l, srcs) && Flat(srcs) == snaps[|events|].log && GetOk(srcs, k, found)
    ensures found == LastPut(snaps[0].log + Puts(events), k)
  {
    Replay(l, snaps, events);
    GetIsLastPut(l, srcs, snaps[0].log + Puts(events), k, found);
  }

  // ----- the cursor

  /** From a seek on: only puts, pulls and leaves that keep rows and cursor. */
  ghost predicate CursorRun(l: Lane, snaps: seq<Snapshot>, events: seq<Event>, needle: Row) {
    && History(l, snaps, events)
    && snaps[0].armed && snaps[0].key == needle && !snaps[0].pulled
    && forall i :: 0 <= i < |events| ==> events[i].Putting? || events[i].Keeping? || events[i].Pulling?
  }

  /** Where the cursor stands after some pulls. */
  ghost predicate Stands(l: Lane, start: seq<Row>, needle: Row, s: Snapshot, rows: seq<Row>) {
    && Sorted(l, rows)
    && (forall r :: r in rows ==> !Z(l, r, needle))
    && (if rows == [] then s.key == needle && !s.pulled else s.key == rows[|rows| - 1] && s.pulled)
    && (forall r :: Has(l, start, r) ==> Has(l, s.log, r))
    && (forall r :: Has(l, start, r) && !Z(l, r, needle) ==>
          Has(l, rows, r) || (s.armed ==> Beyond(l, s.key, s.pulled, r)))
    && (!s.armed ==> forall r :: Has(l, start, r) && !Z(l, r, needle) ==> Has(l, rows, r))
  }

  lemma PullStands(l: Lane, start: seq<Row>, needle: Row, s: Snapshot, s': Snapshot, rows: seq<Row>, row: Row)
    requires Stands(l, start, needle, s, rows) && PulledOk(l, s, Some(row), s')
    ensures Stands(l, start, needle, s', rows + [row])
  {
    var rows' := rows + [row];
    forall i | 0 <= i < |rows| ensures Z(l, rows[i], row) {
      assert i < |rows| - 1 ==> Z(l, rows[i], rows[|rows| - 1]);
      StrictWeak(l, rows[i], s.key, row);
    }
    forall r | Has(l, start, r) && !Z(l, r, needle) ensures Has(l, rows', r) || Z(l, row, r) {
      HasConcat(l, rows, [row], r);
      HasOne(l, row, r);
      if !Has(l, rows, r) {
        var last := HasLast(l, s.log, r);
        BeyondGroup(l, s.key, s.pulled, r, last);
        StrictWeak(l, row, last, r);
      }
    }
    assert rows' != [] && rows'[|rows'| - 1] == row;
    forall r | r in rows' ensures !Z(l, r, needle) {
      if r !in rows { assert r == row; StrictWeak(l, row, needle, s.key); FirstPull(l, needle, s, rows, row); }
    }
  }

  lemma FirstPull(l: Lane, needle: Row, s: Snapshot, rows: seq<Row>, row: Row)
    requires if rows == [] then s.key == needle && !s.pulled else s.key == rows[|rows| - 1] && s.pulled
    requires forall r :: r in rows ==> !Z(l, r, needle)
    requires Beyond(l, s.key, s.pulled, row)
    ensures !Z(l, row, needle)
  {
    if rows != [] {
      assert rows[|rows| - 1] in rows;
      StrictWeak(l, s.key, row, needle);
    }
  }

  lemma BeyondGroup(l: Lane, key: Row, pulled: bool, a: Row, b: Row)
    requires Equiv(l, a, b)
    ensures Beyond(l, key, pulled, a) <==> Beyond(l, key, pulled, b)
  {
  }

  lemma ExhaustStands(l: Lane, start: seq<Row>, needle: Row, s: Snapshot, s': Snapshot, rows: seq<Row>)
    requires Stands(l, start, needle, s, rows) && PulledOk(l, s, None, s')
    ensures Stands(l, start, needle, s', rows)
  {
    if s.armed {
      forall r | Has(l, start, r) && !Z(l, r, needle) ensures Has(l, rows, r) {
        var last := HasLast(l, s.log, r);
        BeyondGroup(l, s.key, s.pulled, r, last);
      }
    }
  }

  lemma KeepStands(l: Lane, start: seq<Row>, needle: Row, s: Snapshot, s': Snapshot, rows: seq<Row>, more: seq<Row>)
    requires Stands(l, start, needle, s, rows) && KeptCursor(s, s') && SameLast(l, s'.log, s.log + more)
    ensures Stands(l, start, needle, s', rows)
  {
    forall r | Has(l, start, r) ensures Has(l, s'.log, r) {
      HasConcat(l, s.log, more, r);
      SameHas(l, s.log + more, s'.log, r);
    }
  }

  lemma {:induction false} CursorStands(l: Lane, snaps: seq<Snapshot>, events: seq<Event>, needle: Row)
    requires CursorRun(l, snaps, events, needle)
    ensures Stands(l, snaps[0].log, needle, snaps[|events|], Pulls(events))
    decreases |events|
  {
    if events != [] {
      var n := |events| - 1;
      CursorStands(l, snaps[..|events|], events[..n], needle);
      assert StepOk(l, snaps[n], events[n], snaps[n + 1]);
      var rows := Pulls(events[..n]);
      match events[n] {
        case Putting(row) => KeepStands(l, snaps[0].log, needle, snaps[n], snaps[n + 1], rows, [row]);
        case Keeping =>
          assert snaps[n].log + [] == snaps[n].log;
          KeepStands(l, snaps[0].log, needle, snaps[n], snaps[n + 1], rows, []);
        case Pulling(Some(row)) => PullStands(l, snaps[0].log, needle, snaps[n], snaps[n + 1], rows, row);
        case Pulling(None) => ExhaustStands(l, snaps[0].log, needle, snaps[n], snaps[n + 1], rows);
      }
      assert rows + [] == rows;
      assert Pulls(events) ==
             rows + (if events[n].Pulling? && events[n].found.Some? then [events[n].found.value] else []);
    }
  }

  /**
    Cursor stability: across any puts and commits the pulled rows strictly increase and never fall below the
    needle; each is the newest of its group when it is pulled.  Of the groups that were there at the seek, at or
    above the needle, none is skipped: each has been returned or lies past the last row pulled; and once the
    cursor reports exhaustion, all have been returned.
   */
  lemma CursorStable(l: Lane, snaps: seq<Snapshot>, events: seq<Event>, needle: Row)
    requires CursorRun(l, snaps, events, needle)
    ensures Sorted(l, Pulls(events)) && forall r :: r in Pulls(events) ==> !Z(l, r, needle)
    ensures forall i :: 0 <= i < |events| && events[i].Pulling? && events[i].found.Some? ==>
              Last(l, snaps[i].log, events[i].found.value)
    ensures !snaps[|events|].armed ==>
              forall r :: Has(l, snaps[0].log, r) && !Z(l, r, needle) ==> Has(l, Pulls(events), r)
    ensures snaps[|events|].armed ==>
              forall r :: Has(l, snaps[0].log, r) && !Z(l, r, needle) ==>
                Has(l, Pulls(events), r) || Beyond(l, snaps[|events|].key, snaps[|events|].pulled, r)
    ensures Pulls(events) != [] ==>
              snaps[|events|].key == Pulls(events)[|Pulls(events)| - 1] && snaps[|events|].pulled
  {
    CursorStands(l, snaps, events, needle);
    forall i | 0 <= i < |events| && events[i].Pulling? && events[i].found.Some?
      ensures Last(l, snaps[i].log, events[i].found.value)
    {
      assert StepOk(l, snaps[i], events[i], snaps[i + 1]);
    }
  }

  /** The cursor disarms only by reporting exhaustion. */
  lemma {:induction false} DisarmedByExhaustion(l: Lane, snaps: seq<Snapshot>, events: seq<Event>, needle: Row)
    requires CursorRun(l, snaps, events, needle) && !snaps[|events|].armed
    ensures exists i :: 0 <= i < |events| && events[i] == Pulling(None) && snaps[i].armed
    decreases |events|
  {
    if events != [] {
      var n := |events| - 1;
      assert StepOk(l, snaps[n], events[n], snaps[n + 1]);
      if !snaps[n].armed {
        DisarmedByExhaustion(l, snaps[..|events|], events[..n], needle);
        var i :| 0 <= i < n && events[..n][i] == Pulling(None) && snaps[..|events|][i].armed;
        assert events[i] == Pulling(None) && snaps[i].armed;
      }
    }
  }

  // ----- scans

  /** A completed scan emits one sequence only: the last rows of the log in range, in order. */
  lemma EmissionUnique(l: Lane, log: seq<Row>, lo: Row, hi: Row, a: seq<Row>, b: seq<Row>)
    requires Emission(l, log, lo, hi, a, true) && Emission(l, log, lo, hi, b, true)
    ensures a == b
  {
    SortedUnique(l, a, b);
  }

  /** A stopped scan emits a prefix of it. */
  lemma EmissionPrefix(l: Lane, log: seq<Row>, lo: Row, hi: Row, part: seq<Row>, whole: seq<Row>)
    requires Emission(l, log, lo, hi, part, false) && Emission(l, log, lo, hi, whole, true) && part != []
    ensures part <= whole
  {
    var last := part[|part| - 1];
    assert last in part && last in whole;
    var n :| 0 <= n < |whole| && whole[n] == last;
    var head := whole[..n + 1];
    forall r ensures r in part <==> r in head {
      if r in whole {
        var i :| 0 <= i < |whole| && whole[i] == r;
        assert i < n ==> Z(l, whole[i], whole[n]);
        assert n < i ==> Z(l, whole[n], whole[i]);
        if i <= n { assert head[i] == r; }
      }
    }
    SortedUnique(l, part, head);
  }

  // ----- views

  /** Every ArrayBuffer that still is attached wraps the mapping of a current run. */
  lemma AttachedIsMapped(runs: seq<Run>, view: map<nat, View>, nview: int, attached: map<nat, nat>, b: nat)
    requires ViewsOk(runs, view, nview, attached) && b in attached
    ensures Mapped(runs, attached[b])
  {
    var i :| i in view && view[i].buf == b;
    assert runs[i].base == attached[b];
  }

  /** A run is mapped at the address. */
  ghost predicate Mapped(runs: seq<Run>, base: nat) {
    exists i :: 0 <= i < |runs| && runs[i].base == base
  }

  // ----- the histories are those of the handle

  /** What a leaf call came to: its outcome, and the row, the rows or the buffer it gave. */
  datatype Result = Result(o: Outcome, row: Option<Row>, rows: seq<Row>, ended: Answer, buf: Option<nat>)

  function Plainly(o: Outcome): Result { Result(o, None, [], More, None) }

  /** The step of a history a call with its result stands for. */
  function EventOf(call: Call, r: Result): Event {
    match call
    case DoPut(row, _) => if r.o == Done then Putting(row) else Keeping
    case DoCommit(_) => Keeping
    case DoDrop(_) => if r.o == Done || r.o == NoRun then Dropping else Keeping
    case DoClose => if r.o == Done then Dropping else Keeping
    case DoView(_) => Keeping
    case DoGet(_) => Keeping
    case DoSeek(k) => if r.o == Done then Seeking(Row(k, 0)) else Keeping
    case DoNext => if r.o == Done then Pulling(r.row) else Keeping
    case DoRange(_, _, script) => if r.o == Done && !Quiet(script) then Scanning else Keeping
  }

  /** What a lookup and a scan answer on a keyed lane, of the log as it is at the call. */
  ghost predicate Answers(l: Lane, log: seq<Row>, call: Call, r: Result) {
    match call
    case DoGet(k) => r.o == Done ==> r.row == LastPut(log, k)
    case DoRange(lo, hi, _) => r.o == Done ==> Emission(l, log, Row(lo, 0), Row(hi, 0), r.rows, r.ended == More)
    case _ => true
  }

  /** An accepted mutation needs a live, writable handle; anything else only a live one. */
  predicate Accepted(live: bool, rw: bool, busy: bool, call: Call, o: Outcome) {
    match call
    case DoPut(_, _) => o == Done <==> live && rw && !busy
    case DoCommit(_) => o == Done <==> live && rw && !busy
    case DoDrop(_) => o == Done || o == NoRun <==> live && rw && !busy
    case DoClose => o == Done <==> live && !busy
    case DoView(_) => o == Done ==> live
    case _ => o == Done <==> live
  }

  /** The call stands for the step EventOf says, answers as it should, and is accepted when it should be. */
  ghost predicate Stepped(l: Lane, rw: bool, busy: bool, live: bool, s: Snapshot, call: Call, r: Result, live': bool,
                          s': Snapshot)
  {
    && StepOk(l, s, EventOf(call, r), s')
    && (Keyed(l) ==> Answers(l, s.log, call, r))
    && (call.DoRange? && r.o == Done ==>
          Stops(call.script, |r.rows|, r.ended) && TurnsRun(l, s, call.script, |r.rows|, s'))
    && Accepted(live, rw, busy, call, r.o)
    && live' == (live && !(call.DoClose? && r.o == Done))
  }

  method StepPut(h: Handle, call: Call) returns (r: Result)
    requires h.Valid() && (call.DoPut? || call.DoCommit?)
    modifies h`runs, h`past, h`data, h`epoch, h`view, h`nview, h`attached
    ensures h.Valid() && h.Lent() && r.buf == None
    ensures Stepped(h.lane, h.rw, h.busy, h.live, old(h.Snap()), call, r, h.live, h.Snap())
  {
    var o;
    match call {
      case DoPut(row, plan) => o := h.Put(row, plan);
      case DoCommit(plan) => o := h.Commit(plan);
    }
    r := Plainly(o);
  }

  method StepDrop(h: Handle, call: Call) returns (r: Result)
    requires h.Valid() && call.DoDrop?
    modifies h`runs, h`epoch, h`view, h`nview, h`attached, h`ents, h`armed
    ensures h.Valid() && h.Lent() && r.buf == None
    ensures Stepped(h.lane, h.rw, h.busy, h.live, old(h.Snap()), call, r, h.live, h.Snap())
  {
    var o := h.Drop(call.which);
    r := Plainly(o);
  }

  method StepClose(h: Handle) returns (r: Result)
    requires h.Valid()
    modifies h`live, h`runs, h`past, h`data, h`epoch, h`view, h`nview, h`attached, h`ents, h`armed
    ensures h.Valid() && h.Lent() && r.buf == None
    ensures Stepped(h.lane, h.rw, h.busy, old(h.live), old(h.Snap()), DoClose, r, h.live, h.Snap())
  {
    var o := h.Close();
    r := Plainly(o);
  }

  method StepSeek(h: Handle, k: nat) returns (r: Result)
    requires h.Valid()
    modifies h`key, h`pulled, h`armed, h`ents, h`cutEpoch
    ensures h.Valid() && r.buf == None
    ensures Stepped(h.lane, h.rw, h.busy, h.live, old(h.Snap()), DoSeek(k), r, h.live, h.Snap())
  {
    var o := h.Seek(Row(k, 0));
    r := Plainly(o);
  }

  method StepNext(h: Handle) returns (r: Result)
    requires h.Valid()
    modifies h`key, h`pulled, h`armed, h`ents, h`cutEpoch
    ensures h.Valid() && r.buf == None
    ensures Stepped(h.lane, h.rw, h.busy, h.live, old(h.Snap()), DoNext, r, h.live, h.Snap())
  {
    var o, row := h.Next();
    r := Plainly(o).(row := row);
  }

  method StepGet(h: Handle, k: nat) returns (r: Result)
    requires h.Valid()
    ensures r.buf == None && Stepped(h.lane, h.rw, h.busy, h.live, h.Snap(), DoGet(k), r, h.live, h.Snap())
  {
    var o, row := h.Get(k);
    if o == Done && Keyed(h.lane) { LookupIsLastPut(h, k, row); }
    Itself(h.lane, h.Log());
    r := Plainly(o).(row := row);
  }

  lemma Itself(l: Lane, log: seq<Row>)
    ensures SameLast(l, log, log)
  {
  }

  lemma LookupIsLastPut(h: Handle, k: nat, found: Option<Row>)
    requires h.Valid() && Keyed(h.lane) && GetOk(h.Sources(), k, found)
    ensures found == LastPut(h.Log(), k)
  {
    SourcesSorted(h.lane, h.per, h.runs, h.past, h.data);
    SourcesFlat(h.runs, h.past, h.data);
    GetIsLastPut(h.lane, h.Sources(), h.Log(), k, found);
  }

  method StepView(h: Handle, i: nat) returns (r: Result)
    requires h.Valid()
    modifies h`view, h`nview, h`attached, h`made
    ensures h.Valid() && h.Lent()
    ensures r.buf.Some? ==> r.buf.value in h.attached && r.buf.value < |h.made|
    ensures Stepped(h.lane, h.rw, h.busy, h.live, old(h.Snap()), DoView(i), r, h.live, h.Snap())
  {
    Itself(h.lane, h.Log());
    var o, buf := h.RunView(i);
    r := Plainly(o).(buf := if o == Done then Some(buf) else None);
  }

  method StepScan(h: Handle, lo: nat, hi: nat, script: Script) returns (r: Result)
    requires h.Valid()
    modifies h
    ensures h.Valid() && h.Lent() && r.buf == None && h.rw == old(h.rw) && h.busy == old(h.busy)
    ensures Stepped(h.lane, h.rw, h.busy, old(h.live), old(h.Snap()), DoRange(lo, hi, script), r, h.live, h.Snap())
  {
    ghost var before := h.Snap();
    if Keyed(h.lane) { KeyedNoStraddle(h.lane, h.per, h.runs, Row(lo, 0)); }
    var o, out, ended := h.RangeScan(lo, hi, script);
    r := Result(o, None, out, ended, None);
    ScanStepped(h.lane, h.rw, h.busy, h.live, before, DoRange(lo, hi, script), r, h.Snap());
  }

  lemma ScanStepped(l: Lane, rw: bool, busy: bool, live: bool, s: Snapshot, call: Call, r: Result, s': Snapshot)
    requires call.DoRange? && (r.o == Done <==> live) && s'.log == s.log && (r.o != Done ==> s' == s)
    requires Keyed(l) ==> Answers(l, s.log, call, r)
    requires r.o == Done ==> Stops(call.script, |r.rows|, r.ended) && TurnsRun(l, s, call.script, |r.rows|, s')
    ensures Stepped(l, rw, busy, live, s, call, r, live, s')
  {
    Itself(l, s.log);
    if r.o == Done && Quiet(call.script) { QuietTurns(l, s, call.script, |r.rows|, s'); }
  }

  /** Any leaf called on a handle is a step of a history. */
  method Step(h: Handle, call: Call) returns (r: Result)
    requires h.Valid()
    modifies h
    ensures h.Valid() && h.Lent() && h.rw == old(h.rw) && h.busy == old(h.busy)
    ensures Stepped(h.lane, h.rw, h.busy, old(h.live), old(h.Snap()), call, r, h.live, h.Snap())
    ensures r.buf.Some? ==> r.buf.value in h.attached && r.buf.value < |h.made|
  {
    if call.DoPut? || call.DoCommit? {
      r := StepPut(h, call);
    } else if call.DoDrop? {
      r := StepDrop(h, call);
    } else if call.DoClose? {
      r := StepClose(h);
    } else if call.DoSeek? {
      r := StepSeek(h, call.key);
    } else if call.DoNext? {
      r := StepNext(h);
    } else if call.DoGet? {
      r := StepGet(h, call.key);
    } else if call.DoView? {
      r := StepView(h, call.i);
    } else {
      r := StepScan(h, call.lo, call.hi, call.script);
    }
  }

  /** The history a sequence of calls, with their results, stands for. */
  function EventsOf(calls: seq<Call>, results: seq<Result>): (events: seq<Event>)
    requires |calls| == |results|
    ensures |events| == |calls|
    ensures forall i :: 0 <= i < |events| ==> events[i] == EventOf(calls[i], results[i])
  {
    if calls == [] then []
    else
      var n := |calls| - 1;
      EventsOf(calls[..n], results[..n]) + [EventOf(calls[n], results[n])]
  }

  /** Each call is the step it should be, from the state the calls before it have left. */
  ghost predicate Played(l: Lane, rw: bool, busy: bool, calls: seq<Call>, results: seq<Result>, lives: seq<bool>,
                         snaps: seq<Snapshot>)
  {
    && |calls| == |results| && |snaps| == |lives| == |calls| + 1
    && forall i :: 0 <= i < |calls| ==>
         Stepped(l, rw, busy, lives[i], snaps[i], calls[i], results[i], lives[i + 1], snaps[i + 1])
  }

  lemma PlayedOn(l: Lane, rw: bool, busy: bool, calls: seq<Call>, results: seq<Result>, lives: seq<bool>,
                 snaps: seq<Snapshot>, call: Call, r: Result, live: bool, s: Snapshot)
    requires Played(l, rw, busy, calls, results, lives, snaps)
    requires Stepped(l, rw, busy, lives[|calls|], snaps[|calls|], call, r, live, s)
    ensures Played(l, rw, busy, calls + [call], results + [r], lives + [live], snaps + [s])
  {
  }

  lemma PlayedHistory(l: Lane, rw: bool, busy: bool, calls: seq<Call>, results: seq<Result>, lives: seq<bool>,
                      snaps: seq<Snapshot>)
    requires Played(l, rw, busy, calls, results, lives, snaps)
    ensures History(l, snaps, EventsOf(calls, results))
  {
    var events := EventsOf(calls, results);
    forall i | 0 <= i < |events| ensures StepOk(l, snaps[i], events[i], snaps[i + 1]) {
      assert Stepped(l, rw, busy, lives[i], snaps[i], calls[i], results[i], lives[i + 1], snaps[i + 1]);
    }
  }

  /** The buffers among the results are some of those made. */
  ghost predicate AmongMade(results: seq<Result>, made: seq<nat>) {
    forall r <- results :: r.buf.Some? ==> r.buf.value < |made|
  }

  lemma MadeOn(results: seq<Result>, made: seq<nat>, r: Result, more: seq<nat>)
    requires AmongMade(results, made) && made <= more && (r.buf.Some? ==> r.buf.value < |more|)
    ensures AmongMade(results + [r], more)
  {
  }

  /** The calls lead from one state to the other. */
  ghost predicate Leads(l: Lane, rw: bool, busy: bool, live: bool, s: Snapshot, calls: seq<Call>, results: seq<Result>,
                        lives: seq<bool>, snaps: seq<Snapshot>, live': bool, s': Snapshot)
  {
    && Played(l, rw, busy, calls, results, lives, snaps)
    && snaps[0] == s && lives[0] == live && snaps[|calls|] == s' && lives[|calls|] == live'
  }

  lemma LeadsOn(l: Lane, rw: bool, busy: bool, live: bool, s: Snapshot, calls: seq<Call>, results: seq<Result>,
                lives: seq<bool>, snaps: seq<Snapshot>, live': bool, s': Snapshot,
                call: Call, r: Result, later: bool, t: Snapshot)
    requires Leads(l, rw, busy, live, s, calls, results, lives, snaps, live', s')
    requires Stepped(l, rw, busy, live', s', call, r, later, t)
    ensures Leads(l, rw, busy, live, s, calls + [call], results + [r], lives + [later], snaps + [t], later, t)
  {
    PlayedOn(l, rw, busy, calls, results, lives, snaps, call, r, later, t);
  }

  lemma FrontAndLast(calls: seq<Call>)
    requires calls != []
    ensures calls[..|calls| - 1] + [calls[|calls| - 1]] == calls
  {
  }

  /**
    Any sequence of leaf calls plays out as a history, and the theorems above apply to it.  Buffers are made along
    the way, in the callbacks of scans too, and none that was detached comes back.
  */
  method Drive(h: Handle, calls: seq<Call>) returns (results: seq<Result>, ghost lives: seq<bool>,
               ghost snaps: seq<Snapshot>)
    requires h.Valid()
    modifies h
    ensures h.Valid() && h.Lent() && h.rw == old(h.rw) && h.busy == old(h.busy)
    ensures Leads(h.lane, h.rw, h.busy, old(h.live), old(h.Snap()), calls, results, lives, snaps, h.live, h.Snap())
    ensures AmongMade(results, h.made)
    decreases |calls|
  {
    if calls == [] {
      results, lives, snaps := [], [h.live], [h.Snap()];
    } else {
      var n := |calls| - 1;
      results, lives, snaps := Drive(h, calls[..n]);
      ghost var live, s, made := h.live, h.Snap(), h.made;
      var r := Step(h, calls[n]);
      LeadsOn(h.lane, h.rw, h.busy, old(h.live), old(h.Snap()), calls[..n], results, lives, snaps, live, s,
              calls[n], r, h.live, h.Snap());
      MadeOn(results, made, r, h.made);
      FrontAndLast(calls);
      results, lives, snaps := results + [r], lives + [h.live], snaps + [h.Snap()];
    }
  }

  // ----- a session

  predicate Keeps(call: Call) { !call.DoDrop? && !call.DoClose? }

  /** The rows the calls put. */
  function PutsOf(calls: seq<Call>): seq<Row> {
    if calls == [] then []
    else PutsOf(calls[..|calls| - 1]) + (if calls[|calls| - 1].DoPut? then [calls[|calls| - 1].row] else [])
  }

  lemma {:induction false} StaysLive(l: Lane, rw: bool, busy: bool, calls: seq<Call>, results: seq<Result>,
                                     lives: seq<bool>, snaps: seq<Snapshot>, i: nat)
    requires Played(l, rw, busy, calls, results, lives, snaps) && i <= |calls| && lives[0]
    requires forall j :: 0 <= j < |calls| ==> Keeps(calls[j])
    ensures lives[i]
  {
    if i > 0 {
      StaysLive(l, rw, busy, calls, results, lives, snaps, i - 1);
      assert Stepped(l, rw, busy, lives[i - 1], snaps[i - 1], calls[i - 1], results[i - 1], lives[i], snaps[i]);
    }
  }

  lemma {:induction false} AcceptedPuts(rw: bool, calls: seq<Call>, results: seq<Result>)
    requires |calls| == |results| && forall i :: 0 <= i < |calls| ==> Accepted(true, rw, false, calls[i], results[i].o)
    ensures Puts(EventsOf(calls, results)) == if rw then PutsOf(calls) else []
  {
    if calls != [] {
      var n := |calls| - 1;
      AcceptedPuts(rw, calls[..n], results[..n]);
      assert Accepted(true, rw, false, calls[n], results[n].o);
      assert EventsOf(calls, results)[..n] == EventsOf(calls[..n], results[..n]);
    }
  }

  lemma AllAccepted(l: Lane, rw: bool, calls: seq<Call>, results: seq<Result>, lives: seq<bool>, snaps: seq<Snapshot>)
    requires Played(l, rw, false, calls, results, lives, snaps) && lives[0]
    requires forall j :: 0 <= j < |calls| ==> Keeps(calls[j])
    ensures forall i :: 0 <= i < |calls| ==> Accepted(true, rw, false, calls[i], results[i].o)
  {
    forall i | 0 <= i < |calls| ensures Accepted(true, rw, false, calls[i], results[i].o) {
      StaysLive(l, rw, false, calls, results, lives, snaps, i);
      assert Stepped(l, rw, false, lives[i], snaps[i], calls[i], results[i], lives[i + 1], snaps[i + 1]);
    }
  }

  lemma NoneDropped(calls: seq<Call>, results: seq<Result>)
    requires |calls| == |results| && forall j :: 0 <= j < |calls| ==> Keeps(calls[j])
    ensures forall i :: 0 <= i < |calls| ==> !EventsOf(calls, results)[i].Dropping?
  {
    var events := EventsOf(calls, results);
    forall i | 0 <= i < |calls| ensures !events[i].Dropping? {
      assert Keeps(calls[i]) && events[i] == EventOf(calls[i], results[i]);
    }
  }

  /** What the puts of a session without a drop come to. */
  lemma SessionLog(l: Lane, rw: bool, calls: seq<Call>, results: seq<Result>, lives: seq<bool>, snaps: seq<Snapshot>)
    requires Played(l, rw, false, calls, results, lives, snaps) && lives[0]
    requires forall j :: 0 <= j < |calls| ==> Keeps(calls[j])
    ensures SameLast(l, snaps[|calls|].log, snaps[0].log + if rw then PutsOf(calls) else [])
  {
    AllAccepted(l, rw, calls, results, lives, snaps);
    AcceptedPuts(rw, calls, results);
    PlayedHistory(l, rw, false, calls, results, lives, snaps);
    NoneDropped(calls, results);
    Replay(l, snaps, EventsOf(calls, results));
  }

  /**
    After any calls but drop and close on an open handle of a keyed lane, scans with callbacks included, a lookup
    answers with the last put of the key, and every buffer handed out, to callbacks too, is detached or wraps the
    run it was made for, which is mapped.
  */
  method Session(h: Handle, calls: seq<Call>, k: nat) returns (found: Option<Row>, results: seq<Result>)
    requires h.Valid() && Keyed(h.lane) && h.live && !h.busy && forall i :: 0 <= i < |calls| ==> Keeps(calls[i])
    modifies h
    ensures h.Valid() && |results| == |calls|
    ensures found == LastPut(old(h.Log()) + (if old(h.rw) then PutsOf(calls) else []), k)
    ensures AmongMade(results, h.made) && old(h.made) <= h.made
    ensures forall b <- h.attached :: b < |h.made| && h.attached[b] == h.made[b] && Mapped(h.runs, h.made[b])
    ensures forall b :: 0 <= b < |old(h.made)| && b !in old(h.attached) ==> b !in h.attached
  {
    ghost var lives, snaps;
    results, lives, snaps := Drive(h, calls);
    StaysLive(h.lane, h.rw, false, calls, results, lives, snaps, |calls|);
    SessionLog(h.lane, h.rw, calls, results, lives, snaps);
    found := SessionGet(h, old(h.Log()) + (if old(h.rw) then PutsOf(calls) else []), k);
    forall b <- h.attached ensures Mapped(h.runs, h.made[b]) {
      AttachedIsMapped(h.runs, h.view, h.nview, h.attached, b);
    }
  }

  method SessionGet(h: Handle, ghost log: seq<Row>, k: nat) returns (found: Option<Row>)
    requires h.Valid() && Keyed(h.lane) && SameLast(h.lane, h.Log(), log)
    ensures found == LastPut(log, k)
  {
    found := h.Lookup(k);
    SourcesSorted(h.lane, h.per, h.runs, h.past, h.data);
    SourcesFlat(h.runs, h.past, h.data);
    GetIsLastPut(h.lane, h.Sources(), log, k, found);
  }
}
