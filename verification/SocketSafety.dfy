/** What every run of a socket keeps, and exactly when its FIN overtakes bytes. */
module SocketSafety {
  import opened Bytes
  import opened Options
  import opened SocketModel

  /** Outputs worth counting: any FIN, a FIN sent over queued bytes, a FIN sent on a closed fd, the closes. */
  datatype Kind = AnyFin | LateFin | DeadFin | FdClose | CloseEvent

  predicate Is(o: Output, kind: Kind) {
    match kind
    case AnyFin => o.Fin?
    case LateFin => o.Fin? && o.unsent > 0
    case DeadFin => o.Fin? && !o.onOpen
    case FdClose => o == CloseFd
    case CloseEvent => o == Closed
  }

  function Count(log: seq<Output>, kind: Kind): nat {
    if log == [] then 0 else Count(log[..|log| - 1], kind) + One(Is(log[|log| - 1], kind))
  }

  lemma Counts(log: seq<Output>, o: Output)
    ensures forall kind :: Count(log + [o], kind) == Count(log, kind) + One(Is(o, kind))
  {
    assert (log + [o])[..|log|] == log;
  }

  /** Bytes are neither lost, repeated nor reordered; one FIN, one close of the fd, one 'close'. */
  ghost predicate Inv(s: Sock) {
    && s.sent + s.queue == s.accepted
    && Count(s.log, AnyFin) == One(s.wrShut) && (s.wrShut ==> s.ending)
    && Count(s.log, FdClose) == Count(s.log, CloseEvent) == One(s.closed)
    && (s.wrShut && Count(s.log, LateFin) == 0 ==> s.queue == [])
  }

  /** What a step does to any socket: output and bytes only grow, the flags only rise. */
  ghost predicate Grows(s: Sock, t: Sock) {
    && s.sent <= t.sent && s.accepted <= t.accepted && s.log <= t.log
    && (s.readEnded ==> t.readEnded) && (s.ending ==> t.ending) && (s.wrShut ==> t.wrShut) && (s.closed ==> t.closed)
    && (s.ending || s.closed ==> t.accepted == s.accepted)
  }

  ghost predicate SameFins(s: Sock, t: Sock) {
    && Count(t.log, AnyFin) == Count(s.log, AnyFin) && Count(t.log, LateFin) == Count(s.log, LateFin)
    && Count(t.log, DeadFin) == Count(s.log, DeadFin)
  }

  lemma GrowsOn(s: Sock, t: Sock, u: Sock)
    requires Grows(s, t) && Grows(t, u)
    ensures Grows(s, u)
  {
  }

  /** The calls touch neither what was sent, nor the read side, nor the FIN. */
  ghost predicate ByCalls(s: Sock, t: Sock) {
    && Grows(s, t) && SameFins(s, t)
    && t.sent == s.sent && s.queue <= t.queue && t.readEnded == s.readEnded && t.wrShut == s.wrShut
    && (s.ending || s.closed ==> t.queue == s.queue)
  }

  lemma {:induction false} ClosingKeeps(s: Sock, closing: Script)
    requires Inv(s)
    ensures Inv(Closing(s, closing)) && ByCalls(s, Closing(s, closing)) && Closing(s, closing).closed
    decreases closing, 1
  {
    if !s.closed {
      var shut := s.(closed := true);
      Counts(s.log, CloseFd);
      Counts(s.log + [CloseFd], Closed);
      var t := Told(Told(shut, CloseFd), Closed);
      RunKeeps(t, closing);
    }
  }

  lemma {:induction false} RunKeeps(s: Sock, script: Script)
    requires Inv(s)
    ensures Inv(Run(s, script)) && ByCalls(s, Run(s, script))
    decreases script, 0
  {
    match script
    case Nothing =>
    case Write(u, rest) =>
      WroteKeeps(s, u);
      RunKeeps(Wrote(s, u), rest);
    case End(last, rest) =>
      FinishedKeeps(s, last);
      RunKeeps(Finished(s, last), rest);
    case Destroy(closing, rest) =>
      ClosingKeeps(s.(ending := true), closing);
      RunKeeps(Closing(s.(ending := true), closing), rest);
  }

  lemma WroteKeeps(s: Sock, u: seq<Byte>)
    requires Inv(s)
    ensures Inv(Wrote(s, u)) && ByCalls(s, Wrote(s, u))
  {
    assert s.sent + (s.queue + u) == s.sent + s.queue + u;
  }

  lemma FinishedKeeps(s: Sock, last: Option<seq<Byte>>)
    requires Inv(s)
    ensures Inv(Finished(s, last)) && ByCalls(s, Finished(s, last))
  {
    if last.Some? { WroteKeeps(s, last.value); }
  }

  lemma ToldKeeps(s: Sock, o: Output)
    requires Inv(s) && !o.Fin? && o != CloseFd && o != Closed
    ensures Inv(Told(s, o)) && ByCalls(s, Told(s, o))
  {
    Counts(s.log, o);
  }

  lemma SentOn(sent: seq<Byte>, queue: seq<Byte>, k: nat)
    requires k <= |queue|
    ensures (sent + queue[..k]) + queue[k..] == sent + queue && sent <= sent + queue[..k]
  {
    assert (sent + queue[..k]) + queue[k..] == sent + (queue[..k] + queue[k..]);
  }

  lemma Later(a: seq<Byte>, b: seq<Byte>, c: seq<Byte>)
    requires a <= b <= c
    ensures a <= c
  {
  }

  lemma {:induction false} PumpedKeeps(s: Sock, sends: seq<Sending>)
    requires Inv(s)
    ensures var p := Pumped(s, sends).0; Inv(p) && s.sent <= p.sent && p == s.(queue := p.queue, sent := p.sent)
    decreases |sends|
  {
    if s.queue != [] && sends != [] && sends[0].Took? {
      var n := sends[0].n;
      var k := if n <= |s.queue| then n else |s.queue|;
      SentOn(s.sent, s.queue, k);
      var t := SentSome(s, n);
      PumpedKeeps(t, sends[1..]);
      Later(s.sent, t.sent, Pumped(s, sends).0.sent);
    }
  }

  lemma ByCallsOn(s: Sock, t: Sock, u: Sock)
    requires ByCalls(s, t) && ByCalls(t, u)
    ensures ByCalls(s, u)
  {
    Later(s.queue, t.queue, u.queue);
    Later(s.accepted, t.accepted, u.accepted);
    LaterLog(s.log, t.log, u.log);
  }

  lemma LaterLog(a: seq<Output>, b: seq<Output>, c: seq<Output>)
    requires a <= b <= c
    ensures a <= c
  {
  }

  /** An event told, and its handlers run. */
  lemma TellKeeps(s: Sock, o: Output, script: Script)
    requires Inv(s) && !o.Fin? && o != CloseFd && o != Closed
    ensures Inv(Run(Told(s, o), script)) && ByCalls(s, Run(Told(s, o), script))
  {
    ToldKeeps(s, o);
    RunKeeps(Told(s, o), script);
    ByCallsOn(s, Told(s, o), Run(Told(s, o), script));
  }

  lemma FatalKeeps(s: Sock, h: Handlers)
    requires Inv(s)
    ensures Inv(Fatal(s, h)) && ByCalls(s, Fatal(s, h)) && Fatal(s, h).closed
  {
    var t := Run(Told(s, Error), h.error);
    TellKeeps(s, Error, h.error);
    ClosingKeeps(t, h.closing);
    ByCallsOn(s, t, Closing(t, h.closing));
  }

  lemma MaybeFinKeeps(s: Sock)
    requires Inv(s)
    ensures Inv(MaybeFin(s)) && Grows(s, MaybeFin(s))
    ensures var fin := s.ending && !s.wrShut;
            && Count(MaybeFin(s).log, LateFin) == Count(s.log, LateFin) + One(fin && s.queue != [])
            && Count(MaybeFin(s).log, DeadFin) == Count(s.log, DeadFin) + One(fin && s.closed)
  {
    Counts(s.log, Fin(|s.queue|, !s.closed));
  }

  // ----- when the FIN goes wrong

  /** Run on an open socket, the script leaves it ending over queued bytes. */
  predicate EndsOverBytes(script: Script, queued: bool) {
    match script
    case Nothing => false
    case Write(u, rest) => EndsOverBytes(rest, queued || u != [])
    case End(last, _) => queued || (last.Some? && last.value != [])
    case Destroy(_, _) => queued
  }

  predicate Ends(script: Script) {
    match script
    case Nothing => false
    case Write(_, rest) => Ends(rest)
    case End(_, _) => true
    case Destroy(_, _) => true
  }

  predicate Destroys(script: Script) {
    match script
    case Nothing => false
    case Write(_, rest) => Destroys(rest)
    case End(_, rest) => Destroys(rest)
    case Destroy(_, _) => true
  }

  lemma {:induction false} RunEndsOverBytes(s: Sock, script: Script)
    requires Inv(s) && !s.ending && !s.closed
    ensures var r := Run(s, script); r.ending && r.queue != [] <==> EndsOverBytes(script, s.queue != [])
    decreases script
  {
    match script
    case Nothing =>
    case Write(u, rest) =>
      WroteKeeps(s, u);
      RunEndsOverBytes(Wrote(s, u), rest);
    case End(last, rest) =>
      FinishedKeeps(s, last);
      RunKeeps(Finished(s, last), rest);
    case Destroy(closing, rest) =>
      ClosingKeeps(s.(ending := true), closing);
      RunKeeps(Closing(s.(ending := true), closing), rest);
  }

  lemma {:induction false} RunEnds(s: Sock, script: Script)
    requires Inv(s)
    ensures var r := Run(s, script); (r.ending && r.closed) <==> if s.closed then s.ending || Ends(script)
                                                             else Destroys(script)
    decreases script
  {
    match script
    case Nothing =>
      if !s.closed { assert !Run(s, script).closed; }
    case Write(u, rest) =>
      WroteKeeps(s, u);
      RunEnds(Wrote(s, u), rest);
    case End(last, rest) =>
      FinishedKeeps(s, last);
      RunEnds(Finished(s, last), rest);
    case Destroy(closing, rest) =>
      ClosingKeeps(s.(ending := true), closing);
      RunKeeps(Closing(s.(ending := true), closing), rest);
  }

  /** The flush got to tell 'drain'. */
  predicate Drains(s: Sock, sends: seq<Sending>) {
    !Pumped(s, sends).1 && Pumped(s, sends).0.queue == []
  }

  /** A flush whose FIN overtakes bytes: the socket open and not ending, and the 'drain' handlers write and then end. */
  predicate Overtaking(s: Sock, sends: seq<Sending>, drain: Script) {
    Drains(s, sends) && !s.ending && !s.closed && EndsOverBytes(drain, false)
  }

  /** A flush whose FIN goes to a closed fd. */
  predicate Beyond(s: Sock, sends: seq<Sending>, drain: Script) {
    Drains(s, sends) && !s.wrShut && if s.closed then s.ending || Ends(drain) else Destroys(drain)
  }

  lemma DrainedKeeps(s: Sock, drain: Script)
    requires Inv(s) && s.queue == []
    ensures var t := MaybeFin(Run(Told(s, Drained), drain));
            && Inv(t) && Grows(s, t)
            && Count(t.log, LateFin) == Count(s.log, LateFin) +
               One(!s.ending && !s.closed && EndsOverBytes(drain, false))
            && Count(t.log, DeadFin) == Count(s.log, DeadFin) +
                 One(!s.wrShut && if s.closed then s.ending || Ends(drain) else Destroys(drain))
  {
    ToldKeeps(s, Drained);
    var t := Told(s, Drained);
    TellKeeps(s, Drained, drain);
    RunEnds(t, drain);
    if !t.ending && !t.closed { RunEndsOverBytes(t, drain); }
    MaybeFinKeeps(Run(t, drain));
    GrowsOn(s, Run(t, drain), MaybeFin(Run(t, drain)));
  }

  lemma FlushedKeeps(s: Sock, sends: seq<Sending>, h: Handlers)
    requires Inv(s)
    ensures Inv(Flushed(s, sends, h)) && Grows(s, Flushed(s, sends, h))
    ensures Count(Flushed(s, sends, h).log, LateFin) == Count(s.log, LateFin) + One(Overtaking(s, sends, h.drain))
    ensures Count(Flushed(s, sends, h).log, DeadFin) == Count(s.log, DeadFin) + One(Beyond(s, sends, h.drain))
  {
    PumpedKeeps(s, sends);
    var (p, threw) := Pumped(s, sends);
    if threw {
      FatalKeeps(p, h);
    } else if p.queue == [] {
      DrainedKeeps(p, h.drain);
    }
  }

  lemma ReadEndKeeps(s: Sock, h: Handlers)
    requires Inv(s)
    ensures Inv(ReadEnd(s, h)) && Grows(s, ReadEnd(s, h)) && SameFins(s, ReadEnd(s, h))
  {
    if !s.readEnded {
      var t := s.(readEnded := true);
      var u := Run(Told(t, Ended), h.ended);
      TellKeeps(t, Ended, h.ended);
      FinishedKeeps(u, None);
      ByCallsOn(t, u, Finished(u, None));
    }
  }

  lemma MaskKeeps(s: Sock, h: Handlers)
    requires Inv(s)
    ensures Inv(MaskOf(s, h).0) && Grows(s, MaskOf(s, h).0) && SameFins(s, MaskOf(s, h).0)
    ensures MaskOf(s, h).1 == None <==> MaskOf(s, h).0.closed
  {
    ClosingKeeps(s, h.closing);
  }

  lemma ReadableKeeps(s: Sock, got: Received, h: Handlers)
    requires Inv(s)
    ensures Inv(Readable(s, got, h).0) && Grows(s, Readable(s, got, h).0) && SameFins(s, Readable(s, got, h).0)
    ensures Readable(s, got, h).1 ==> Readable(s, got, h).0.closed
  {
    match got
    case Failed => FatalKeeps(s, h);
    case Again =>
    case Eof => ReadEndKeeps(s, h);
    case Got(bytes) =>
      ReadEndKeeps(s, h);
      TellKeeps(s, Data(Took64K(bytes)), h.data);
  }

  /** The invariant kept, and no FIN sent. */
  ghost predicate Kept(s: Sock, t: Sock) { Inv(t) && Grows(s, t) && SameFins(s, t) }

  lemma KeptOn(s: Sock, t: Sock, u: Sock)
    requires Kept(s, t) && Kept(t, u)
    ensures Kept(s, u)
  {
    GrowsOn(s, t, u);
  }

  lemma ReadPartKeeps(s: Sock, rev: Revents, got: Received, h: Handlers)
    requires Inv(s)
    ensures var (t, done) := if rev.readable then Readable(s, got, h) else (s, false); Kept(s, t) && (done ==> t.closed)
  {
    if rev.readable { ReadableKeeps(s, got, h); }
  }

  lemma HangupKeeps(s: Sock, rev: Revents, h: Handlers)
    requires Inv(s)
    ensures Kept(s, if rev.hangup && !rev.readable then ReadEnd(s, h) else s)
  {
    ReadEndKeeps(s, h);
  }

  lemma RestKeeps(s: Sock, rev: Revents, got: Received, h: Handlers)
    requires Inv(s)
    ensures var (t, mask) := Rest(s, rev, got, h); Kept(s, t) && (mask == None <==> t.closed)
  {
    ReadPartKeeps(s, rev, got, h);
    var (t, done) := if rev.readable then Readable(s, got, h) else (s, false);
    if !done {
      HangupKeeps(t, rev, h);
      var u := if rev.hangup && !rev.readable then ReadEnd(t, h) else t;
      MaskKeeps(u, h);
      KeptOn(s, t, u);
      KeptOn(s, u, MaskOf(u, h).0);
    }
  }

  /** The poll loop forgets the fd exactly when the socket is closed. */
  lemma PolledKeeps(s: Sock, rev: Revents, sends: seq<Sending>, got: Received, h: Handlers)
    requires Inv(s)
    ensures var (t, mask) := Polled(s, rev, sends, got, h);
            && Inv(t) && Grows(s, t) && (mask == None <==> t.closed)
            && Count(t.log, LateFin) == Count(s.log, LateFin) + One(FinOvertakes(s, Poll(rev, sends, got, h)))
            && Count(t.log, DeadFin) == Count(s.log, DeadFin) + One(FinBeyond(s, Poll(rev, sends, got, h)))
  {
    if rev.bad {
      FatalKeeps(s, h);
    } else {
      FlushedKeeps(s, sends, h);
      var s1 := if rev.writable then Flushed(s, sends, h) else s;
      RestKeeps(s1, rev, got, h);
    }
  }

  /** The events at which the FIN overtakes bytes; those at which it goes to a closed fd. */
  predicate FinOvertakes(s: Sock, e: Event) {
    e.Poll? && !e.rev.bad && e.rev.writable && Overtaking(s, e.sends, e.h.drain)
  }

  predicate FinBeyond(s: Sock, e: Event) {
    e.Poll? && !e.rev.bad && e.rev.writable && Beyond(s, e.sends, e.h.drain)
  }

  /** Exactly those events put a FIN over queued bytes, or on a closed fd, into the log. */
  lemma NextKeeps(s: Sock, e: Event)
    requires Inv(s)
    ensures Inv(Next(s, e)) && Grows(s, Next(s, e))
    ensures Count(Next(s, e).log, LateFin) == Count(s.log, LateFin) + One(FinOvertakes(s, e))
    ensures Count(Next(s, e).log, DeadFin) == Count(s.log, DeadFin) + One(FinBeyond(s, e))
  {
    match e
    case Calls(script) => RunKeeps(s, script);
    case Poll(rev, sends, got, h) => PolledKeeps(s, rev, sends, got, h);
  }

  /** In every run: the FIFO law, one FIN at most, one close at most. */
  lemma {:induction false} EveryRun(run: seq<Event>)
    ensures Inv(After(run))
  {
    if run != [] {
      EveryRun(run[..|run| - 1]);
      NextKeeps(After(run[..|run| - 1]), run[|run| - 1]);
    }
  }

  /** No event of the run has its FIN overtake bytes. */
  predicate NeverOvertakes(run: seq<Event>) {
    run == [] || (NeverOvertakes(run[..|run| - 1]) && !FinOvertakes(After(run[..|run| - 1]), run[|run| - 1]))
  }

  /** A FIN of the run went out over queued bytes exactly if one of its events is such. */
  lemma {:induction false} LateFinExactly(run: seq<Event>)
    ensures Count(After(run).log, LateFin) == 0 <==> NeverOvertakes(run)
  {
    if run != [] {
      EveryRun(run[..|run| - 1]);
      NextKeeps(After(run[..|run| - 1]), run[|run| - 1]);
      LateFinExactly(run[..|run| - 1]);
    }
  }

  /** No event of the run has its FIN go to a closed fd. */
  predicate NeverBeyond(run: seq<Event>) {
    run == [] || (NeverBeyond(run[..|run| - 1]) && !FinBeyond(After(run[..|run| - 1]), run[|run| - 1]))
  }

  /** A FIN of the run went to a closed fd exactly if one of its events is such; and there is at most one such FIN. */
  lemma {:induction false} DeadFinExactly(run: seq<Event>)
    ensures Count(After(run).log, DeadFin) == 0 <==> NeverBeyond(run)
    ensures Count(After(run).log, DeadFin) <= 1
  {
    EveryRun(run);
    SomeFin(After(run).log, DeadFin);
    if run != [] {
      EveryRun(run[..|run| - 1]);
      NextKeeps(After(run[..|run| - 1]), run[|run| - 1]);
      DeadFinExactly(run[..|run| - 1]);
    }
  }

  lemma {:induction false} SomeFin(log: seq<Output>, kind: Kind)
    requires kind == LateFin || kind == DeadFin
    ensures Count(log, kind) <= Count(log, AnyFin)
  {
    if log != [] { SomeFin(log[..|log| - 1], kind); }
  }

  /** Unless it overtook bytes, the FIN says that everything accepted was sent. */
  lemma FinMeansSent(run: seq<Event>)
    requires NeverOvertakes(run) && After(run).wrShut
    ensures After(run).sent == After(run).accepted
  {
    EveryRun(run);
    LateFinExactly(run);
  }

  /** With 'drain' handlers that do not end the socket over bytes they wrote, no FIN overtakes. */
  lemma {:induction false} QuietDrains(run: seq<Event>)
    requires forall i :: 0 <= i < |run| ==> run[i].Poll? ==> !EndsOverBytes(run[i].h.drain, false)
    ensures NeverOvertakes(run)
  {
    if run != [] { QuietDrains(run[..|run| - 1]); }
  }

  const ECHO_AND_END: Script := Write([7], End(None, Nothing))

  /** A 'drain' handler that writes a byte and ends: the FIN leaves before the byte, which is sent after it. */
  lemma OvertakenExample()
    ensures var h := Handlers(ECHO_AND_END, Nothing, Nothing, Nothing, Nothing);
            var run := [Poll(Revents(false, true, false, false), [], Again, h)];
            var s := After(run);
            && s.wrShut && s.queue == [7] && s.sent == [] && s.log == [Drained, Fin(1, true)]
  {
    var h := Handlers(ECHO_AND_END, Nothing, Nothing, Nothing, Nothing);
    var e := Poll(Revents(false, true, false, false), [], Again, h);
    assert [e][..0] == [];
    assert After([e]) == Next(FRESH, e);
    var t := Told(FRESH, Drained);
    assert Run(t, ECHO_AND_END) == Finished(Wrote(t, [7]), None);
    assert [] + [7] == [7];
  }

  /** A 'drain' handler that destroys the socket: the FIN follows the close of the fd. */
  lemma DestroyedExample()
    ensures var h := Handlers(Destroy(Nothing, Nothing), Nothing, Nothing, Nothing, Nothing);
            After([Poll(Revents(false, true, false, false), [], Again, h)]).log ==
                [Drained, CloseFd, Closed, Fin(0, false)]
  {
    var h := Handlers(Destroy(Nothing, Nothing), Nothing, Nothing, Nothing, Nothing);
    var e := Poll(Revents(false, true, false, false), [], Again, h);
    assert [e][..0] == [];
    assert After([e]) == Next(FRESH, e);
    var t := Told(FRESH, Drained);
    assert Run(t, h.drain) == Run(Closing(t.(ending := true), Nothing), Nothing);
    assert Closing(t.(ending := true), Nothing).log == [Drained, CloseFd, Closed];
  }

  // ----- what a poll comes to

  /** The bytes the kernel is willing to take before it blocks or throws. */
  function Offered(sends: seq<Sending>): nat {
    if sends == [] || !sends[0].Took? then 0 else sends[0].n + Offered(sends[1..])
  }

  /** What it then says; nothing more is the same as that it blocks. */
  function Stop(sends: seq<Sending>): Sending {
    if sends == [] then Blocked else if sends[0].Took? then Stop(sends[1..]) else sends[0]
  }

  /** The first n queued bytes are sent. */
  function Gone(s: Sock, n: nat): Sock
    requires n <= |s.queue|
  {
    s.(queue := s.queue[n..], sent := s.sent + s.queue[..n])
  }

  function Least(m: nat, n: nat): nat { if m < n then m else n }

  lemma GoneOn(s: Sock, k: nat, n: nat)
    requires k + n <= |s.queue|
    ensures Gone(Gone(s, k), n) == Gone(s, k + n) && Gone(s, 0) == s
  {
    assert s.queue[..k] + s.queue[k..][..n] == s.queue[..k + n];
    assert s.queue[k..][n..] == s.queue[k + n..] && s.queue[0..] == s.queue && s.sent + [] == s.sent;
    assert (s.sent + s.queue[..k]) + s.queue[k..][..n] == s.sent + s.queue[..k + n];
  }

  /**
    The send loop sends all that is queued, or all the kernel takes; it throws exactly if it gets to a send that
    does.
  */
  lemma {:induction false} PumpedExactly(s: Sock, sends: seq<Sending>)
    ensures Pumped(s, sends) == (Gone(s, Least(Offered(sends), |s.queue|)),
                                 Offered(sends) < |s.queue| && Stop(sends) == Broken)
    decreases |sends|
  {
    if s.queue == [] || sends == [] || !sends[0].Took? {
      GoneOn(s, 0, 0);
    } else {
      PumpedExactly(SentSome(s, sends[0].n), sends[1..]);
      PumpedOn(s, sends[0].n, Offered(sends[1..]), Stop(sends[1..]));
    }
  }

  lemma PumpedOn(s: Sock, n: nat, more: nat, stop: Sending)
    ensures var t := SentSome(s, n);
            && Gone(t, Least(more, |t.queue|)) == Gone(s, Least(n + more, |s.queue|))
            && (more < |t.queue| && stop == Broken <==> n + more < |s.queue| && stop == Broken)
  {
    var k := Least(n, |s.queue|);
    assert SentSome(s, n) == Gone(s, k);
    GoneOn(s, k, Least(more, |s.queue| - k));
  }

  lemma DrainsExactly(s: Sock, sends: seq<Sending>)
    ensures Drains(s, sends) <==> Offered(sends) >= |s.queue|
  {
    PumpedExactly(s, sends);
  }

  /** A socket that failed has told 'error', and is closed. */
  lemma FatalTells(s: Sock, h: Handlers)
    requires Inv(s)
    ensures s.log + [Error] <= Fatal(s, h).log && Fatal(s, h).closed
  {
    var t := Told(s, Error);
    ToldKeeps(s, Error);
    RunKeeps(t, h.error);
    ClosingKeeps(Run(t, h.error), h.closing);
    LaterLog(t.log, Run(t, h.error).log, Fatal(s, h).log);
  }

  /**
    A flush: with everything sent 'drain' is told, and a socket that is ending then, or comes to it, has its FIN
    sent; a send that throws closes the socket; and short of either some bytes are sent and nothing else happens.
  */
  lemma FlushComesTo(s: Sock, sends: seq<Sending>, h: Handlers)
    requires Inv(s)
    ensures var t := Flushed(s, sends, h);
            if Offered(sends) >= |s.queue| then
              && t.sent == s.sent + s.queue && s.log + [Drained] <= t.log && (t.ending ==> t.wrShut)
              && (s.ending ==> t.queue == [] && t.sent == t.accepted)
            else if Stop(sends) == Broken then s.log + [Error] <= t.log && t.closed
            else t == Gone(s, Offered(sends))
  {
    PumpedExactly(s, sends);
    PumpedKeeps(s, sends);
    var p := Pumped(s, sends).0;
    if Offered(sends) >= |s.queue| {
      assert s.queue[..|s.queue|] == s.queue && p.queue == [];
      DrainTells(p, h.drain);
      MaybeFinKeeps(Run(Told(p, Drained), h.drain));
    } else if Stop(sends) == Broken {
      FatalTells(p, h);
    }
  }

  lemma DrainTells(p: Sock, drain: Script)
    requires Inv(p)
    ensures var r := Run(Told(p, Drained), drain);
            && Inv(r) && p.log + [Drained] <= r.log && r.sent == p.sent && p.queue <= r.queue
            && (p.ending ==> r.queue == p.queue && r.ending && r.accepted == p.accepted)
            && p.log + [Drained] <= MaybeFin(r).log
  {
    ToldKeeps(p, Drained);
    RunKeeps(Told(p, Drained), drain);
    LaterLog(p.log + [Drained], Run(Told(p, Drained), drain).log, MaybeFin(Run(Told(p, Drained), drain)).log);
  }

  /** The other side's end has been heard. */
  ghost predicate Heard(s: Sock, t: Sock) {
    t.readEnded && (if s.readEnded then t == s else t.ending && s.log + [Ended] <= t.log)
  }

  /** The other side has ended: 'end' is told, once, and the socket ends too. */
  lemma ReadEndComesTo(s: Sock, h: Handlers)
    requires Inv(s)
    ensures Heard(s, ReadEnd(s, h))
  {
    if !s.readEnded {
      var t := Told(s.(readEnded := true), Ended);
      ToldKeeps(s.(readEnded := true), Ended);
      RunKeeps(t, h.ended);
    }
  }

  /** What was received is told, up to what the read buffer holds; nothing received is the end. */
  lemma ReadableComesTo(s: Sock, got: Received, h: Handlers)
    requires Inv(s)
    ensures var (t, done) := Readable(s, got, h);
            match got
            case Failed => done && t.closed && s.log + [Error] <= t.log
            case Again => !done && t == s
            case Eof => !done && Heard(s, t)
            case Got(bytes) =>
              !done && if bytes == [] then Heard(s, t) else s.log + [Data(Took64K(bytes))] <= t.log
  {
    ReadEndComesTo(s, h);
    match got
    case Failed => FatalTells(s, h);
    case Got(bytes) =>
      ToldKeeps(s, Data(Took64K(bytes)));
      RunKeeps(Told(s, Data(Took64K(bytes))), h.data);
    case _ =>
  }

  /** What a socket that polls the revents rev and receives `got` has told, and come to, by the time it is t. */
  ghost predicate Answers(s: Sock, t: Sock, rev: Revents, got: Received) {
    if rev.readable then
      match got
      case Failed => t.closed && s.log + [Error] <= t.log
      case Again => true
      case Eof => EndHeard(s, t)
      case Got(bytes) => if bytes == [] then EndHeard(s, t) else s.log + [Data(Took64K(bytes))] <= t.log
    else rev.hangup ==> EndHeard(s, t)
  }

  ghost predicate EndHeard(s: Sock, t: Sock) {
    t.readEnded && (!s.readEnded ==> t.ending && s.log + [Ended] <= t.log)
  }

  lemma AnswersLater(s: Sock, t: Sock, u: Sock, rev: Revents, got: Received)
    requires Answers(s, t, rev, got) && Grows(t, u)
    ensures Answers(s, u, rev, got)
  {
    if rev.readable && got.Got? && got.bytes != [] {
      LaterLog(s.log + [Data(Took64K(got.bytes))], t.log, u.log);
    } else if rev.readable && got.Failed? {
      LaterLog(s.log + [Error], t.log, u.log);
    } else if !s.readEnded && EndHeard(s, t) {
      LaterLog(s.log + [Ended], t.log, u.log);
    }
  }

  lemma RestComesTo(s: Sock, rev: Revents, got: Received, h: Handlers)
    requires Inv(s)
    ensures Answers(s, Rest(s, rev, got, h).0, rev, got)
  {
    ReadPartKeeps(s, rev, got, h);
    var (t, done) := if rev.readable then Readable(s, got, h) else (s, false);
    ReadableComesTo(s, got, h);
    ReadEndComesTo(t, h);
    if !done {
      HangupKeeps(t, rev, h);
      var u := if rev.hangup && !rev.readable then ReadEnd(t, h) else t;
      MaskKeeps(u, h);
      AnswersLater(s, u, MaskOf(u, h).0, rev, got);
    }
  }

  /**
    A poll, after its flush if that did not close the socket, tells what was read, hears the end, from a read or from
    a hang-up with nothing to read, and closes on a failed read; on an error event it tells that and closes.
  */
  lemma PollComesTo(s: Sock, rev: Revents, sends: seq<Sending>, got: Received, h: Handlers)
    requires Inv(s)
    ensures var t, s1 := Polled(s, rev, sends, got, h).0, if rev.writable then Flushed(s, sends, h) else s;
            if rev.bad then t.closed && s.log + [Error] <= t.log
            else if rev.writable && s1.closed then t == s1
            else Answers(s1, t, rev, got)
  {
    if rev.bad {
      FatalTells(s, h);
    } else {
      FlushedKeeps(s, sends, h);
      RestComesTo(if rev.writable then Flushed(s, sends, h) else s, rev, got, h);
    }
  }

  /** The read buffer holds 64 KiB. */
  lemma TookFirst(bytes: seq<Byte>)
    ensures Took64K(bytes) <= bytes && |Took64K(bytes)| == if |bytes| <= 0x1_0000 then |bytes| else 0x1_0000
  {
  }

  /**
    The mask that goes with a state: to be read from while the peer has not ended, to be written to while it is
    owed.
  */
  predicate MaskFits(s: Sock, mask: Option<Mask>) {
    match mask
    case None => s.closed
    case Some(m) =>
      && !s.closed && !(s.readEnded && s.wrShut)
      && (m.output <==> s.queue != [] || (s.ending && !s.wrShut))
      && (!s.readEnded ==> m.input) && (m.input || m.output) && (m.input && m.output ==> !s.readEnded)
  }

  lemma MaskComesTo(s: Sock, h: Handlers)
    requires Inv(s)
    ensures var (t, mask) := MaskOf(s, h);
            && MaskFits(t, mask) && (mask.Some? ==> t == s)
            && (s.closed || (s.readEnded && s.wrShut) <==> mask == None)
  {
    ClosingKeeps(s, h.closing);
  }

  /** The mask a poll answers with is that of the state it leaves. */
  lemma PolledMask(s: Sock, rev: Revents, sends: seq<Sending>, got: Received, h: Handlers)
    requires Inv(s)
    ensures MaskFits(Polled(s, rev, sends, got, h).0, Polled(s, rev, sends, got, h).1)
  {
    if rev.bad {
      FatalKeeps(s, h);
    } else {
      FlushedKeeps(s, sends, h);
      RestMask(if rev.writable then Flushed(s, sends, h) else s, rev, got, h);
    }
  }

  lemma RestMask(s: Sock, rev: Revents, got: Received, h: Handlers)
    requires Inv(s)
    ensures MaskFits(Rest(s, rev, got, h).0, Rest(s, rev, got, h).1)
  {
    ReadPartKeeps(s, rev, got, h);
    var (t, done) := if rev.readable then Readable(s, got, h) else (s, false);
    if !done {
      HangupKeeps(t, rev, h);
      MaskComesTo(if rev.hangup && !rev.readable then ReadEnd(t, h) else t, h);
    }
  }

  /** A poll that may write, on a socket that is ending: with the queue sent its FIN is sent, whatever else happens. */
  lemma PollEnds(s: Sock, rev: Revents, sends: seq<Sending>, got: Received, h: Handlers)
    requires Inv(s) && s.ending && !rev.bad && rev.writable && Offered(sends) >= |s.queue|
    ensures var t := Polled(s, rev, sends, got, h).0; t.wrShut && t.queue == [] && t.sent == t.accepted == s.accepted
  {
    FlushComesTo(s, sends, h);
    FlushedKeeps(s, sends, h);
    var s1 := Flushed(s, sends, h);
    if !s1.closed { RestKeeps(s1, rev, got, h); }
    PolledKeeps(s, rev, sends, got, h);
    SentAll(s1, Polled(s, rev, sends, got, h).0);
  }

  lemma SentAll(s: Sock, t: Sock)
    requires Inv(s) && Inv(t) && Grows(s, t) && s.ending && s.queue == []
    ensures t.queue == [] && t.sent == t.accepted == s.accepted
  {
    assert t.sent + t.queue == t.accepted == s.accepted && |s.sent| == |s.accepted| && |t.sent| >= |s.sent|;
  }

  /**
    Ending, at the end of any run: the next poll that may write and finds a kernel that takes what is queued sends
    every byte accepted, and then the FIN; if it hears the other side end, too, the socket is closed.
  */
  lemma EndCompletes(run: seq<Event>, e: Event)
    requires After(run).ending && e.Poll? && !e.rev.bad && e.rev.writable && Offered(e.sends) >= |After(run).queue|
    ensures var t := After(run + [e]);
            && t.wrShut && t.sent == t.accepted == After(run).accepted
            && (e.rev.readable && (e.got == Eof || e.got == Got([])) ==> t.closed)
  {
    EveryRun(run);
    assert (run + [e])[..|run|] == run;
    PollEnds(After(run), e.rev, e.sends, e.got, e.h);
    if e.rev.readable && (e.got == Eof || e.got == Got([])) { BothEnd(After(run), e.rev, e.sends, e.got, e.h); }
  }

  lemma BothEnd(s: Sock, rev: Revents, sends: seq<Sending>, got: Received, h: Handlers)
    requires Inv(s) && s.ending && !rev.bad && rev.writable && Offered(sends) >= |s.queue|
    requires rev.readable && (got == Eof || got == Got([]))
    ensures Polled(s, rev, sends, got, h).0.closed
  {
    FlushComesTo(s, sends, h);
    FlushedKeeps(s, sends, h);
    var s1 := Flushed(s, sends, h);
    if !s1.closed {
      ReadEndComesTo(s1, h);
      ReadEndKeeps(s1, h);
      MaskComesTo(ReadEnd(s1, h), h);
    }
  }

  /** What is written on an open socket that is not ending is accepted, and queued behind what is; else nothing is. */
  lemma WriteComesTo(s: Sock, u: seq<Byte>)
    requires Inv(s)
    ensures var t := Run(s, Write(u, Nothing));
            t == if s.closed || s.ending then s else s.(queue := s.queue + u, accepted := s.accepted + u)
    ensures var t := Run(s, End(Some(u), Nothing)); t.ending && t.accepted == Wrote(s, u).accepted && t.log == s.log
    ensures var t := Run(s, Destroy(Nothing, Nothing));
            t.ending && t.closed && t.log == if s.closed then s.log else s.log + [CloseFd, Closed]
  {
    assert s.log + [CloseFd] + [Closed] == s.log + [CloseFd, Closed];
    assert Closing(s.(ending := true), Nothing).closed;
  }
}
