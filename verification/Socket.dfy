/** net.Socket itself (net.c): the two byte cursors, the flags, and the methods that are SocketModel's steps. */
module Sockets {
  import opened Bytes
  import opened Options
  import opened Buffer
  import opened SocketModel
  import opened SocketSafety

  const BACKPRESSURE: nat := 0x40000  // 256 << 10

  /** Twice the capacity there is, or what is needed if that is more. */
  function More(cap: nat, need: nat): (n: nat)
    ensures n >= need && n >= 2 * cap && (n == need || n == 2 * cap)
  {
    if 2 * cap >= need then 2 * cap else need
  }

  class Socket {
    const rb: Buf
    const wb: Buf
    var readEnded: bool
    var ending: bool
    var wrShut: bool
    var closed: bool
    ghost var sent: seq<Byte>
    ghost var accepted: seq<Byte>
    ghost var log: seq<Output>

    ghost predicate Valid()
      reads this, rb, wb
    {
      && rb != wb && rb.bytes != wb.bytes && rb.Valid() && wb.Valid() && rb.cap == 65536
    }

    /** The state the model speaks of. */
    ghost function Now(): Sock
      requires Valid()
      reads this, rb, wb, wb.bytes
    {
      Sock(wb.Data(), sent, accepted, readEnded, ending, wrShut, closed, log)
    }

    constructor ()
      ensures Valid() && Now() == FRESH
      ensures fresh(rb) && fresh(wb) && fresh(rb.bytes) && fresh(wb.bytes)
    {
      rb := new Buf.Into(65536);
      wb := new Buf.Into(65536);
      readEnded, ending, wrShut, closed := false, false, false, false;
      sent, accepted, log := [], [], [];
    }

    /** Compacts the FIFO, then grows it geometrically, until n bytes fit. */
    method MakeRoom(n: nat)
      requires Valid()
      modifies wb, wb.bytes
      ensures Valid() && wb.Data() == old(wb.Data()) && wb.Room() >= n
      ensures wb.bytes == old(wb.bytes) || fresh(wb.bytes)
      ensures wb.cap == if old(wb.Size()) + n <= old(wb.cap) then old(wb.cap) else More(old(wb.cap), old(wb.Size()) + n)
    {
      if n > wb.Room() {
        wb.Shift();
        if n > wb.Room() {
          wb.Grow(if wb.cap * 2 >= wb.Size() + n then wb.cap * 2 else wb.Size() + n);
        }
      }
    }

    /** write; false for a refusal, or as the hint to hold back. */
    method Send(u: seq<Byte>) returns (ok: bool)
      requires Valid()
      modifies this`accepted, wb, wb.bytes
      ensures Valid() && Now() == Wrote(old(Now()), u)
      ensures ok == (!closed && !ending && |Now().queue| < BACKPRESSURE)
      ensures wb.bytes == old(wb.bytes) || fresh(wb.bytes)
    {
      if closed || ending { return false; }
      MakeRoom(|u|);
      var thrown := wb.Feed(u);
      assert thrown == Fine;
      accepted := accepted + u;
      return wb.Size() < BACKPRESSURE;
    }

    /** end */
    method Finish(last: Option<seq<Byte>>)
      requires Valid()
      modifies this`accepted, this`ending, wb, wb.bytes
      ensures Valid() && Now() == Finished(old(Now()), last)
      ensures wb.bytes == old(wb.bytes) || fresh(wb.bytes)
    {
      if last.Some? {
        var _ := Send(last.value);
      }
      ending := true;
    }

    method Tell(o: Output)
      requires Valid()
      modifies this`log
      ensures Valid() && Now() == Told(old(Now()), o)
    {
      log := log + [o];
    }

    /** _doClose */
    method DoClose(closing: Script)
      requires Valid()
      modifies this`accepted, this`ending, this`closed, this`log, wb, wb.bytes
      ensures Valid() && Now() == Closing(old(Now()), closing)
      ensures wb.bytes == old(wb.bytes) || fresh(wb.bytes)
      decreases closing, 1
    {
      if closed { return; }
      closed := true;
      Tell(CloseFd);
      Tell(Closed);
      Emit(closing);
    }

    /** The handlers of an event, called one after the other. */
    method Emit(script: Script)
      requires Valid()
      modifies this`accepted, this`ending, this`closed, this`log, wb, wb.bytes
      ensures Valid() && Now() == Run(old(Now()), script)
      ensures wb.bytes == old(wb.bytes) || fresh(wb.bytes)
      decreases script, 0
    {
      match script {
        case Nothing =>
        case Write(u, rest) =>
          var _ := Send(u);
          Emit(rest);
        case End(last, rest) =>
          Finish(last);
          Emit(rest);
        case Destroy(closing, rest) =>
          ending := true;
          DoClose(closing);
          Emit(rest);
      }
    }

    /** A send took the first n queued bytes, or all there are. */
    method Went(n: nat)
      requires Valid()
      modifies this`sent, wb`front
      ensures Valid() && Now() == SentSome(old(Now()), n)
    {
      var k := if n <= wb.Size() then n else wb.Size();
      ghost var was := wb.Data();
      var thrown, out := wb.Take(k);
      assert out == was[..k] && wb.Data() == was[k..];
      sent := sent + out;
    }

    /** The send loop of _flush. */
    method Pump(sends: seq<Sending>) returns (threw: bool)
      requires Valid()
      modifies this`sent, wb`front
      ensures Valid() && Pumped(old(Now()), sends) == (Now(), threw)
    {
      var i := 0;
      threw := false;
      ghost var start := Now();
      while wb.Size() > 0 && i < |sends| && !sends[i].Blocked? && !threw
        invariant Valid() && i <= |sends|
        invariant Pumped(start, sends) == if threw then (Now(), true) else Pumped(Now(), sends[i..])
        decreases |sends| - i, !threw
      {
        assert sends[i..][1..] == sends[i + 1..];
        if sends[i].Broken? {
          threw := true;
        } else {
          Went(sends[i].n);
          i := i + 1;
        }
      }
    }

    /** _fatal */
    method DoFatal(h: Handlers)
      requires Valid()
      modifies this`accepted, this`ending, this`closed, this`log, wb, wb.bytes
      ensures Valid() && Now() == Fatal(old(Now()), h)
      ensures wb.bytes == old(wb.bytes) || fresh(wb.bytes)
    {
      Tell(Error);
      Emit(h.error);
      DoClose(h.closing);
    }

    /** _flush */
    method Flush(sends: seq<Sending>, h: Handlers)
      requires Valid()
      modifies this, wb, wb.bytes
      ensures Valid() && Now() == Flushed(old(Now()), sends, h)
      ensures Inv(old(Now())) && Offered(sends) >= |old(Now()).queue| ==> (ending ==> wrShut)
      ensures wb.bytes == old(wb.bytes) || fresh(wb.bytes)
    {
      ghost var s := Now();
      if Inv(s) { FlushComesTo(s, sends, h); }
      var threw := Pump(sends);
      if threw {
        DoFatal(h);
        return;
      }
      if wb.Size() == 0 {
        Drain(h);
      }
    }

    /** The rest of _flush, the FIFO empty. */
    method Drain(h: Handlers)
      requires Valid() && wb.Size() == 0
      modifies this, wb, wb.bytes
      ensures Valid() && Now() == MaybeFin(Run(Told(old(Now()), Drained), h.drain))
      ensures wb.bytes == old(wb.bytes) || fresh(wb.bytes)
    {
      assert wb.Data() == [];
      wb.Reset();
      Tell(Drained);
      Emit(h.drain);
      if ending && !wrShut {
        wrShut := true;
        Tell(Fin(wb.Size(), !closed));
      }
    }

    /** _readEnd */
    method DoReadEnd(h: Handlers)
      requires Valid()
      modifies this, wb, wb.bytes
      ensures Valid() && Now() == ReadEnd(old(Now()), h)
      ensures wb.bytes == old(wb.bytes) || fresh(wb.bytes)
    {
      if readEnded { return; }
      readEnded := true;
      Tell(Ended);
      Emit(h.ended);
      Finish(None);
    }

    /** _mask */
    method AskMask(h: Handlers) returns (mask: Option<Mask>)
      requires Valid()
      modifies this, wb, wb.bytes
      ensures Valid() && MaskOf(old(Now()), h) == (Now(), mask)
      ensures wb.bytes == old(wb.bytes) || fresh(wb.bytes)
    {
      if closed { return None; }
      if readEnded && wrShut {
        DoClose(h.closing);
        return None;
      }
      var input, output := !readEnded, wb.Size() > 0 || (ending && !wrShut);
      return Some(Mask(input || !output, output));
    }

    /** recv into the recycled read buffer, and what comes of it. */
    method Receive(got: Received, h: Handlers) returns (done: bool)
      requires Valid()
      modifies this, wb, wb.bytes, rb`front, rb`idle, rb.bytes
      ensures Valid() && Readable(old(Now()), got, h) == (Now(), done)
      ensures wb.bytes == old(wb.bytes) || fresh(wb.bytes)
    {
      rb.Reset();
      match got {
        case Failed =>
          DoFatal(h);
          return true;
        case Again =>
        case Eof =>
          DoReadEnd(h);
        case Got(bytes) =>
          if bytes == [] {
            DoReadEnd(h);
          } else {
            var n := if |bytes| <= rb.Room() then |bytes| else rb.Room();
            SetBytes(rb.bytes, 0, bytes[..n]);
            var _ := rb.Fed(n);
            assert rb.Data() == Took64K(bytes);
            Tell(Data(rb.bytes[rb.front..rb.idle]));
            Emit(h.data);
          }
      }
      return false;
    }

    /** _poll */
    method Poll(rev: Revents, sends: seq<Sending>, got: Received, h: Handlers) returns (mask: Option<Mask>)
      requires Valid()
      modifies this, wb, wb.bytes, rb`front, rb`idle, rb.bytes
      ensures Valid() && Polled(old(Now()), rev, sends, got, h) == (Now(), mask)
      ensures Inv(old(Now())) ==> MaskFits(Now(), mask)
      ensures wb.bytes == old(wb.bytes) || fresh(wb.bytes)
    {
      ghost var s := Now();
      if Inv(s) { PolledMask(s, rev, sends, got, h); }
      if rev.bad {
        DoFatal(h);
        return None;
      }
      if rev.writable {
        Flush(sends, h);
        if closed { return None; }
      }
      mask := AfterFlush(rev, got, h);
    }

    method AfterFlush(rev: Revents, got: Received, h: Handlers) returns (mask: Option<Mask>)
      requires Valid()
      modifies this, wb, wb.bytes, rb`front, rb`idle, rb.bytes
      ensures Valid() && Rest(old(Now()), rev, got, h) == (Now(), mask)
      ensures wb.bytes == old(wb.bytes) || fresh(wb.bytes)
    {
      if rev.readable {
        var done := Receive(got, h);
        if done { return None; }
      }
      if rev.hangup && !rev.readable {
        DoReadEnd(h);
      }
      mask := AskMask(h);
    }
  }

  /** A socket taken through a run, its events in order, ends as the model says. */
  method Drive(run: seq<Event>) returns (s: Socket)
    ensures s.Valid() && s.Now() == After(run)
  {
    s := new Socket();
    for i := 0 to |run|
      invariant s.Valid() && s.Now() == After(run[..i])
      invariant fresh(s) && fresh(s.wb) && fresh(s.rb) && fresh(s.wb.bytes) && fresh(s.rb.bytes)
    {
      assert run[..i + 1][..i] == run[..i];
      match run[i] {
        case Calls(script) => s.Emit(script);
        case Poll(rev, sends, got, h) => var _ := s.Poll(rev, sends, got, h);
      }
    }
    assert run[..|run|] == run;
  }
}
