/**
  The write side of a net.Socket (net.c) as a state machine: what the application's calls and the poll
  loop's events do to the write FIFO and to the four flags.  Event handlers are scripts of calls made back
  into the socket while the event is being delivered; what the kernel answers is given with each event.
 */
module SocketModel {
  import opened Bytes
  import opened Options

  /** What a handler (or any code outside one) calls on the socket, in order. */
  datatype Script =
    | Nothing
    | Write(bytes: seq<Byte>, rest: Script)
    | End(last: Option<seq<Byte>>, rest: Script)
    | Destroy(closing: Script, rest: Script)  // closing: the 'close' handlers, if the call gets to emit it

  /** The handlers an event may come to run. */
  datatype Handlers = Handlers(drain: Script, data: Script, ended: Script, error: Script, closing: Script)

  /** net._send: would block, threw, or took some of the bytes (never more than it was given). */
  datatype Sending = Blocked | Broken | Took(n: nat)

  /** net._recv */
  datatype Received = Again | Failed | Eof | Got(bytes: seq<Byte>)

  datatype Revents = Revents(bad: bool, writable: bool, readable: bool, hangup: bool)

  /** What leaves the socket besides the bytes: events told to the application, the FIN and close(2). */
  datatype Output =
    | Drained | Data(bytes: seq<Byte>) | Ended | Error | Closed
    | Fin(unsent: nat, onOpen: bool)  // shutdown(SHUT_WR): the bytes still queued, and whether the fd was open
    | CloseFd

  datatype Sock = Sock(
    queue: seq<Byte>, sent: seq<Byte>, accepted: seq<Byte>,
    readEnded: bool, ending: bool, wrShut: bool, closed: bool, log: seq<Output>)

  const FRESH: Sock := Sock([], [], [], false, false, false, false, [])

  function Told(s: Sock, o: Output): Sock { s.(log := s.log + [o]) }

  // ----- the application's calls

  function Wrote(s: Sock, u: seq<Byte>): Sock {
    if s.closed || s.ending then s else s.(queue := s.queue + u, accepted := s.accepted + u)
  }

  function Finished(s: Sock, last: Option<seq<Byte>>): Sock {
    (if last.Some? then Wrote(s, last.value) else s).(ending := true)
  }

  /** _doClose */
  function Closing(s: Sock, closing: Script): Sock
    decreases closing, 1
  {
    if s.closed then s else Run(Told(Told(s.(closed := true), CloseFd), Closed), closing)
  }

  function Run(s: Sock, script: Script): Sock
    decreases script, 0
  {
    match script
    case Nothing => s
    case Write(u, rest) => Run(Wrote(s, u), rest)
    case End(last, rest) => Run(Finished(s, last), rest)
    case Destroy(closing, rest) => Run(Closing(s.(ending := true), closing), rest)
  }

  // ----- the poll loop's events

  function SentSome(s: Sock, n: nat): Sock {
    var k := if n <= |s.queue| then n else |s.queue|;
    s.(queue := s.queue[k..], sent := s.sent + s.queue[..k])
  }

  /** The send loop of _flush; true when a send threw. */
  function Pumped(s: Sock, sends: seq<Sending>): (Sock, bool)
    decreases |sends|
  {
    if s.queue == [] || sends == [] then (s, false)
    else
      match sends[0]
      case Blocked => (s, false)
      case Broken => (s, true)
      case Took(n) => Pumped(SentSome(s, n), sends[1..])
  }

  /** _fatal */
  function Fatal(s: Sock, h: Handlers): Sock { Closing(Run(Told(s, Error), h.error), h.closing) }

  /** The end of _flush, once 'drain' has been told. */
  function MaybeFin(s: Sock): Sock {
    if s.ending && !s.wrShut then Told(s.(wrShut := true), Fin(|s.queue|, !s.closed)) else s
  }

  function Flushed(s: Sock, sends: seq<Sending>, h: Handlers): Sock {
    var (p, threw) := Pumped(s, sends);
    if threw then Fatal(p, h)
    else if p.queue == [] then MaybeFin(Run(Told(p, Drained), h.drain))
    else p
  }

  /** _readEnd */
  function ReadEnd(s: Sock, h: Handlers): Sock {
    if s.readEnded then s else Finished(Run(Told(s.(readEnded := true), Ended), h.ended), None)
  }

  /** The event mask _mask asks for; None is 0, and the poll loop forgets the fd. */
  datatype Mask = Mask(input: bool, output: bool)

  function MaskOf(s: Sock, h: Handlers): (Sock, Option<Mask>) {
    if s.closed then (s, None)
    else if s.readEnded && s.wrShut then (Closing(s, h.closing), None)
    else
      var output := |s.queue| > 0 || (s.ending && !s.wrShut);
      (s, Some(Mask(!s.readEnded || !output, output)))
  }

  function Took64K(bytes: seq<Byte>): seq<Byte> { if |bytes| <= 65536 then bytes else bytes[..65536] }

  /** The POLLIN part of _poll; true when it ends the poll. */
  function Readable(s: Sock, got: Received, h: Handlers): (Sock, bool) {
    match got
    case Failed => (Fatal(s, h), true)
    case Again => (s, false)
    case Eof => (ReadEnd(s, h), false)
    case Got(bytes) =>
      if bytes == [] then (ReadEnd(s, h), false) else (Run(Told(s, Data(Took64K(bytes))), h.data), false)
  }

  /** _poll, after its flush. */
  function Rest(s: Sock, rev: Revents, got: Received, h: Handlers): (Sock, Option<Mask>) {
    var (t, done) := if rev.readable then Readable(s, got, h) else (s, false);
    if done then (t, None) else MaskOf(if rev.hangup && !rev.readable then ReadEnd(t, h) else t, h)
  }

  /** _poll */
  function Polled(s: Sock, rev: Revents, sends: seq<Sending>, got: Received, h: Handlers): (Sock, Option<Mask>) {
    if rev.bad then (Fatal(s, h), None)
    else
      var s1 := if rev.writable then Flushed(s, sends, h) else s;
      if rev.writable && s1.closed then (s1, None) else Rest(s1, rev, got, h)
  }

  // ----- runs

  datatype Event =
    | Calls(script: Script)
    | Poll(rev: Revents, sends: seq<Sending>, got: Received, h: Handlers)

  function Next(s: Sock, e: Event): Sock {
    match e
    case Calls(script) => Run(s, script)
    case Poll(rev, sends, got, h) => Polled(s, rev, sends, got, h).0
  }

  /** The socket after a run, from its constructor. */
  function After(run: seq<Event>): Sock {
    if run == [] then FRESH else Next(After(run[..|run| - 1]), run[|run| - 1])
  }
}
