/** A TCP connection on its loop thread. The environment decides how much each `write`
    accepts, what each read returns, which event mask arrives, and what the user's
    callbacks do: a callback is a script of further calls, nested to any depth. */
module ConnectionSpec {
  import opened Common

  datatype Phase = Connecting | Connected | Disconnecting | Disconnected

  datatype WriteResult = Accepts(n: nat) | WouldBlock | WriteFails
  datatype ReadOutcome = Bytes | Eof | Again | ReadFails

  /** What the peer and the user can see, in order. */
  datatype Obs = Accepted(data: seq<Byte>) | Wrote(data: seq<Byte>) | ShutWr | Up | Down | Closed

  /** Calls made by a callback. Each carries the scripts of the callbacks it may trigger:
      write complete, high water mark, connection down, close. */
  datatype Script = End | Then(call: Call, rest: Script)
  datatype Call =
    | Send(data: seq<Byte>, io: WriteResult, complete: Script, high: Script, down: Script, close: Script)
    | Shutdown
    | ForceClose(down: Script, close: Script)

  datatype Conn = Conn(phase: Phase, out: seq<Byte>, reading: bool, writing: bool, trace: seq<Obs>)

  const NEW := Conn(Connecting, [], false, false, [])

  function Size(s: Script): nat {
    match s
    case End => 0
    case Then(call, rest) => 1 + CallSize(call) + Size(rest)
  }

  function CallSize(c: Call): nat {
    match c
    case Send(_, _, complete, high, down, close) => 3 + Size(complete) + Size(high) + Size(down) + Size(close)
    case Shutdown => 1
    case ForceClose(down, close) => 3 + Size(down) + Size(close)
  }

  function Seen(c: Conn, o: Obs): Conn {
    c.(trace := c.trace + [o])
  }

  // ---- calls ----

  /** `mark` is the high water mark. */
  function RunScript(mark: nat, c: Conn, s: Script): Conn
    decreases Size(s), 0
  {
    match s
    case End => c
    case Then(call, rest) => RunScript(mark, RunCall(mark, c, call), rest)
  }

  function RunCall(mark: nat, c: Conn, call: Call): Conn
    decreases CallSize(call), 0
  {
    match call
    case Send(data, io, complete, high, down, close) => SendInLoop(mark, c, data, io, complete, high, down, close)
    case Shutdown => BeginShutdown(c)
    case ForceClose(down, close) =>
      if c.phase.Connected? || c.phase.Disconnecting?
      then HandleClose(mark, c.(phase := Disconnecting), down, close)
      else c
  }

  function HandleClose(mark: nat, c: Conn, down: Script, close: Script): Conn
    decreases Size(down) + Size(close) + 1, 0
  {
    if !c.phase.Connected? && !c.phase.Disconnecting? then c.(phase := Disconnected)
    else
      var c1 := Seen(c.(phase := Disconnected, reading := false, writing := false), Down);
      var c2 := Seen(RunScript(mark, c1, down), Closed);
      RunScript(mark, c2, close)
  }

  function Min(a: nat, b: nat): nat { if a <= b then a else b }

  function SendInLoop(mark: nat, c: Conn, data: seq<Byte>, io: WriteResult,
                      complete: Script, high: Script, down: Script, close: Script): Conn
    decreases Size(complete) + Size(high) + Size(down) + Size(close) + 2, 1
  {
    if !c.phase.Connected? then c
    else
      var c1 := Seen(c, Accepted(data));
      if c1.reading && !c1.writing && c1.out == [] then SendDirect(mark, c1, data, io, complete, high, down, close)
      else if data == [] then c1
      else Queue(mark, c1, data, high)
  }

  /** Nothing is queued: try the socket first. */
  function SendDirect(mark: nat, c: Conn, data: seq<Byte>, io: WriteResult,
                      complete: Script, high: Script, down: Script, close: Script): Conn
    decreases Size(complete) + Size(high) + Size(down) + Size(close) + 2, 0
  {
    match io
    case Accepts(n) =>
      var k := Min(n, |data|);
      var c1 := Seen(c, Wrote(data[..k]));
      if k == |data| then RunScript(mark, c1, complete) else Queue(mark, c1, data[k..], high)
    case WouldBlock => if data == [] then c else Queue(mark, c, data, high)
    case WriteFails => HandleClose(mark, c, down, close)
  }

  /** Appends what the socket did not take and arms EPOLLOUT. */
  function Queue(mark: nat, c: Conn, rest: seq<Byte>, high: Script): Conn
    decreases Size(high), 1
  {
    var c1 := if |c.out| + |rest| >= mark && |c.out| < mark then RunScript(mark, c, high) else c;
    var c2 := c1.(out := c1.out + rest);
    if c2.reading && !c2.writing then c2.(writing := true) else c2
  }

  function BeginShutdown(c: Conn): Conn {
    if c.phase.Connected? then ShutdownInLoop(c.(phase := Disconnecting)) else c
  }

  function ShutdownInLoop(c: Conn): Conn {
    if c.phase.Disconnecting? && c.out == [] then Seen(c, ShutWr) else c
  }

  // ---- events ----

  function HandleWrite(mark: nat, c: Conn, io: WriteResult, complete: Script, down: Script, close: Script): Conn {
    if !c.writing || c.out == [] then c
    else
      match io
      case Accepts(n) =>
        var k := Min(n, |c.out|);
        if k == 0 then c
        else
          var c1 := Seen(c.(out := c.out[k..]), Wrote(c.out[..k]));
          if c1.out != [] then c1
          else ShutdownInLoop(RunScript(mark, c1.(writing := false), complete))
      case WouldBlock => c
      case WriteFails => HandleClose(mark, c, down, close)
  }

  function HandleRead(mark: nat, c: Conn, r: ReadOutcome, message: Script, down: Script, close: Script): Conn {
    if !c.phase.Connected? then c
    else
      match r
      case Bytes => RunScript(mark, c, message)
      case Eof => HandleClose(mark, c, down, close)
      case Again => c
      case ReadFails => HandleClose(mark, c, down, close)
  }

  function Established(mark: nat, c: Conn, up: Script): Conn {
    if !c.phase.Connecting? then c
    else RunScript(mark, Seen(c.(phase := Connected, reading := true), Up), up)
  }

  function Destroyed(c: Conn): Conn {
    if c.phase.Connected? || c.phase.Disconnecting?
    then c.(phase := Disconnected, reading := false, writing := false) else c
  }

  /** One epoll result: any mix of error, hang-up, input, urgent input and output. */
  datatype Mask = Mask(err: bool, hup: bool, input: bool, urgent: bool, output: bool)

  datatype Event =
    | Establish(up: Script)
    | Dispatch(mask: Mask, read: ReadOutcome, message: Script, io: WriteResult, complete: Script, down: Script, close: Script)
    | Api(call: Call)
    | Destroy

  /** `Channel::handle_event_with_guard`: error, hang-up without input, input, output. */
  function HandleEvent(mark: nat, c: Conn, e: Event): Conn
    requires e.Dispatch?
  {
    var c1 := if e.mask.err then HandleClose(mark, c, e.down, e.close) else c;
    var c2 := if e.mask.hup && !e.mask.input then HandleClose(mark, c1, e.down, e.close) else c1;
    var c3 := if e.mask.input || e.mask.urgent then HandleRead(mark, c2, e.read, e.message, e.down, e.close) else c2;
    if e.mask.output then HandleWrite(mark, c3, e.io, e.complete, e.down, e.close) else c3
  }

  function Step(mark: nat, c: Conn, e: Event): Conn {
    match e
    case Establish(up) => Established(mark, c, up)
    case Dispatch(_, _, _, _, _, _, _) => HandleEvent(mark, c, e)
    case Api(call) => RunCall(mark, c, call)
    case Destroy => Destroyed(c)
  }

  function Run(mark: nat, es: seq<Event>): Conn {
    if es == [] then NEW else Step(mark, Run(mark, es[..|es| - 1]), es[|es| - 1])
  }
}
