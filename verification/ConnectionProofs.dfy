/** Safety of a connection over every run. */
module ConnectionProofs {
  import opened Common
  import opened ConnectionSpec

  // ---- a closed connection is inert ----

  lemma {:induction false} ClosedInert(mark: nat, c: Conn, s: Script)
    requires c.phase.Disconnected?
    ensures RunScript(mark, c, s) == c
    decreases s
  {
    match s
    case End =>
    case Then(call, rest) =>
      assert RunCall(mark, c, call) == c by {
        match call
        case Send(_, _, _, _, _, _) =>
        case Shutdown =>
        case ForceClose(_, _) =>
      }
      ClosedInert(mark, c, rest);
  }

  lemma CloseIs(mark: nat, c: Conn, down: Script, close: Script)
    ensures HandleClose(mark, c, down, close)
            == if c.phase.Connected? || c.phase.Disconnecting?
               then c.(phase := Disconnected, reading := false, writing := false, trace := c.trace + [Down] + [Closed])
               else c.(phase := Disconnected)
  {
    if c.phase.Connected? || c.phase.Disconnecting? {
      var c1 := Seen(c.(phase := Disconnected, reading := false, writing := false), Down);
      ClosedInert(mark, c1, down);
      ClosedInert(mark, Seen(c1, Closed), close);
    }
  }

  // ---- life cycle: forward only, each callback at most once ----

  function Rank(p: Phase): nat {
    match p case Connecting => 0 case Connected => 1 case Disconnecting => 2 case Disconnected => 3
  }

  function Count(trace: seq<Obs>, o: Obs): nat {
    multiset(trace)[o]
  }

  /** The callbacks fired so far fit the phase. */
  ghost predicate Lived(c: Conn) {
    match c.phase
    case Connecting => Count(c.trace, Up) == 0 && Count(c.trace, Down) == 0 && Count(c.trace, Closed) == 0
    case Connected => Count(c.trace, Up) == 1 && Count(c.trace, Down) == 0 && Count(c.trace, Closed) == 0
    case Disconnecting => Count(c.trace, Up) == 1 && Count(c.trace, Down) == 0 && Count(c.trace, Closed) == 0
    case Disconnected => Count(c.trace, Closed) == Count(c.trace, Down) <= Count(c.trace, Up) <= 1
  }

  ghost predicate Ages(c: Conn, d: Conn) {
    Rank(c.phase) <= Rank(d.phase) && c.trace <= d.trace && (Lived(c) ==> Lived(d))
  }

  lemma CloseAges(mark: nat, c: Conn, down: Script, close: Script)
    ensures Ages(c, HandleClose(mark, c, down, close)) && HandleClose(mark, c, down, close).phase.Disconnected?
  {
    CloseIs(mark, c, down, close);
  }

  lemma {:induction false} ScriptAges(mark: nat, c: Conn, s: Script)
    ensures Ages(c, RunScript(mark, c, s))
    decreases Size(s), 0
  {
    match s
    case End =>
    case Then(call, rest) =>
      CallAges(mark, c, call);
      ScriptAges(mark, RunCall(mark, c, call), rest);
  }

  lemma {:induction false} CallAges(mark: nat, c: Conn, call: Call)
    ensures Ages(c, RunCall(mark, c, call))
    decreases CallSize(call), 0
  {
    match call
    case Send(data, io, complete, high, down, close) =>
      if c.phase.Connected? { SendAges(mark, c, call); }
    case Shutdown =>
    case ForceClose(down, close) => CloseAges(mark, c.(phase := Disconnecting), down, close);
  }

  lemma SeenAges(c: Conn, o: Obs)
    requires o.Accepted? || o.Wrote? || o.ShutWr?
    ensures Ages(c, Seen(c, o))
  {
  }

  lemma {:induction false} QueueAges(mark: nat, c: Conn, rest: seq<Byte>, high: Script)
    ensures Ages(c, Queue(mark, c, rest, high))
    decreases Size(high), 1
  {
    ScriptAges(mark, c, high);
  }

  /** The five ways a send can go while connected. */
  lemma SendIs(mark: nat, c: Conn, call: Call)
    requires call.Send? && c.phase.Connected?
    ensures var c1 := Seen(c, Accepted(call.data));
            var direct := c1.reading && !c1.writing && c1.out == [];
            RunCall(mark, c, call) ==
              if direct && call.io.Accepts? then
                var k := Min(call.io.n, |call.data|);
                var c2 := Seen(c1, Wrote(call.data[..k]));
                if k == |call.data| then RunScript(mark, c2, call.complete) else Queue(mark, c2, call.data[k..], call.high)
              else if direct && call.io.WriteFails? then HandleClose(mark, c1, call.down, call.close)
              else if call.data == [] then c1 else Queue(mark, c1, call.data, call.high)
  {
    var c1 := Seen(c, Accepted(call.data));
    assert RunCall(mark, c, call) == SendInLoop(mark, c, call.data, call.io, call.complete, call.high, call.down, call.close);
    if c1.reading && !c1.writing && c1.out == [] {
      assert SendInLoop(mark, c, call.data, call.io, call.complete, call.high, call.down, call.close)
          == SendDirect(mark, c1, call.data, call.io, call.complete, call.high, call.down, call.close);
    }
  }

  lemma {:induction false} SendAges(mark: nat, c: Conn, call: Call)
    requires call.Send? && c.phase.Connected?
    ensures Ages(c, RunCall(mark, c, call))
    decreases CallSize(call), 0, 0
  {
    var data := call.data;
    var c1 := Seen(c, Accepted(data));
    SendIs(mark, c, call);
    SeenAges(c, Accepted(data));
    if c1.reading && !c1.writing && c1.out == [] && call.io.Accepts? {
      var k := Min(call.io.n, |data|);
      var c2 := Seen(c1, Wrote(data[..k]));
      SeenAges(c1, Wrote(data[..k]));
      if k == |data| {
        ScriptAges(mark, c2, call.complete);
      } else {
        QueueAges(mark, c2, data[k..], call.high);
      }
    } else if c1.reading && !c1.writing && c1.out == [] && call.io.WriteFails? {
      CloseAges(mark, c1, call.down, call.close);
    } else if data != [] {
      QueueAges(mark, c1, data, call.high);
    }
  }

  lemma StepAges(mark: nat, c: Conn, e: Event)
    ensures Ages(c, Step(mark, c, e))
  {
    match e
    case Establish(up) => ScriptAges(mark, Seen(c.(phase := Connected, reading := true), Up), up);
    case Dispatch(mask, read, message, io, complete, down, close) => DispatchAges(mark, c, e);
    case Api(call) => CallAges(mark, c, call);
    case Destroy =>
  }

  lemma WriteAges(mark: nat, c: Conn, e: Event)
    requires e.Dispatch?
    ensures Ages(c, HandleWrite(mark, c, e.io, e.complete, e.down, e.close))
  {
    if c.writing && c.out != [] {
      CloseAges(mark, c, e.down, e.close);
      if e.io.Accepts? {
        var k := Min(e.io.n, |c.out|);
        var c1 := c.(out := c.out[k..]);
        var c2 := Seen(c1, Wrote(c.out[..k]));
        SeenAges(c1, Wrote(c.out[..k]));
        ScriptAges(mark, c2.(writing := false), e.complete);
        SeenAges(RunScript(mark, c2.(writing := false), e.complete), ShutWr);
      }
    }
  }

  lemma DispatchAges(mark: nat, c: Conn, e: Event)
    requires e.Dispatch?
    ensures Ages(c, HandleEvent(mark, c, e))
  {
    var c1 := if e.mask.err then HandleClose(mark, c, e.down, e.close) else c;
    var c2 := if e.mask.hup && !e.mask.input then HandleClose(mark, c1, e.down, e.close) else c1;
    var c3 := if e.mask.input || e.mask.urgent then HandleRead(mark, c2, e.read, e.message, e.down, e.close) else c2;
    CloseAges(mark, c, e.down, e.close);
    CloseAges(mark, c1, e.down, e.close);
    CloseAges(mark, c2, e.down, e.close);
    ScriptAges(mark, c2, e.message);
    WriteAges(mark, c3, e);
  }

  /** Main result: on every run the phase only moves forward, and the user hears of the
      connection coming up, going down and closing at most once each, whatever masks,
      callbacks and re-entrant calls occur. */
  lemma {:induction false} RunAges(mark: nat, es: seq<Event>, n: nat)
    requires n <= |es|
    ensures Lived(Run(mark, es)) && Ages(Run(mark, es[..n]), Run(mark, es))
    ensures var t := Run(mark, es).trace; Count(t, Up) <= 1 && Count(t, Down) <= 1 && Count(t, Closed) <= 1
    decreases |es|
  {
    if n < |es| {
      var m := |es| - 1;
      RunAges(mark, es[..m], n);
      assert es[..m][..n] == es[..n];
      StepAges(mark, Run(mark, es[..m]), es[m]);
    } else {
      assert es[..n] == es;
      if es != [] {
        RunAges(mark, es[..|es| - 1], 0);
        StepAges(mark, Run(mark, es[..|es| - 1]), es[|es| - 1]);
      }
    }
  }

  // ---- bytes ----

  function AcceptedBytes(trace: seq<Obs>): seq<Byte> {
    if trace == [] then []
    else AcceptedBytes(trace[..|trace| - 1]) + if trace[|trace| - 1].Accepted? then trace[|trace| - 1].data else []
  }

  function WrittenBytes(trace: seq<Obs>): seq<Byte> {
    if trace == [] then []
    else WrittenBytes(trace[..|trace| - 1]) + if trace[|trace| - 1].Wrote? then trace[|trace| - 1].data else []
  }

  lemma BytesSnoc(trace: seq<Obs>, o: Obs)
    ensures AcceptedBytes(trace + [o]) == AcceptedBytes(trace) + if o.Accepted? then o.data else []
    ensures WrittenBytes(trace + [o]) == WrittenBytes(trace) + if o.Wrote? then o.data else []
  {
    assert (trace + [o])[..|trace|] == trace;
  }

  /** SHUT_WR is only ever seen when all accepted bytes are on the wire. */
  ghost predicate ShutAfterAll(trace: seq<Obs>) {
    forall i | 0 <= i < |trace| && trace[i].ShutWr? :: AcceptedBytes(trace[..i]) == WrittenBytes(trace[..i])
  }

  lemma ShutSnoc(trace: seq<Obs>, o: Obs)
    requires ShutAfterAll(trace) && (o.ShutWr? ==> AcceptedBytes(trace) == WrittenBytes(trace))
    ensures ShutAfterAll(trace + [o])
  {
    var t := trace + [o];
    forall i | 0 <= i < |t| && t[i].ShutWr? ensures AcceptedBytes(t[..i]) == WrittenBytes(t[..i]) {
      assert t[..i] == trace[..i];
      if i == |trace| { assert trace[..i] == trace; }
    }
  }

  /** Nothing lost, repeated or reordered: accepted is written plus queued; EPOLLOUT is
      armed exactly while something is queued. After closing, written is a prefix. */
  ghost predicate Flows(c: Conn) {
    && ShutAfterAll(c.trace)
    && match c.phase
       case Connecting => !c.reading && !c.writing && c.out == [] && AcceptedBytes(c.trace) == [] == WrittenBytes(c.trace)
       case Disconnected => !c.reading && !c.writing && WrittenBytes(c.trace) <= AcceptedBytes(c.trace)
       case _ => c.reading && (c.writing <==> c.out != []) && AcceptedBytes(c.trace) == WrittenBytes(c.trace) + c.out
  }

  /** A high-water callback that neither sends nor starts a shutdown. */
  predicate Quiet(s: Script) {
    s.Then? ==> s.call.ForceClose? && Quiet(s.rest)
  }

  predicate QuietHigh(s: Script)
    decreases Size(s), 0
  {
    s.Then? ==> QuietCall(s.call) && QuietHigh(s.rest)
  }

  predicate QuietCall(c: Call)
    decreases CallSize(c), 0
  {
    match c
    case Send(_, _, complete, high, down, close) => Quiet(high) && QuietHigh(complete)
    case _ => true
  }

  predicate QuietEvent(e: Event) {
    match e
    case Establish(up) => QuietHigh(up)
    case Dispatch(_, _, message, _, complete, _, _) => QuietHigh(message) && QuietHigh(complete)
    case Api(call) => QuietCall(call)
    case Destroy => true
  }

  lemma SeenFlows(c: Conn, o: Obs)
    requires Flows(c) && (o.Up? || o.Down? || o.Closed? || (o.ShutWr? && c.phase.Disconnecting? && c.out == []))
    ensures Flows(Seen(c, o))
  {
    BytesSnoc(c.trace, o);
    ShutSnoc(c.trace, o);
  }

  /** A close after the flow condition leaves both trace conditions in place. */
  lemma ClosedTrace(trace: seq<Obs>)
    requires ShutAfterAll(trace)
    ensures var t := trace + [Down] + [Closed];
            ShutAfterAll(t) && AcceptedBytes(t) == AcceptedBytes(trace) && WrittenBytes(t) == WrittenBytes(trace)
  {
    BytesSnoc(trace, Down);
    ShutSnoc(trace, Down);
    BytesSnoc(trace + [Down], Closed);
    ShutSnoc(trace + [Down], Closed);
  }

  lemma CloseFlows(mark: nat, c: Conn, down: Script, close: Script)
    requires ShutAfterAll(c.trace) && WrittenBytes(c.trace) <= AcceptedBytes(c.trace)
    requires c.phase.Connecting? || c.phase.Disconnected? ==> !c.reading && !c.writing
    ensures Flows(HandleClose(mark, c, down, close))
  {
    CloseIs(mark, c, down, close);
    ClosedTrace(c.trace);
  }

  /** A quiet callback either does nothing or closes. */
  lemma QuietScript(mark: nat, c: Conn, s: Script)
    requires Quiet(s) && (c.phase.Connected? || c.phase.Disconnecting?)
    ensures RunScript(mark, c, s) == c
         || RunScript(mark, c, s) == c.(phase := Disconnected, reading := false, writing := false, trace := c.trace + [Down] + [Closed])
  {
    if s.Then? {
      CloseIs(mark, c.(phase := Disconnecting), s.call.down, s.call.close);
      ClosedInert(mark, RunCall(mark, c, s.call), s.rest);
    }
  }

  /** Queueing what the socket left over restores the flow invariant. */
  lemma QueueFlows(mark: nat, c: Conn, rest: seq<Byte>, high: Script)
    requires c.phase.Connected? && Quiet(high) && rest != []
    requires c.reading && (c.writing <==> c.out != []) && ShutAfterAll(c.trace)
    requires AcceptedBytes(c.trace) == WrittenBytes(c.trace) + c.out + rest
    ensures Flows(Queue(mark, c, rest, high))
  {
    QuietScript(mark, c, high);
    ClosedTrace(c.trace);
    var all, w := AcceptedBytes(c.trace), WrittenBytes(c.trace);
    assert all == w + (c.out + rest);
  }

  lemma {:induction false} ScriptFlows(mark: nat, c: Conn, s: Script)
    requires Flows(c) && QuietHigh(s)
    ensures Flows(RunScript(mark, c, s))
    decreases Size(s), 0
  {
    match s
    case End =>
    case Then(call, rest) =>
      CallFlows(mark, c, call);
      ScriptFlows(mark, RunCall(mark, c, call), rest);
  }

  lemma {:induction false} CallFlows(mark: nat, c: Conn, call: Call)
    requires Flows(c) && QuietCall(call)
    ensures Flows(RunCall(mark, c, call))
    decreases CallSize(call), 0
  {
    match call
    case Send(data, io, complete, high, down, close) =>
      if c.phase.Connected? { SendFlows(mark, c, call); }
    case Shutdown => ShutdownFlows(c);
    case ForceClose(down, close) =>
      if c.phase.Connected? || c.phase.Disconnecting? { CloseFlows(mark, c.(phase := Disconnecting), down, close); }
  }

  lemma ShutdownFlows(c: Conn)
    requires Flows(c)
    ensures Flows(BeginShutdown(c))
  {
    if c.phase.Connected? && c.out == [] { SeenFlows(c.(phase := Disconnecting), ShutWr); }
  }

  /** Accepting data, before any of it is written. */
  lemma AcceptedFlows(c: Conn, data: seq<Byte>)
    requires Flows(c) && c.phase.Connected?
    ensures var c1 := Seen(c, Accepted(data));
            && ShutAfterAll(c1.trace) && WrittenBytes(c1.trace) <= AcceptedBytes(c1.trace)
            && AcceptedBytes(c1.trace) == WrittenBytes(c1.trace) + c1.out + data
            && (data == [] ==> Flows(c1))
  {
    BytesSnoc(c.trace, Accepted(data));
    ShutSnoc(c.trace, Accepted(data));
    assert WrittenBytes(c.trace) + c.out + data == WrittenBytes(c.trace) + (c.out + data);
  }

  /** Writing the first `k` bytes of it straight to the socket. */
  lemma WroteFlows(c: Conn, data: seq<Byte>, k: nat)
    requires Flows(c) && c.phase.Connected? && c.out == [] && k <= |data|
    ensures var c2 := Seen(Seen(c, Accepted(data)), Wrote(data[..k]));
            && ShutAfterAll(c2.trace) && AcceptedBytes(c2.trace) == WrittenBytes(c2.trace) + c2.out + data[k..]
            && (k == |data| ==> Flows(c2))
  {
    var c1 := Seen(c, Accepted(data));
    AcceptedFlows(c, data);
    BytesSnoc(c1.trace, Wrote(data[..k]));
    ShutSnoc(c1.trace, Wrote(data[..k]));
    WrittenFirst(WrittenBytes(c.trace), data, k);
  }

  lemma WrittenFirst(w: seq<Byte>, data: seq<Byte>, k: nat)
    requires k <= |data|
    ensures w + [] + data == (w + data[..k]) + [] + data[k..] && w + data[..k] <= w + [] + data
  {
    assert data == data[..k] + data[k..];
  }

  lemma {:induction false} SendFlows(mark: nat, c: Conn, call: Call)
    requires Flows(c) && c.phase.Connected? && call.Send? && QuietCall(call)
    ensures Flows(RunCall(mark, c, call))
    decreases CallSize(call), 0, 0
  {
    var data := call.data;
    var c1 := Seen(c, Accepted(data));
    SendIs(mark, c, call);
    AcceptedFlows(c, data);
    if c.out == [] && call.io.Accepts? {
      var k := Min(call.io.n, |data|);
      var c2 := Seen(c1, Wrote(data[..k]));
      WroteFlows(c, data, k);
      if k == |data| {
        ScriptFlows(mark, c2, call.complete);
      } else {
        QueueFlows(mark, c2, data[k..], call.high);
      }
    } else if c.out == [] && call.io.WriteFails? {
      CloseFlows(mark, c1, call.down, call.close);
    } else if data != [] {
      QueueFlows(mark, c1, data, call.high);
    }
  }

  lemma WriteFlows(mark: nat, c: Conn, e: Event)
    requires Flows(c) && e.Dispatch? && QuietHigh(e.complete)
    ensures Flows(HandleWrite(mark, c, e.io, e.complete, e.down, e.close))
  {
    if c.writing && c.out != [] {
      if e.io.WriteFails? {
        CloseFlows(mark, c, e.down, e.close);
      } else if e.io.Accepts? && e.io.n > 0 {
        var k := Min(e.io.n, |c.out|);
        var c1 := Seen(c.(out := c.out[k..]), Wrote(c.out[..k]));
        BytesSnoc(c.trace, Wrote(c.out[..k]));
        ShutSnoc(c.trace, Wrote(c.out[..k]));
        assert WrittenBytes(c.trace) + c.out == WrittenBytes(c.trace) + c.out[..k] + c.out[k..];
        if c1.out == [] {
          var c2 := RunScript(mark, c1.(writing := false), e.complete);
          ScriptFlows(mark, c1.(writing := false), e.complete);
          if c2.phase.Disconnecting? && c2.out == [] { SeenFlows(c2, ShutWr); }
        }
      }
    }
  }

  lemma ReadFlows(mark: nat, c: Conn, e: Event)
    requires Flows(c) && e.Dispatch? && QuietHigh(e.message)
    ensures Flows(HandleRead(mark, c, e.read, e.message, e.down, e.close))
  {
    if c.phase.Connected? {
      ScriptFlows(mark, c, e.message);
      CloseFlows(mark, c, e.down, e.close);
    }
  }

  lemma StepFlows(mark: nat, c: Conn, e: Event)
    requires Flows(c) && QuietEvent(e)
    ensures Flows(Step(mark, c, e))
  {
    match e
    case Establish(up) =>
      if c.phase.Connecting? {
        BytesSnoc(c.trace, Up);
        ShutSnoc(c.trace, Up);
        ScriptFlows(mark, Seen(c.(phase := Connected, reading := true), Up), up);
      }
    case Dispatch(mask, _, _, _, _, down, close) =>
      CloseFlows(mark, c, down, close);
      var c1 := if mask.err then HandleClose(mark, c, down, close) else c;
      CloseFlows(mark, c1, down, close);
      var c2 := if mask.hup && !mask.input then HandleClose(mark, c1, down, close) else c1;
      ReadFlows(mark, c2, e);
      WriteFlows(mark, if mask.input || mask.urgent then HandleRead(mark, c2, e.read, e.message, down, close) else c2, e);
    case Api(call) => CallFlows(mark, c, call);
    case Destroy =>
  }

  /** Main result: on every run without sends or shutdowns from a high-water callback,
      no byte is lost, repeated or reordered, EPOLLOUT is armed exactly while bytes are
      queued, and SHUT_WR never precedes an accepted byte. */
  lemma {:induction false} RunFlows(mark: nat, es: seq<Event>)
    requires forall i | 0 <= i < |es| :: QuietEvent(es[i])
    ensures Flows(Run(mark, es))
  {
    if es != [] {
      RunFlows(mark, es[..|es| - 1]);
      StepFlows(mark, Run(mark, es[..|es| - 1]), es[|es| - 1]);
    }
  }

  /** Why the high-water callback must be quiet: a send made there overtakes the bytes
      the interrupted send has not queued yet. */
  lemma HighWaterSendOvertakes(mark: nat, c: Conn, data: seq<Byte>, k: nat, extra: seq<Byte>)
    requires Flows(c) && c.phase.Connected? && c.out == []
    requires k < |data| && 0 < mark <= |data| - k
    ensures var late := Send(extra, Accepts(|extra|), End, End, End, End);
            var d := RunCall(mark, c, Send(data, Accepts(k), End, Then(late, End), End, End));
            && d.phase.Connected?
            && AcceptedBytes(d.trace) == AcceptedBytes(c.trace) + data + extra
            && WrittenBytes(d.trace) + d.out == WrittenBytes(c.trace) + data[..k] + extra + data[k..]
  {
    OvertakenState(mark, c, data, k, extra);
    var t1 := c.trace + [Accepted(data)];
    var t2 := t1 + [Wrote(data[..k])];
    BytesSnoc(c.trace, Accepted(data));
    BytesSnoc(t1, Wrote(data[..k]));
    BytesSnoc(t2, Accepted(extra));
    BytesSnoc(t2 + [Accepted(extra)], Wrote(extra));
  }

  lemma OvertakenState(mark: nat, c: Conn, data: seq<Byte>, k: nat, extra: seq<Byte>)
    requires c.phase.Connected? && c.reading && !c.writing && c.out == []
    requires k < |data| && 0 < mark <= |data| - k
    ensures var late := Send(extra, Accepts(|extra|), End, End, End, End);
            RunCall(mark, c, Send(data, Accepts(k), End, Then(late, End), End, End))
            == c.(out := data[k..], writing := true,
                  trace := c.trace + [Accepted(data)] + [Wrote(data[..k])] + [Accepted(extra)] + [Wrote(extra)])
  {
    var late := Send(extra, Accepts(|extra|), End, End, End, End);
    var c2 := Seen(Seen(c, Accepted(data)), Wrote(data[..k]));
    InnerSend(mark, c2, extra);
    assert [] + data[k..] == data[k..];
    SendIs(mark, c, Send(data, Accepts(k), End, Then(late, End), End, End));
  }

  lemma InnerSend(mark: nat, c: Conn, extra: seq<Byte>)
    requires c.phase.Connected? && c.reading && !c.writing && c.out == []
    ensures RunScript(mark, c, Then(Send(extra, Accepts(|extra|), End, End, End, End), End))
            == Seen(Seen(c, Accepted(extra)), Wrote(extra))
  {
    var late := Send(extra, Accepts(|extra|), End, End, End, End);
    assert extra[..|extra|] == extra;
    assert RunCall(mark, c, late) == RunScript(mark, Seen(Seen(c, Accepted(extra)), Wrote(extra)), End);
  }

  // ---- graceful shutdown is carried out ----

  /** A draining connection with nothing left to write has sent SHUT_WR. */
  ghost predicate Drained(c: Conn) {
    c.phase.Disconnecting? && c.out == [] ==> ShutWr in c.trace
  }

  /** While draining, callbacks can only close the connection. */
  lemma {:induction false} DrainingInert(mark: nat, c: Conn, s: Script)
    requires c.phase.Disconnecting?
    ensures RunScript(mark, c, s) == c || RunScript(mark, c, s).phase.Disconnected?
    decreases s
  {
    match s
    case End =>
    case Then(call, rest) =>
      match call
      case Send(_, _, _, _, _, _) =>
        assert RunCall(mark, c, call) == c;
        DrainingInert(mark, c, rest);
      case Shutdown =>
        assert RunCall(mark, c, call) == c;
        DrainingInert(mark, c, rest);
      case ForceClose(down, close) =>
        CloseIs(mark, c.(phase := Disconnecting), down, close);
        ClosedInert(mark, RunCall(mark, c, call), rest);
  }

  lemma QueueDrains(mark: nat, c: Conn, rest: seq<Byte>, high: Script)
    requires rest != []
    ensures Queue(mark, c, rest, high).out != []
  {
  }

  lemma {:induction false} ScriptDrains(mark: nat, c: Conn, s: Script)
    requires Drained(c)
    ensures Drained(RunScript(mark, c, s))
    decreases Size(s), 0
  {
    match s
    case End =>
    case Then(call, rest) =>
      CallDrains(mark, c, call);
      ScriptDrains(mark, RunCall(mark, c, call), rest);
  }

  lemma {:induction false} CallDrains(mark: nat, c: Conn, call: Call)
    requires Drained(c)
    ensures Drained(RunCall(mark, c, call))
    decreases CallSize(call), 0
  {
    match call
    case Send(data, io, complete, high, down, close) =>
      if c.phase.Connected? { SendDrains(mark, c, call); }
    case Shutdown =>
    case ForceClose(down, close) => CloseIs(mark, c.(phase := Disconnecting), down, close);
  }

  lemma {:induction false} SendDrains(mark: nat, c: Conn, call: Call)
    requires Drained(c) && c.phase.Connected? && call.Send?
    ensures Drained(RunCall(mark, c, call))
    decreases CallSize(call), 0, 0
  {
    var data := call.data;
    var c1 := Seen(c, Accepted(data));
    SendIs(mark, c, call);
    CloseIs(mark, c1, call.down, call.close);
    if data != [] { QueueDrains(mark, c1, data, call.high); }
    if call.io.Accepts? {
      var k := Min(call.io.n, |data|);
      var c2 := Seen(c1, Wrote(data[..k]));
      ScriptDrains(mark, c2, call.complete);
      if k < |data| { QueueDrains(mark, c2, data[k..], call.high); }
    }
  }

  lemma WriteDrains(mark: nat, c: Conn, e: Event)
    requires Drained(c) && e.Dispatch?
    ensures Drained(HandleWrite(mark, c, e.io, e.complete, e.down, e.close))
  {
    if c.writing && c.out != [] {
      CloseIs(mark, c, e.down, e.close);
      if e.io.Accepts? {
        var k := Min(e.io.n, |c.out|);
        var c1 := Seen(c.(out := c.out[k..]), Wrote(c.out[..k])).(writing := false);
        if c.phase.Disconnecting? {
          DrainingInert(mark, c1, e.complete);
        } else {
          ScriptDrains(mark, c1, e.complete);
        }
      }
    }
  }

  lemma StepDrains(mark: nat, c: Conn, e: Event)
    requires Drained(c)
    ensures Drained(Step(mark, c, e))
  {
    match e
    case Establish(up) => ScriptDrains(mark, Seen(c.(phase := Connected, reading := true), Up), up);
    case Dispatch(mask, read, message, _, _, down, close) =>
      CloseIs(mark, c, down, close);
      var c1 := if mask.err then HandleClose(mark, c, down, close) else c;
      CloseIs(mark, c1, down, close);
      var c2 := if mask.hup && !mask.input then HandleClose(mark, c1, down, close) else c1;
      CloseIs(mark, c2, down, close);
      ScriptDrains(mark, c2, message);
      WriteDrains(mark, if mask.input || mask.urgent then HandleRead(mark, c2, read, message, down, close) else c2, e);
    case Api(call) => CallDrains(mark, c, call);
    case Destroy =>
  }

  /** Main result: between events, a connection that is draining and has written
      everything has also issued SHUT_WR. */
  lemma {:induction false} RunDrains(mark: nat, es: seq<Event>)
    ensures Drained(Run(mark, es))
  {
    if es != [] {
      RunDrains(mark, es[..|es| - 1]);
      StepDrains(mark, Run(mark, es[..|es| - 1]), es[|es| - 1]);
    }
  }
}
