/** What holds of a connection whatever its callbacks do, high-water callback included:
    no byte is lost or written twice, and EPOLLOUT is armed exactly when bytes wait. */
module ConnectionConservation {
  import opened Common
  import opened ConnectionSpec
  import opened ConnectionProofs

  /** `owed` are the bytes an interrupted send has yet to queue. */
  ghost predicate Sound(c: Conn, owed: multiset<Byte>) {
    && (c.phase.Connecting? ==> c.out == [])
    && (c.phase.Connecting? || c.phase.Disconnected? ==> !c.reading && !c.writing)
    && (c.phase.Connected? || c.phase.Disconnecting? ==> c.reading && (c.writing <==> c.out != []))
    && if c.phase.Disconnected? then multiset(WrittenBytes(c.trace)) <= multiset(AcceptedBytes(c.trace))
       else multiset(AcceptedBytes(c.trace)) == multiset(WrittenBytes(c.trace)) + multiset(c.out) + owed
  }

  lemma CloseSound(mark: nat, c: Conn, down: Script, close: Script, owed: multiset<Byte>)
    requires Sound(c, owed)
    ensures Sound(HandleClose(mark, c, down, close), owed) && HandleClose(mark, c, down, close).phase.Disconnected?
  {
    CloseIs(mark, c, down, close);
    BytesSnoc(c.trace, Down);
    BytesSnoc(c.trace + [Down], Closed);
  }

  /** Also for a connection on its way into the close. */
  lemma ForceCloseSound(mark: nat, c: Conn, call: Call, owed: multiset<Byte>)
    requires Sound(c, owed) && call.ForceClose?
    ensures Sound(RunCall(mark, c, call), owed)
  {
    if c.phase.Connected? || c.phase.Disconnecting? {
      CloseSound(mark, c.(phase := Disconnecting), call.down, call.close, owed);
    }
  }

  lemma {:induction false} ScriptSound(mark: nat, c: Conn, s: Script, owed: multiset<Byte>)
    requires Sound(c, owed)
    ensures Sound(RunScript(mark, c, s), owed)
    ensures !c.phase.Connecting? ==> !RunScript(mark, c, s).phase.Connecting?
    decreases Size(s), 0
  {
    ScriptAges(mark, c, s);
    match s
    case End =>
    case Then(call, rest) =>
      CallSound(mark, c, call, owed);
      ScriptSound(mark, RunCall(mark, c, call), rest, owed);
  }

  lemma {:induction false} CallSound(mark: nat, c: Conn, call: Call, owed: multiset<Byte>)
    requires Sound(c, owed)
    ensures Sound(RunCall(mark, c, call), owed)
    ensures !c.phase.Connecting? ==> !RunCall(mark, c, call).phase.Connecting?
    decreases CallSize(call), 0
  {
    CallAges(mark, c, call);
    match call
    case Send(_, _, _, _, _, _) => if c.phase.Connected? { SendSound(mark, c, call, owed); }
    case Shutdown => ShutdownSound(c, owed);
    case ForceClose(_, _) => ForceCloseSound(mark, c, call, owed);
  }

  lemma ShutdownSound(c: Conn, owed: multiset<Byte>)
    requires Sound(c, owed)
    ensures Sound(BeginShutdown(c), owed) && Sound(ShutdownInLoop(c), owed)
  {
    BytesSnoc(c.trace, ShutWr);
  }

  lemma PaySound(c: Conn, rest: seq<Byte>, owed: multiset<Byte>)
    requires Sound(c, owed + multiset(rest)) && !c.phase.Connecting? && rest != []
    ensures var c2 := c.(out := c.out + rest); Sound(if c2.reading && !c2.writing then c2.(writing := true) else c2, owed)
  {
    assert multiset(c.out + rest) == multiset(c.out) + multiset(rest);
  }

  /** Queueing pays what is owed, after whatever the high-water callback did. */
  lemma {:induction false} QueueSound(mark: nat, c: Conn, rest: seq<Byte>, high: Script, owed: multiset<Byte>)
    requires Sound(c, owed + multiset(rest)) && c.phase.Connected? && rest != []
    ensures Sound(Queue(mark, c, rest, high), owed)
    decreases Size(high), 1
  {
    if |c.out| + |rest| >= mark && |c.out| < mark {
      ScriptSound(mark, c, high, owed + multiset(rest));
      PaySound(RunScript(mark, c, high), rest, owed);
    } else {
      PaySound(c, rest, owed);
    }
  }

  /** Accepting `data` leaves all of it owed; writing its first `k` bytes leaves the rest. */
  lemma AcceptedSound(c: Conn, data: seq<Byte>, k: nat, owed: multiset<Byte>)
    requires Sound(c, owed) && c.phase.Connected? && k <= |data|
    ensures var c1 := Seen(c, Accepted(data));
            Sound(c1, owed + multiset(data)) && Sound(Seen(c1, Wrote(data[..k])), owed + multiset(data[k..]))
  {
    BytesSnoc(c.trace, Accepted(data));
    WroteSound(Seen(c, Accepted(data)), data, k, owed);
  }

  lemma WroteSound(c: Conn, data: seq<Byte>, k: nat, owed: multiset<Byte>)
    requires Sound(c, owed + multiset(data)) && c.phase.Connected? && k <= |data|
    ensures Sound(Seen(c, Wrote(data[..k])), owed + multiset(data[k..]))
  {
    BytesSnoc(c.trace, Wrote(data[..k]));
    assert data == data[..k] + data[k..];
  }

  lemma {:induction false} SendSound(mark: nat, c: Conn, call: Call, owed: multiset<Byte>)
    requires Sound(c, owed) && c.phase.Connected? && call.Send?
    ensures Sound(RunCall(mark, c, call), owed)
    decreases CallSize(call), 0, 0
  {
    var data := call.data;
    var k := if call.io.Accepts? then Min(call.io.n, |data|) else 0;
    var c1 := Seen(c, Accepted(data));
    SendIs(mark, c, call);
    AcceptedSound(c, data, k, owed);
    if c.out == [] && call.io.Accepts? {
      var c2 := Seen(c1, Wrote(data[..k]));
      if k == |data| {
        assert owed + multiset(data[k..]) == owed;
        ScriptSound(mark, c2, call.complete, owed);
      } else {
        QueueSound(mark, c2, data[k..], call.high, owed);
      }
    } else if c.out == [] && call.io.WriteFails? {
      CloseSound(mark, c1, call.down, call.close, owed + multiset(data));
    } else if data == [] {
      assert owed + multiset(data) == owed;
    } else {
      QueueSound(mark, c1, data, call.high, owed);
    }
  }

  /** The socket takes all that is queued. */
  function Emptied(c: Conn): Conn {
    Seen(c.(out := [], writing := false), Wrote(c.out))
  }

  lemma WholeWriteIs(mark: nat, c: Conn, e: Event)
    requires e.Dispatch? && c.writing && c.out != [] && e.io.Accepts? && e.io.n >= |c.out|
    ensures HandleWrite(mark, c, e.io, e.complete, e.down, e.close)
            == ShutdownInLoop(RunScript(mark, Emptied(c), e.complete))
  {
    assert c.out[..|c.out|] == c.out && c.out[|c.out|..] == [];
  }

  lemma WholeWriteSound(c: Conn)
    requires Sound(c, multiset{}) && c.writing && c.out != []
    ensures Sound(Emptied(c), multiset{})
  {
    BytesSnoc(c.trace, Wrote(c.out));
  }

  lemma PartWriteSound(c: Conn, k: nat)
    requires Sound(c, multiset{}) && c.writing && k < |c.out|
    ensures Sound(Seen(c.(out := c.out[k..]), Wrote(c.out[..k])), multiset{})
  {
    BytesSnoc(c.trace, Wrote(c.out[..k]));
    assert c.out == c.out[..k] + c.out[k..];
  }

  lemma WriteSound(mark: nat, c: Conn, e: Event)
    requires Sound(c, multiset{}) && e.Dispatch?
    ensures Sound(HandleWrite(mark, c, e.io, e.complete, e.down, e.close), multiset{})
  {
    if c.writing && c.out != [] {
      if e.io.WriteFails? {
        CloseSound(mark, c, e.down, e.close, multiset{});
      } else if e.io.Accepts? && e.io.n >= |c.out| {
        WholeWriteIs(mark, c, e);
        WholeWriteSound(c);
        ScriptSound(mark, Emptied(c), e.complete, multiset{});
        ShutdownSound(RunScript(mark, Emptied(c), e.complete), multiset{});
      } else if e.io.Accepts? && e.io.n > 0 {
        PartWriteSound(c, e.io.n);
      }
    }
  }

  lemma ReadSound(mark: nat, c: Conn, e: Event)
    requires Sound(c, multiset{}) && e.Dispatch?
    ensures Sound(HandleRead(mark, c, e.read, e.message, e.down, e.close), multiset{})
  {
    if c.phase.Connected? {
      ScriptSound(mark, c, e.message, multiset{});
      CloseSound(mark, c, e.down, e.close, multiset{});
    }
  }

  lemma DispatchSound(mark: nat, c: Conn, e: Event)
    requires Sound(c, multiset{}) && e.Dispatch?
    ensures Sound(HandleEvent(mark, c, e), multiset{})
  {
    CloseSound(mark, c, e.down, e.close, multiset{});
    var c1 := if e.mask.err then HandleClose(mark, c, e.down, e.close) else c;
    CloseSound(mark, c1, e.down, e.close, multiset{});
    var c2 := if e.mask.hup && !e.mask.input then HandleClose(mark, c1, e.down, e.close) else c1;
    ReadSound(mark, c2, e);
    WriteSound(mark, if e.mask.input || e.mask.urgent then HandleRead(mark, c2, e.read, e.message, e.down, e.close) else c2, e);
  }

  lemma StepSound(mark: nat, c: Conn, e: Event)
    requires Sound(c, multiset{})
    ensures Sound(Step(mark, c, e), multiset{})
  {
    match e
    case Establish(up) =>
      if c.phase.Connecting? {
        BytesSnoc(c.trace, Up);
        ScriptSound(mark, Seen(c.(phase := Connected, reading := true), Up), up, multiset{});
      }
    case Dispatch(_, _, _, _, _, _, _) => DispatchSound(mark, c, e);
    case Api(call) => CallSound(mark, c, call, multiset{});
    case Destroy =>
  }

  /** Main result: on every run, with any callbacks at any depth, EPOLLOUT is armed exactly
      when the output buffer is non-empty while the connection is up or draining, and the
      bytes accepted are those written and those waiting, none lost and none twice. */
  lemma {:induction false} RunConserves(mark: nat, es: seq<Event>)
    ensures Sound(Run(mark, es), multiset{})
  {
    if es != [] {
      RunConserves(mark, es[..|es| - 1]);
      StepSound(mark, Run(mark, es[..|es| - 1]), es[|es| - 1]);
    }
  }

  /** Why order and shutdown need a quiet high-water callback: a shutdown requested there
      sends SHUT_WR while the rest of the interrupted send is still to be written. */
  lemma HighWaterShutdownTooEarly(mark: nat, c: Conn, data: seq<Byte>, k: nat)
    requires Flows(c) && c.phase.Connected? && c.out == []
    requires k < |data| && 0 < mark <= |data| - k
    ensures var d := RunCall(mark, c, Send(data, Accepts(k), End, Then(Shutdown, End), End, End));
            && !ShutAfterAll(d.trace) && d.trace == c.trace + [Accepted(data)] + [Wrote(data[..k])] + [ShutWr]
  {
    var call := Send(data, Accepts(k), End, Then(Shutdown, End), End, End);
    var c2 := Seen(Seen(c, Accepted(data)), Wrote(data[..k]));
    SendIs(mark, c, call);
    var d := RunCall(mark, c, call);
    assert RunScript(mark, c2, Then(Shutdown, End)) == BeginShutdown(c2);
    BytesSnoc(c.trace, Accepted(data));
    BytesSnoc(c.trace + [Accepted(data)], Wrote(data[..k]));
    var n := |c2.trace|;
    assert d.trace[..n] == c2.trace && d.trace[n] == ShutWr;
    assert |WrittenBytes(c2.trace)| < |AcceptedBytes(c2.trace)|;
  }
}
