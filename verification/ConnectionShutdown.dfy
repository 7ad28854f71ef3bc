/** When SHUT_WR can come too early, over every run. */
module ConnectionShutdown {
  import opened Common
  import opened ConnectionSpec
  import opened ConnectionProofs
  import opened ConnectionConservation

  /** SHUT_WR is only ever seen when every accepted byte has been written. */
  ghost predicate ShutLast(trace: seq<Obs>) {
    forall i | 0 <= i < |trace| && trace[i].ShutWr? ::
      multiset(AcceptedBytes(trace[..i])) == multiset(WrittenBytes(trace[..i]))
  }

  lemma ShutLastSnoc(trace: seq<Obs>, o: Obs)
    ensures ShutLast(trace + [o]) <==>
              ShutLast(trace) && (o.ShutWr? ==> multiset(AcceptedBytes(trace)) == multiset(WrittenBytes(trace)))
  {
    var t := trace + [o];
    assert t[..|trace|] == trace;
    forall i | 0 <= i < |trace| ensures t[..i] == trace[..i] && t[i] == trace[i] { }
  }

  // ---- a shutdown that runs too early ----

  /** `owing`: the script runs inside a high-water callback, so that an interrupted send
      has bytes left to queue. A shutdown there is hasty if the buffer is still empty. */
  ghost predicate HastyScript(mark: nat, c: Conn, s: Script, owing: bool)
    decreases Size(s), 0
  {
    s.Then? && (HastyCall(mark, c, s.call, owing) || HastyScript(mark, RunCall(mark, c, s.call), s.rest, owing))
  }

  ghost predicate HastyCall(mark: nat, c: Conn, call: Call, owing: bool)
    decreases CallSize(call), 1
  {
    match call
    case Send(_, _, _, _, _, _) => c.phase.Connected? && HastySend(mark, c, call, owing)
    case Shutdown => owing && c.phase.Connected? && c.out == []
    case ForceClose(_, _) => false
  }

  ghost predicate HastySend(mark: nat, c: Conn, call: Call, owing: bool)
    requires call.Send?
    decreases CallSize(call), 0
  {
    var c1 := Seen(c, Accepted(call.data));
    if c.reading && !c.writing && c.out == [] && call.io.Accepts? then
      var k := Min(call.io.n, |call.data|);
      var c2 := Seen(c1, Wrote(call.data[..k]));
      if k == |call.data| then HastyScript(mark, c2, call.complete, owing) else HastyQueue(mark, c2, call.data[k..], call.high)
    else if c.reading && !c.writing && c.out == [] && call.io.WriteFails? then false
    else call.data != [] && HastyQueue(mark, c1, call.data, call.high)
  }

  ghost predicate HastyQueue(mark: nat, c: Conn, rest: seq<Byte>, high: Script)
    decreases Size(high), 1
  {
    |c.out| + |rest| >= mark && |c.out| < mark && HastyScript(mark, c, high, true)
  }

  ghost predicate HastyWrite(mark: nat, c: Conn, io: WriteResult, complete: Script) {
    && c.writing && c.out != [] && io.Accepts? && io.n >= |c.out|
    && HastyScript(mark, Emptied(c), complete, false)
  }

  ghost predicate HastyEvent(mark: nat, c: Conn, e: Event) {
    match e
    case Establish(up) =>
      c.phase.Connecting? && HastyScript(mark, Seen(c.(phase := Connected, reading := true), Up), up, false)
    case Dispatch(mask, read, message, io, complete, down, close) =>
      var c1 := if mask.err then HandleClose(mark, c, down, close) else c;
      var c2 := if mask.hup && !mask.input then HandleClose(mark, c1, down, close) else c1;
      var readable := mask.input || mask.urgent;
      || (readable && c2.phase.Connected? && read.Bytes? && HastyScript(mark, c2, message, false))
      || (mask.output && HastyWrite(mark, if readable then HandleRead(mark, c2, read, message, down, close) else c2, io, complete))
    case Api(call) => HastyCall(mark, c, call, false)
    case Destroy => false
  }

  ghost predicate HastyRun(mark: nat, es: seq<Event>) {
    es != [] && (HastyRun(mark, es[..|es| - 1]) || HastyEvent(mark, Run(mark, es[..|es| - 1]), es[|es| - 1]))
  }

  // ---- it is the only way ----

  /** From `c` to `d`, SHUT_WR stays last unless something hasty happened. */
  ghost predicate Shuts(c: Conn, d: Conn, hasty: bool) {
    ShutLast(d.trace) <==> ShutLast(c.trace) && !hasty
  }

  lemma SeenShuts(c: Conn, o: Obs)
    requires !o.ShutWr?
    ensures Shuts(c, Seen(c, o), false)
  {
    ShutLastSnoc(c.trace, o);
  }

  lemma CloseShuts(mark: nat, c: Conn, down: Script, close: Script)
    ensures Shuts(c, HandleClose(mark, c, down, close), false)
  {
    CloseIs(mark, c, down, close);
    ShutLastSnoc(c.trace, Down);
    ShutLastSnoc(c.trace + [Down], Closed);
  }

  lemma ShutdownShuts(c: Conn, owed: multiset<Byte>)
    requires Sound(c, owed)
    ensures Shuts(c, ShutdownInLoop(c), owed != multiset{} && c.phase.Disconnecting? && c.out == [])
    ensures Shuts(c, BeginShutdown(c), owed != multiset{} && c.phase.Connected? && c.out == [])
  {
    ShutLastSnoc(c.trace, ShutWr);
  }

  lemma {:induction false} ScriptShuts(mark: nat, c: Conn, s: Script, owed: multiset<Byte>)
    requires Sound(c, owed)
    ensures Shuts(c, RunScript(mark, c, s), HastyScript(mark, c, s, owed != multiset{}))
    decreases Size(s), 0
  {
    match s
    case End =>
    case Then(call, rest) =>
      CallShuts(mark, c, call, owed);
      CallSound(mark, c, call, owed);
      ScriptShuts(mark, RunCall(mark, c, call), rest, owed);
  }

  lemma {:induction false} CallShuts(mark: nat, c: Conn, call: Call, owed: multiset<Byte>)
    requires Sound(c, owed)
    ensures Shuts(c, RunCall(mark, c, call), HastyCall(mark, c, call, owed != multiset{}))
    decreases CallSize(call), 1
  {
    match call
    case Send(_, _, _, _, _, _) => if c.phase.Connected? { SendShuts(mark, c, call, owed); }
    case Shutdown => ShutdownShuts(c, owed);
    case ForceClose(down, close) => CloseShuts(mark, c.(phase := Disconnecting), down, close);
  }

  lemma {:induction false} QueueShuts(mark: nat, c: Conn, rest: seq<Byte>, high: Script, owed: multiset<Byte>)
    requires Sound(c, owed + multiset(rest)) && rest != []
    ensures Shuts(c, Queue(mark, c, rest, high), HastyQueue(mark, c, rest, high))
    decreases Size(high), 1
  {
    ScriptShuts(mark, c, high, owed + multiset(rest));
    assert rest[0] in owed + multiset(rest);
  }

  lemma {:induction false} SendShuts(mark: nat, c: Conn, call: Call, owed: multiset<Byte>)
    requires Sound(c, owed) && c.phase.Connected? && call.Send?
    ensures Shuts(c, RunCall(mark, c, call), HastySend(mark, c, call, owed != multiset{}))
    decreases CallSize(call), 0
  {
    var data := call.data;
    var k := if call.io.Accepts? then Min(call.io.n, |data|) else 0;
    var c1 := Seen(c, Accepted(data));
    SendIs(mark, c, call);
    AcceptedSound(c, data, k, owed);
    SeenShuts(c, Accepted(data));
    if c.out == [] && call.io.Accepts? {
      var c2 := Seen(c1, Wrote(data[..k]));
      SeenShuts(c1, Wrote(data[..k]));
      if k == |data| {
        assert owed + multiset(data[k..]) == owed;
        ScriptShuts(mark, c2, call.complete, owed);
      } else {
        QueueShuts(mark, c2, data[k..], call.high, owed);
      }
    } else if c.out == [] && call.io.WriteFails? {
      CloseShuts(mark, c1, call.down, call.close);
    } else if data != [] {
      QueueShuts(mark, c1, data, call.high, owed);
    }
  }

  lemma WriteShuts(mark: nat, c: Conn, e: Event)
    requires Sound(c, multiset{}) && e.Dispatch?
    ensures Shuts(c, HandleWrite(mark, c, e.io, e.complete, e.down, e.close), HastyWrite(mark, c, e.io, e.complete))
  {
    if c.writing && c.out != [] {
      if e.io.WriteFails? {
        CloseShuts(mark, c, e.down, e.close);
      } else if e.io.Accepts? && e.io.n > 0 {
        var k := Min(e.io.n, |c.out|);
        SeenShuts(c, Wrote(c.out[..k]));
        if k == |c.out| { WholeWriteShuts(mark, c, e); }
      }
    }
  }

  lemma EmptiedSound(c: Conn)
    requires Sound(c, multiset{}) && c.writing && c.out != []
    ensures Sound(Emptied(c), multiset{}) && Shuts(c, Emptied(c), false)
  {
    WholeWriteSound(c);
    SeenShuts(c, Wrote(c.out));
  }

  lemma WholeWriteShuts(mark: nat, c: Conn, e: Event)
    requires Sound(c, multiset{}) && e.Dispatch?
    requires c.writing && c.out != [] && e.io.Accepts? && e.io.n >= |c.out|
    ensures Shuts(c, HandleWrite(mark, c, e.io, e.complete, e.down, e.close), HastyWrite(mark, c, e.io, e.complete))
  {
    WholeWriteIs(mark, c, e);
    EmptiedSound(c);
    ScriptShuts(mark, Emptied(c), e.complete, multiset{});
    ScriptSound(mark, Emptied(c), e.complete, multiset{});
    ShutdownShuts(RunScript(mark, Emptied(c), e.complete), multiset{});
  }

  lemma ReadShuts(mark: nat, c: Conn, e: Event)
    requires Sound(c, multiset{}) && e.Dispatch?
    ensures Shuts(c, HandleRead(mark, c, e.read, e.message, e.down, e.close),
                  c.phase.Connected? && e.read.Bytes? && HastyScript(mark, c, e.message, false))
  {
    if c.phase.Connected? {
      ScriptShuts(mark, c, e.message, multiset{});
      CloseShuts(mark, c, e.down, e.close);
    }
  }

  lemma DispatchShuts(mark: nat, c: Conn, e: Event)
    requires Sound(c, multiset{}) && e.Dispatch?
    ensures Shuts(c, HandleEvent(mark, c, e), HastyEvent(mark, c, e))
  {
    CloseSound(mark, c, e.down, e.close, multiset{});
    CloseShuts(mark, c, e.down, e.close);
    var c1 := if e.mask.err then HandleClose(mark, c, e.down, e.close) else c;
    CloseSound(mark, c1, e.down, e.close, multiset{});
    CloseShuts(mark, c1, e.down, e.close);
    var c2 := if e.mask.hup && !e.mask.input then HandleClose(mark, c1, e.down, e.close) else c1;
    ReadSound(mark, c2, e);
    ReadShuts(mark, c2, e);
    WriteShuts(mark, if e.mask.input || e.mask.urgent then HandleRead(mark, c2, e.read, e.message, e.down, e.close) else c2, e);
  }

  /** From a state of any run, one event keeps SHUT_WR last if and only if no shutdown in
      it is hasty. */
  lemma StepShuts(mark: nat, c: Conn, e: Event)
    requires Sound(c, multiset{})
    ensures Shuts(c, Step(mark, c, e), HastyEvent(mark, c, e))
  {
    match e
    case Establish(up) =>
      if c.phase.Connecting? {
        SeenShuts(c, Up);
        BytesSnoc(c.trace, Up);
        ScriptShuts(mark, Seen(c.(phase := Connected, reading := true), Up), up, multiset{});
      }
    case Dispatch(_, _, _, _, _, _, _) => DispatchShuts(mark, c, e);
    case Api(call) => CallShuts(mark, c, call, multiset{});
    case Destroy =>
  }

  /** Main result: on every run, with any callbacks at any depth, no accepted byte is left
      unwritten when SHUT_WR is sent, if and only if no high-water callback requests a
      shutdown while the output buffer is still empty. */
  lemma {:induction false} RunShuts(mark: nat, es: seq<Event>)
    ensures ShutLast(Run(mark, es).trace) <==> !HastyRun(mark, es)
  {
    if es != [] {
      var m := |es| - 1;
      RunShuts(mark, es[..m]);
      RunConserves(mark, es[..m]);
      StepShuts(mark, Run(mark, es[..m]), es[m]);
    }
  }

  /** The shortest such run: the socket takes nothing of a byte sent as the connection comes
      up, and the high-water callback asks for a shutdown. */
  lemma ShutTooEarly(es: seq<Event>)
    requires es == [Establish(Then(Send([0], WouldBlock, End, Then(Shutdown, End), End, End), End))]
    ensures Run(1, es).trace == [Up, Accepted([0]), ShutWr] && !ShutLast(Run(1, es).trace)
  {
    var up := Seen(NEW.(phase := Connected, reading := true), Up);
    var call := Send([0], WouldBlock, End, Then(Shutdown, End), End, End);
    var c := Seen(up, Accepted([0]));
    assert es[..0] == [];
    SendIs(1, up, call);
    assert RunScript(1, c, Then(Shutdown, End)) == BeginShutdown(c);
    RunShuts(1, es);
  }
}
