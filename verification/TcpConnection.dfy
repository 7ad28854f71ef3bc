/** The connection object: a phase, an output buffer, and the channel's interest bits,
    updated step by step and re-entered by callbacks. */
module TcpConnection {
  import opened Common
  import opened ConnectionSpec
  import Buffer
  import Spec = ConnectionSpec

  /** Interest bits registered with epoll (src/network/channel.cpp). */
  class Channel {
    var reading: bool
    var writing: bool

    constructor ()
      ensures !reading && !writing
    {
      reading, writing := false, false;
    }

    predicate IsNoneEvent()
      reads this
    {
      !reading && !writing
    }

    method EnableReading()
      modifies this
      ensures reading && writing == old(writing)
    {
      reading := true;
    }

    method EnableWriting()
      modifies this
      ensures writing && reading == old(reading)
    {
      writing := true;
    }

    method DisableWriting()
      modifies this
      ensures !writing && reading == old(reading)
    {
      writing := false;
    }

    method DisableAll()
      modifies this
      ensures !reading && !writing
    {
      reading, writing := false, false;
    }
  }

  lemma SendInLoopIs(mark: nat, c: Conn, data: seq<Byte>, io: WriteResult, complete: Script, high: Script, down: Script, close: Script)
    requires c.phase.Connected?
    ensures Spec.SendInLoop(mark, c, data, io, complete, high, down, close) ==
              var c1 := Seen(c, Accepted(data));
              if c.reading && !c.writing && c.out == [] then Spec.SendDirect(mark, c1, data, io, complete, high, down, close)
              else if data == [] then c1
              else Spec.Queue(mark, c1, data, high)
  { }

  class Connection {
    const mark: nat
    const output: Buffer.Buffer
    const channel: Channel
    var phase: Phase
    /** What the peer and the user have seen. */
    var trace: seq<Obs>

    ghost predicate Valid()
      reads this, output
    {
      output.Valid()
    }

    ghost function State(): Conn
      reads this, output, output.buf, channel
      requires Valid()
    {
      Conn(phase, output.Contents(), channel.reading, channel.writing, trace)
    }

    constructor (mark: nat)
      ensures Valid() && fresh(output) && fresh(output.buf) && fresh(channel)
      ensures this.mark == mark && State() == NEW
    {
      this.mark := mark;
      output := new Buffer.Buffer(1024);
      channel := new Channel();
      phase, trace := Connecting, [];
    }

    method Observe(o: Obs)
      requires Valid()
      modifies this
      ensures Valid() && State() == Seen(old(State()), o)
    {
      trace := trace + [o];
    }

    /** Runs the calls a callback makes. */
    method Callback(s: Script)
      requires Valid()
      modifies this, channel, output, output.buf
      ensures Valid() && (output.buf == old(output.buf) || fresh(output.buf))
      ensures State() == RunScript(mark, old(State()), s)
      decreases Size(s), 0
    {
      match s
      case End =>
      case Then(call, rest) =>
        assert Size(s) == 1 + CallSize(call) + Size(rest);
        match call {
          case Send(data, io, complete, high, down, close) => SendInLoop(data, io, complete, high, down, close);
          case Shutdown => Shutdown();
          case ForceClose(down, close) => ForceClose(down, close);
        }
        Callback(rest);
    }

    method Shutdown()
      requires Valid()
      modifies this
      ensures Valid() && State() == BeginShutdown(old(State()))
    {
      if phase != Connected {
        return;
      }
      phase := Disconnecting;
      ShutdownInLoop();
    }

    method ShutdownInLoop()
      requires Valid()
      modifies this
      ensures Valid() && State() == Spec.ShutdownInLoop(old(State()))
    {
      if phase != Disconnecting {
        return;
      }
      if output.Readable() == 0 {
        Observe(ShutWr);
      }
    }

    method ForceClose(down: Script, close: Script)
      requires Valid()
      modifies this, channel, output, output.buf
      ensures Valid() && (output.buf == old(output.buf) || fresh(output.buf))
      ensures State() == RunCall(mark, old(State()), Call.ForceClose(down, close))
      decreases Size(down) + Size(close) + 2, 0
    {
      if phase != Connected && phase != Disconnecting {
        return;
      }
      phase := Disconnecting;
      HandleClose(down, close);
    }

    method HandleClose(down: Script, close: Script)
      requires Valid()
      modifies this, channel, output, output.buf
      ensures Valid() && (output.buf == old(output.buf) || fresh(output.buf))
      ensures State() == Spec.HandleClose(mark, old(State()), down, close)
      decreases Size(down) + Size(close) + 1, 0
    {
      var previous := phase;
      phase := Disconnected;
      if previous != Connected && previous != Disconnecting {
        return;
      }
      channel.DisableAll();
      Observe(Down);
      Callback(down);
      Observe(Closed);
      Callback(close);
    }

    method SendInLoop(data: seq<Byte>, io: WriteResult, complete: Script, high: Script, down: Script, close: Script)
      requires Valid()
      modifies this, channel, output, output.buf
      ensures Valid() && (output.buf == old(output.buf) || fresh(output.buf))
      ensures State() == Spec.SendInLoop(mark, old(State()), data, io, complete, high, down, close)
      decreases Size(complete) + Size(high) + Size(down) + Size(close) + 2, 1
    {
      if phase != Connected {
        return;
      }
      ghost var c := State();
      SendInLoopIs(mark, c, data, io, complete, high, down, close);
      Observe(Accepted(data));
      var direct := !channel.IsNoneEvent() && !channel.writing && output.Readable() == 0;
      assert direct <==> c.reading && !c.writing && c.out == [];
      if direct {
        SendDirect(data, io, complete, high, down, close);
      } else if data != [] {
        QueueRest(data, high);
      }
    }

    /** The first half of `send_in_loop`: try the socket, and queue what it does not take. */
    method SendDirect(data: seq<Byte>, io: WriteResult, complete: Script, high: Script, down: Script, close: Script)
      requires Valid()
      modifies this, channel, output, output.buf
      ensures Valid() && (output.buf == old(output.buf) || fresh(output.buf))
      ensures State() == Spec.SendDirect(mark, old(State()), data, io, complete, high, down, close)
      decreases Size(complete) + Size(high) + Size(down) + Size(close) + 2, 0
    {
      var rest := data;
      match io {
        case Accepts(n) =>
          var nwrote := Min(n, |data|);
          Observe(Wrote(data[..nwrote]));
          rest := data[nwrote..];
          if rest == [] {
            Callback(complete);
            return;
          }
        case WouldBlock =>
        case WriteFails =>
          HandleClose(down, close);
          return;
      }
      if rest != [] {
        QueueRest(rest, high);
      }
    }

    /** The second half of `send_in_loop`: buffer what the socket did not take. */
    method QueueRest(rest: seq<Byte>, high: Script)
      requires Valid()
      modifies this, channel, output, output.buf
      ensures Valid() && (output.buf == old(output.buf) || fresh(output.buf))
      ensures State() == Spec.Queue(mark, old(State()), rest, high)
      decreases Size(high), 1
    {
      var oldLen := output.Readable();
      if oldLen + |rest| >= mark && oldLen < mark {
        Callback(high);
      }
      output.Append(rest);
      if !channel.IsNoneEvent() && !channel.writing {
        channel.EnableWriting();
      }
    }

    method HandleWrite(io: WriteResult, complete: Script, down: Script, close: Script)
      requires Valid()
      modifies this, channel, output, output.buf
      ensures Valid() && (output.buf == old(output.buf) || fresh(output.buf))
      ensures State() == Spec.HandleWrite(mark, old(State()), io, complete, down, close)
    {
      if channel.IsNoneEvent() || !channel.writing {
        return;
      }
      if output.Readable() > 0 {
        match io
        case Accepts(n) =>
          var k := Min(n, output.Readable());
          if k > 0 {
            ghost var c := State();
            var head := output.buf[output.read..output.read + k];
            Buffer.FirstBytes(output.buf[..], output.read, k, output.write);
            assert head == c.out[..k];
            Observe(Wrote(head));
            output.Retrieve(k);
            ghost var c1 := Seen(c.(out := c.out[k..]), Wrote(c.out[..k]));
            assert State() == c1;
            if output.Readable() == 0 {
              channel.DisableWriting();
              Callback(complete);
              if phase == Disconnecting {
                ShutdownInLoop();
              }
            }
          }
        case WouldBlock =>
        case WriteFails => HandleClose(down, close);
      }
    }

    method HandleRead(r: ReadOutcome, message: Script, down: Script, close: Script)
      requires Valid()
      modifies this, channel, output, output.buf
      ensures Valid() && (output.buf == old(output.buf) || fresh(output.buf))
      ensures State() == Spec.HandleRead(mark, old(State()), r, message, down, close)
    {
      if phase != Connected {
        return;
      }
      match r
      case Bytes => Callback(message);
      case Eof => HandleClose(down, close);
      case Again =>
      case ReadFails => HandleClose(down, close);
    }

    method ConnectionEstablished(up: Script)
      requires Valid()
      modifies this, channel, output, output.buf
      ensures Valid() && (output.buf == old(output.buf) || fresh(output.buf))
      ensures State() == Established(mark, old(State()), up)
    {
      if phase != Connecting {
        return;
      }
      phase := Connected;
      channel.EnableReading();
      Observe(Up);
      Callback(up);
    }

    method ConnectionDestroyed()
      requires Valid()
      modifies this, channel
      ensures Valid() && State() == Destroyed(old(State()))
    {
      if phase == Connected || phase == Disconnecting {
        phase := Disconnected;
        channel.DisableAll();
      }
    }

    /** One epoll result, in the order error, hang-up, input, output. */
    method HandleEvent(e: Event)
      requires Valid() && e.Dispatch?
      modifies this, channel, output, output.buf
      ensures Valid() && (output.buf == old(output.buf) || fresh(output.buf))
      ensures State() == Spec.HandleEvent(mark, old(State()), e)
    {
      if e.mask.err {
        HandleClose(e.down, e.close);
      }
      if e.mask.hup && !e.mask.input {
        HandleClose(e.down, e.close);
      }
      if e.mask.input || e.mask.urgent {
        HandleRead(e.read, e.message, e.down, e.close);
      }
      if e.mask.output {
        HandleWrite(e.io, e.complete, e.down, e.close);
      }
    }
  }
}
