/** The frame codec as the server runs it: a decoder that fills a frame in place and an
    encoder that pushes bytes. */
module WebSocket {
  import opened Common
  import opened WebSocketSpec

  class WsFrame {
    var opcode: OpCode
    var fin: bool
    var masked: bool
    var payload: Bytes

    constructor ()
      ensures payload == []
    {
      opcode, fin, masked, payload := 0, false, false, [];
    }

    ghost function Value(): Frame
      reads this
    {
      Frame(opcode, fin, masked, payload)
    }

    /** The exclusive-or over the payload, byte after byte. */
    method Unmask(key: Bytes)
      requires |key| == 4
      modifies this`payload
      ensures payload == Masked(key, old(payload))
    {
      ghost var raw := payload;
      var i := 0;
      while i < |payload|
        invariant 0 <= i <= |payload| == |raw|
        invariant payload == Masked(key, raw)[..i] + raw[i..]
      {
        payload := payload[i := payload[i] ^ key[i % 4]];
        i := i + 1;
      }
    }
  }

  /** The 8-byte length: shift in one byte at a time. */
  method ReadLong(data: Bytes) returns (n: nat)
    requires |data| >= 10
    ensures n == BigEndian(data[2..10])
  {
    n := 0;
    for i := 0 to 8
      invariant n == BigEndian(data[2..2 + i])
    {
      BigEndianSnoc(data[2..2 + i], data[2 + i]);
      assert data[2..2 + i] + [data[2 + i]] == data[2..2 + i + 1];
      n := 256 * n + data[2 + i] as nat;
    }
  }

  lemma TwoBytes(data: Bytes)
    requires |data| >= 4
    ensures BigEndian(data[2..4]) == 256 * data[2] as nat + data[3] as nat
  {
    assert data[2..4] == ([] + [data[2]]) + [data[3]];
    BigEndianSnoc([], data[2]);
    BigEndianSnoc([] + [data[2]], data[3]);
  }

  /** Reads the length field. `end` is 0 while it is incomplete. */
  method ReadLength(data: Bytes) returns (end: nat, payloadLen: nat)
    requires |data| >= 2
    ensures LengthEnd(data).None? ==> end == 0
    ensures LengthEnd(data).Some? ==> LengthEnd(data) == Some(end) && payloadLen == LengthOf(CodeOf(data[1]), data[2..end])
  {
    var code := CodeOf(data[1]);
    payloadLen := code as nat;
    if code == 126 {
      if |data| < 4 { return 0, 0; }
      TwoBytes(data);
      return 4, 256 * data[2] as nat + data[3] as nat;
    } else if code == 127 {
      if |data| < 10 { return 0, 0; }
      payloadLen := ReadLong(data);
      return 10, payloadLen;
    }
    return 2, payloadLen;
  }

  /** Copies the payload out of the input and unmasks it with the four bytes before it. */
  method CopyPayload(data: Bytes, start: nat, n: nat, out: WsFrame)
    requires start + n <= |data| && (out.masked ==> start >= 4)
    modifies out`payload
    ensures out.payload == if out.masked then Masked(data[start - 4..start], data[start..start + n]) else data[start..start + n]
  {
    out.payload := data[start..start + n];
    if out.masked {
      out.Unmask(data[start - 4..start]);
    }
  }

  /** Returns the number of bytes the frame took, or 0 while it is incomplete; the payload
      is then left as it was. `None` is the copy of a payload whose declared length makes
      the sum with the header wrap around: there are not that many bytes, and the language
      does not say what the copy does. */
  method DecodeFrame(data: Bytes, out: WsFrame) returns (consumed: Option<nat>)
    modifies out
    ensures Decode(data).Incomplete? <==> consumed == Some(0)
    ensures Decode(data).Decoded? ==> consumed.Some? && Decode(data) == Decoded(out.Value(), consumed.value)
    ensures Decode(data).Wrapped? <==> consumed == None
    ensures !Decode(data).Decoded? ==> out.payload == old(out.payload)
    ensures Decode(data).Wrapped?
            ==> out.fin == (data[0] >> 7 == 1) && out.opcode == data[0] & 0x0F && out.masked == IsMasked(data[1])
  {
    if |data| < 2 {
      return Some(0);
    }
    OpCodeBits(data[0]);
    out.fin, out.opcode := data[0] >> 7 == 1, data[0] & 0x0F;
    var masked := IsMasked(data[1]);
    out.masked := masked;
    var end, payloadLen := ReadLength(data);
    if end == 0 {
      return Some(0);
    }
    var headerLen := end;
    if masked {
      headerLen := headerLen + 4;
    }
    SumFits(headerLen + payloadLen, |data|);
    DecodeIs(data, end, headerLen, payloadLen);
    if |data| < (headerLen + payloadLen) % SIZE_LIMIT {
      return Some(0);
    }
    if headerLen + payloadLen >= SIZE_LIMIT {
      return None;
    }
    CopyPayload(data, headerLen, payloadLen, out);
    return Some(headerLen + payloadLen);
  }

  /** The outcome once the length is read. */
  lemma DecodeIs(data: Bytes, end: nat, header: nat, n: nat)
    requires LengthEnd(data) == Some(end) && n == LengthOf(CodeOf(data[1]), data[2..end])
    requires header == end + if IsMasked(data[1]) then 4 else 0
    ensures Decode(data) ==
              if |data| < (if header + n >= SIZE_LIMIT then (header + n) % SIZE_LIMIT else header + n) then Incomplete
              else if header + n >= SIZE_LIMIT then Wrapped
              else Decoded(FrameOf(data[0], data[1], data[end..header], data[header..header + n]), header + n)
  { }

  lemma SumFits(sum: nat, len: nat)
    ensures sum < SIZE_LIMIT ==> sum % SIZE_LIMIT == sum
    ensures sum >= SIZE_LIMIT && len < sum % SIZE_LIMIT ==> len < sum
  { }

  /** `n` shifted right by `i` bytes. */
  function Shifted(n: nat, i: nat): nat
    decreases i
  {
    if i == 0 then n else Shifted(n, i - 1) / 256
  }

  /** Pushes the `k` low bytes of a length, highest first. */
  method PushLength(frame: Bytes, n: nat, k: nat) returns (r: Bytes)
    ensures r == frame + ToBigEndian(n, k)
  {
    r := frame;
    var i := k;
    while i > 0
      invariant 0 <= i <= k
      invariant r == frame + ToBigEndian(Shifted(n, i), k - i)
    {
      i := i - 1;
      r := r + [ToByte(Shifted(n, i) % 256)];
    }
  }

  /** The second byte and the extended length. */
  method PushSize(frame: Bytes, n: nat) returns (r: Bytes)
    requires n < SIZE_LIMIT
    ensures var c := ServerStyle(n).length; r == frame + [LengthCode(n, c)] + ToBigEndian(n, ExtraBytes(c))
  {
    if n <= 125 {
      ShortByte(n);
      r := frame + [ToByte(n) & 0x7F];
      assert r == r + ToBigEndian(n, 0);
    } else if n <= 65535 {
      r := PushLength(frame + [126], n, 2);
    } else {
      r := PushLength(frame + [127], n, 8);
    }
  }

  /** The bytes before the payload. */
  method EncodeHeader(opcode: OpCode, n: nat, fin: bool) returns (frame: Bytes)
    requires n < SIZE_LIMIT
    ensures var c := ServerStyle(n).length;
            frame == [FirstByte(fin, 0, opcode), SecondByte(false, LengthCode(n, c))] + ToBigEndian(n, ExtraBytes(c))
  {
    var firstByte: Byte := 0;
    if fin {
      firstByte := firstByte | 0x80;
    }
    firstByte := firstByte | opcode;
    FirstByteIs(opcode, fin);
    PlainSecondByte(LengthCode(n, ServerStyle(n).length));
    frame := PushSize([firstByte], n);
  }

  method EncodeFrame(opcode: OpCode, payload: Bytes, fin: bool) returns (frame: Bytes)
    requires |payload| < SIZE_LIMIT
    ensures frame == Encoded(opcode, payload, fin)
  {
    frame := EncodeHeader(opcode, |payload|, fin);
    frame := frame + payload;
  }

  lemma FirstByteIs(opcode: OpCode, fin: bool)
    ensures FirstByte(fin, 0, opcode) == (if fin then 0x80 else 0) | opcode
  { }

  lemma PlainSecondByte(code: Byte)
    ensures SecondByte(false, code) == code
  { }

  lemma ShortByte(n: nat)
    requires n <= 125
    ensures ToByte(n) & 0x7F == n as Byte
  {
    ClassOfCode(n, Short);
    SecondByteBits(false, n as Byte);
    PlainSecondByte(n as Byte);
  }
}
