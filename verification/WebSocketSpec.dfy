/** WebSocket frames (sections 5.2 and 5.3 of RFC 6455): the wire format, the decoder as
    coded, and how the two fit together. */
module WebSocketSpec {
  import opened Common

  const SIZE_LIMIT: nat := 0x1_0000_0000_0000_0000

  type OpCode = b: Byte | b & 0xF0 == 0 witness 0

  datatype Frame = Frame(opcode: OpCode, fin: bool, masked: bool, payload: Bytes)

  /** `Incomplete` is the returned 0. `Wrapped` stands for declared lengths whose sum with the
      header does not fit `size_t`: the language does not say what the copy then does. */
  datatype Result = Incomplete | Decoded(frame: Frame, consumed: nat) | Wrapped

  // ---- big-endian lengths ----

  function Pow256(k: nat): (p: nat)
    ensures p > 0
  {
    if k == 0 then 1 else 256 * Pow256(k - 1)
  }

  function BigEndian(bs: Bytes): nat {
    if bs == [] then 0 else 256 * BigEndian(bs[..|bs| - 1]) + bs[|bs| - 1] as nat
  }

  lemma ByteOfNat(n: nat)
    requires n < 256
    ensures (n as Byte) as nat == n
  {
    assert n % 256 == n;
  }

  lemma NatOfByte(b: Byte)
    ensures (b as nat) as Byte == b
  { }

  function ToByte(n: nat): (b: Byte)
    requires n < 256
    ensures b as nat == n
  {
    ByteOfNat(n);
    n as Byte
  }

  function ToBigEndian(n: nat, k: nat): (bs: Bytes)
    ensures |bs| == k
  {
    if k == 0 then [] else ToBigEndian(n / 256, k - 1) + [ToByte(n % 256)]
  }

  lemma BigEndianSnoc(bs: Bytes, b: Byte)
    ensures BigEndian(bs + [b]) == 256 * BigEndian(bs) + b as nat
  {
    assert (bs + [b])[..|bs|] == bs;
  }

  lemma DivModOf(hi: nat, m: nat)
    requires m < 256
    ensures (256 * hi + m) / 256 == hi && (256 * hi + m) % 256 == m
  { }

  lemma ToBigEndianSnoc(n: nat, hi: nat, b: Byte, k: nat)
    requires n / 256 == hi && n % 256 == b as nat
    ensures ToBigEndian(n, k + 1) == ToBigEndian(hi, k) + [b]
  {
    NatOfByte(b);
  }

  lemma {:induction false} BigEndianOf(n: nat, k: nat)
    requires n < Pow256(k)
    ensures BigEndian(ToBigEndian(n, k)) == n
    decreases k
  {
    if k > 0 {
      var q, m := n / 256, n % 256;
      assert n == 256 * q + m;
      BigEndianOf(q, k - 1);
      BigEndianSnoc(ToBigEndian(q, k - 1), ToByte(m));
    }
  }

  lemma {:induction false} ToBigEndianOf(bs: Bytes)
    ensures ToBigEndian(BigEndian(bs), |bs|) == bs && BigEndian(bs) < Pow256(|bs|)
    decreases |bs|
  {
    if bs != [] {
      var k := |bs| - 1;
      ToBigEndianOf(bs[..k]);
      DivModOf(BigEndian(bs[..k]), bs[k] as nat);
      ToBigEndianSnoc(BigEndian(bs), BigEndian(bs[..k]), bs[k], k);
      assert bs == bs[..k] + [bs[k]];
    }
  }

  lemma Pow256Eight()
    ensures Pow256(2) == 0x1_0000 && Pow256(8) == SIZE_LIMIT
  {
    assert Pow256(4) == 0x1_0000_0000;
  }

  // ---- masking ----

  function Masked(key: Bytes, payload: Bytes): (r: Bytes)
    requires |key| == 4
    ensures |r| == |payload|
  {
    seq(|payload|, i requires 0 <= i < |payload| => payload[i] ^ key[i % 4])
  }

  /** Masking twice with the same key gives the payload back. */
  lemma MaskTwice(key: Bytes, payload: Bytes)
    requires |key| == 4
    ensures Masked(key, Masked(key, payload)) == payload
  {
    forall i | 0 <= i < |payload| ensures Masked(key, Masked(key, payload))[i] == payload[i] {
      XorTwice(payload[i], key[i % 4]);
    }
  }

  lemma XorTwice(a: Byte, b: Byte)
    ensures (a ^ b) ^ b == a
  { }

  // ---- the wire format ----

  /** How the length is carried: in the second byte, or in 2 or 8 bytes after it. */
  datatype Class = Short | Medium | Long

  function ExtraBytes(c: Class): nat {
    match c case Short => 0 case Medium => 2 case Long => 8
  }

  predicate Fits(n: nat, c: Class) {
    match c case Short => n <= 125 case Medium => n < 0x1_0000 case Long => n < SIZE_LIMIT
  }

  function LengthCode(n: nat, c: Class): (b: Byte)
    requires Fits(n, c)
    ensures b < 128
  {
    match c case Short => n as Byte case Medium => 126 case Long => 127
  }

  /** What a sender may choose freely: reserved bits, length class, and the key if masked. */
  datatype Style = Style(reserved: Byte, length: Class, key: Bytes)

  predicate Allowed(f: Frame, s: Style) {
    s.reserved & 0x8F == 0 && Fits(|f.payload|, s.length) && |s.key| == if f.masked then 4 else 0
  }

  function FirstByte(fin: bool, reserved: Byte, opcode: OpCode): Byte {
    (if fin then 0x80 else 0) | reserved | opcode
  }

  function SecondByte(masked: bool, code: Byte): Byte {
    (if masked then 0x80 else 0) | code
  }

  function Header(f: Frame, s: Style): Bytes
    requires Allowed(f, s)
  {
    [FirstByte(f.fin, s.reserved, f.opcode), SecondByte(f.masked, LengthCode(|f.payload|, s.length))]
    + ToBigEndian(|f.payload|, ExtraBytes(s.length)) + s.key
  }

  function Body(f: Frame, s: Style): (b: Bytes)
    requires Allowed(f, s)
    ensures |b| == |f.payload|
  {
    if f.masked then Masked(s.key, f.payload) else f.payload
  }

  function Wire(f: Frame, s: Style): Bytes
    requires Allowed(f, s)
  {
    Header(f, s) + Body(f, s)
  }

  /** The style of `encode`: no reserved bits, no mask, the shortest length. */
  function ServerStyle(n: nat): Style {
    Style(0, if n <= 125 then Short else if n < 0x1_0000 then Medium else Long, [])
  }

  /** `WsCodec::encode`. */
  function Encoded(opcode: OpCode, payload: Bytes, fin: bool): Bytes
    requires |payload| < SIZE_LIMIT
  {
    Wire(Frame(opcode, fin, false, payload), ServerStyle(|payload|))
  }

  // ---- the decoder ----

  function ClassOf(code: Byte): Class {
    if code == 126 then Medium else if code == 127 then Long else Short
  }

  function LengthOf(code: Byte, extra: Bytes): nat {
    if extra == [] then code as nat else BigEndian(extra)
  }

  predicate IsMasked(b: Byte) { b >> 7 == 1 }

  function CodeOf(b: Byte): Byte { b & 0x7F }

  /** The end of the length field, once all of it has arrived. */
  function LengthEnd(data: Bytes): (k: Option<nat>)
    ensures k.Some? ==> 2 <= k.value <= |data|
  {
    if |data| < 2 then None
    else
      var k := 2 + ExtraBytes(ClassOf(CodeOf(data[1])));
      if |data| < k then None else Some(k)
  }

  function FrameOf(a: Byte, b: Byte, key: Bytes, raw: Bytes): Frame
    requires IsMasked(b) ==> |key| == 4
  {
    OpCodeBits(a);
    Frame(a & 0x0F, a >> 7 == 1, IsMasked(b), if IsMasked(b) then Masked(key, raw) else raw)
  }

  function StyleOf(a: Byte, b: Byte, key: Bytes): Style {
    Style(a & 0x70, ClassOf(CodeOf(b)), key)
  }

  /** `WsCodec::decode`. */
  function Decode(data: Bytes): Result {
    match LengthEnd(data)
    case None => Incomplete
    case Some(k) =>
      var n := LengthOf(CodeOf(data[1]), data[2..k]);
      var header := k + if IsMasked(data[1]) then 4 else 0;
      if header + n >= SIZE_LIMIT then
        if |data| < (header + n) % SIZE_LIMIT then Incomplete else Wrapped
      else if |data| < header + n then Incomplete
      else Decoded(FrameOf(data[0], data[1], data[k..header], data[header..header + n]), header + n)
  }

  lemma OpCodeBits(b: Byte)
    ensures (b & 0x0F) & 0xF0 == 0
  { }

  lemma FirstByteBits(fin: bool, reserved: Byte, opcode: OpCode)
    requires reserved & 0x8F == 0
    ensures FirstByte(fin, reserved, opcode) & 0x0F == opcode && (FirstByte(fin, reserved, opcode) >> 7 == 1 <==> fin)
  { }

  lemma SecondByteBits(masked: bool, code: Byte)
    requires code < 128
    ensures CodeOf(SecondByte(masked, code)) == code && IsMasked(SecondByte(masked, code)) == masked
  { }

  lemma ClassOfCode(n: nat, c: Class)
    requires Fits(n, c)
    ensures ClassOf(LengthCode(n, c)) == c && (c == Short ==> LengthCode(n, c) as nat == n)
  {
    if c == Short {
      assert n % 256 == n;
      var b := n as Byte;
      assert b as nat == n;
      assert b != 126 && b != 127;
    }
  }

  lemma LengthOfHeader(n: nat, c: Class)
    requires Fits(n, c)
    ensures ClassOf(LengthCode(n, c)) == c
    ensures LengthOf(LengthCode(n, c), ToBigEndian(n, ExtraBytes(c))) == n
  {
    ClassOfCode(n, c);
    Pow256Eight();
    if c != Short { BigEndianOf(n, ExtraBytes(c)); }
  }

  /** What the decoder reads off the header of a frame. */
  lemma HeaderRead(f: Frame, s: Style, tail: Bytes)
    requires Allowed(f, s)
    ensures var data := Header(f, s) + tail; var k := 2 + ExtraBytes(s.length);
            && LengthEnd(data) == Some(k) && IsMasked(data[1]) == f.masked && |Header(f, s)| == k + |s.key|
            && data[0] == FirstByte(f.fin, s.reserved, f.opcode)
            && LengthOf(CodeOf(data[1]), data[2..k]) == |f.payload| && data[k..k + |s.key|] == s.key
  {
    var data := Header(f, s) + tail;
    var e := ExtraBytes(s.length);
    SecondByteBits(f.masked, LengthCode(|f.payload|, s.length));
    LengthOfHeader(|f.payload|, s.length);
    var field := ToBigEndian(|f.payload|, e);
    assert data == [data[0], data[1]] + field + (s.key + tail);
    assert data[2..2 + e] == field;
  }

  /** Main result: every wire form of a frame, in every length class, masked with any key
      or not, decodes to that frame and is consumed exactly, whatever follows it. */
  lemma DecodeWire(f: Frame, s: Style, rest: Bytes)
    requires Allowed(f, s) && |Wire(f, s)| < SIZE_LIMIT
    ensures Decode(Wire(f, s) + rest) == Decoded(f, |Wire(f, s)|)
  {
    var body := Body(f, s);
    var data := Wire(f, s) + rest;
    assert data == Header(f, s) + (body + rest);
    HeaderRead(f, s, body + rest);
    FirstByteBits(f.fin, s.reserved, f.opcode);
    var h, n := |Header(f, s)|, |f.payload|;
    assert data[h..h + n] == body;
    if f.masked { MaskTwice(s.key, f.payload); }
    assert FrameOf(data[0], data[1], s.key, body) == f;
  }

  /** Main result: what `encode` writes decodes to the same frame. */
  lemma EncodedDecodes(opcode: OpCode, payload: Bytes, fin: bool, rest: Bytes)
    requires |payload| < SIZE_LIMIT - 10
    ensures Decode(Encoded(opcode, payload, fin) + rest) ==
            Decoded(Frame(opcode, fin, false, payload), |Encoded(opcode, payload, fin)|)
  {
    DecodeWire(Frame(opcode, fin, false, payload), ServerStyle(|payload|), rest);
  }

  lemma SliceOfPrefix(data: Bytes, m: nat, i: nat, j: nat)
    requires i <= j <= m <= |data|
    ensures data[..m][i..j] == data[i..j]
  { }

  /** Main result: a frame cut short anywhere reads as incomplete. */
  lemma PrefixIncomplete(f: Frame, s: Style, m: nat)
    requires Allowed(f, s) && |Wire(f, s)| < SIZE_LIMIT && m < |Wire(f, s)|
    ensures Decode(Wire(f, s)[..m]) == Incomplete
  {
    var data := Wire(f, s);
    HeaderRead(f, s, Body(f, s));
    var k := 2 + ExtraBytes(s.length);
    if m >= k {
      SliceOfPrefix(data, m, 2, k);
    }
  }

  lemma HeaderOf(f: Frame, s: Style, a: Byte, b: Byte, extra: Bytes)
    requires f.opcode == a & 0x0F && f.fin == (a >> 7 == 1) && s.reserved == a & 0x70
    requires f.masked == IsMasked(b) && s.length == ClassOf(CodeOf(b)) && |extra| == ExtraBytes(s.length)
    requires |f.payload| == LengthOf(CodeOf(b), extra) && |s.key| == if f.masked then 4 else 0
    ensures Allowed(f, s) && Header(f, s) == [a, b] + extra + s.key
  {
    RawBits(a, b);
    LengthRead(CodeOf(b), extra);
  }

  /** A frame read off two bytes, a length field, a key and the raw payload is written as just those. */
  lemma WireOf(a: Byte, b: Byte, extra: Bytes, key: Bytes, raw: Bytes)
    requires |extra| == ExtraBytes(ClassOf(CodeOf(b))) && |raw| == LengthOf(CodeOf(b), extra)
    requires |key| == if IsMasked(b) then 4 else 0
    ensures var f := FrameOf(a, b, key, raw); var s := StyleOf(a, b, key);
            Allowed(f, s) && Wire(f, s) == [a, b] + extra + key + raw
  {
    var f := FrameOf(a, b, key, raw);
    HeaderOf(f, StyleOf(a, b, key), a, b, extra);
    if IsMasked(b) { MaskTwice(key, raw); }
  }

  lemma CutInFour(data: Bytes, k: nat, header: nat, end: nat)
    requires 2 <= k <= header <= end <= |data|
    ensures data[..end] == [data[0], data[1]] + data[2..k] + data[k..header] + data[header..end]
  { }

  /** Main result: the decoder accepts nothing else. Whatever it returns, the bytes it
      consumed are a wire form of the frame. */
  lemma DecodedIsWire(data: Bytes) returns (s: Style)
    requires Decode(data).Decoded?
    ensures var r := Decode(data);
            Allowed(r.frame, s) && r.consumed <= |data| && data[..r.consumed] == Wire(r.frame, s)
  {
    var k := LengthEnd(data).value;
    var header := k + if IsMasked(data[1]) then 4 else 0;
    var end := Decode(data).consumed;
    var key, raw := data[k..header], data[header..end];
    s := StyleOf(data[0], data[1], key);
    WireOf(data[0], data[1], data[2..k], key, raw);
    CutInFour(data, k, header, end);
  }

  lemma RawBits(a: Byte, b: Byte)
    ensures (a & 0x70) & 0x8F == 0 && (a & 0x0F) & 0xF0 == 0
    ensures FirstByte(a >> 7 == 1, a & 0x70, a & 0x0F) == a && SecondByte(IsMasked(b), CodeOf(b)) == b && CodeOf(b) < 128
  { }

  /** A length field that was read can be written again in the class it came in. */
  lemma LengthRead(code: Byte, extra: Bytes)
    requires code < 128 && |extra| == ExtraBytes(ClassOf(code))
    ensures var n := LengthOf(code, extra); var c := ClassOf(code);
            Fits(n, c) && LengthCode(n, c) == code && ToBigEndian(n, ExtraBytes(c)) == extra
  {
    Pow256Eight();
    if extra == [] {
      ShortCode(code);
    } else {
      ToBigEndianOf(extra);
    }
  }

  lemma ShortCode(code: Byte)
    requires code < 128 && ClassOf(code) == Short
    ensures code as nat <= 125 && (code as nat) as Byte == code
  { }

  // ---- streams of frames ----

  ghost predicate Sendable(f: Frame, s: Style) {
    Allowed(f, s) && |Wire(f, s)| < SIZE_LIMIT
  }

  ghost predicate AllSendable(fs: seq<Frame>, ss: seq<Style>) {
    |ss| == |fs| && forall i | 0 <= i < |fs| :: Sendable(fs[i], ss[i])
  }

  ghost function Stream(fs: seq<Frame>, ss: seq<Style>): Bytes
    requires AllSendable(fs, ss)
    decreases |fs|
  {
    if fs == [] then [] else Wire(fs[0], ss[0]) + Stream(fs[1..], ss[1..])
  }

  /** Decode frame after frame until one is incomplete; also what is left over. */
  function DecodeAll(data: Bytes): (seq<Frame>, Bytes)
    decreases |data|
  {
    var r := Decode(data);
    if !r.Decoded? then ([], data)
    else
      var (fs, rest) := DecodeAll(data[r.consumed..]);
      ([r.frame] + fs, rest)
  }

  ghost predicate Splits(data: Bytes, fs: seq<Frame>, left: Bytes) {
    DecodeAll(data) == (fs, left)
  }

  lemma DecodeFront(data: Bytes, f: Frame, s: Style, rest: Bytes, fs: seq<Frame>, left: Bytes)
    requires Sendable(f, s) && data == Wire(f, s) + rest && Splits(rest, fs, left)
    ensures Splits(data, [f] + fs, left)
  {
    DecodeWire(f, s, rest);
    assert data[|Wire(f, s)|..] == rest;
  }

  lemma RestSendable(fs: seq<Frame>, ss: seq<Style>)
    requires fs != [] && AllSendable(fs, ss)
    ensures Sendable(fs[0], ss[0]) && AllSendable(fs[1..], ss[1..])
  {
    forall i | 0 <= i < |fs| - 1 ensures Sendable(fs[1..][i], ss[1..][i]) {
      assert Sendable(fs[i + 1], ss[i + 1]);
    }
  }

  lemma StreamFront(fs: seq<Frame>, ss: seq<Style>, tail: Bytes)
    requires fs != [] && AllSendable(fs, ss) && Sendable(fs[0], ss[0]) && AllSendable(fs[1..], ss[1..])
    ensures Stream(fs, ss) + tail == Wire(fs[0], ss[0]) + (Stream(fs[1..], ss[1..]) + tail)
  {
    Regroup(Wire(fs[0], ss[0]), Stream(fs[1..], ss[1..]), tail);
  }

  lemma Regroup(a: Bytes, b: Bytes, c: Bytes)
    ensures (a + b) + c == a + (b + c)
  { }

  lemma TailOnly(f: Frame, s: Style, k: nat)
    requires Sendable(f, s) && k < |Wire(f, s)|
    ensures Splits([] + Wire(f, s)[..k], [], Wire(f, s)[..k])
  {
    PrefixIncomplete(f, s, k);
    assert [] + Wire(f, s)[..k] == Wire(f, s)[..k];
  }

  /** Main result: a stream of frames, followed by a cut-off one, decodes to the same list
      of frames and leaves the cut-off part. */
  lemma {:induction false} StreamDecodes(fs: seq<Frame>, ss: seq<Style>, f: Frame, s: Style, k: nat)
    requires AllSendable(fs, ss) && Sendable(f, s) && k < |Wire(f, s)|
    ensures Splits(Stream(fs, ss) + Wire(f, s)[..k], fs, Wire(f, s)[..k])
    decreases |fs|
  {
    var tail := Wire(f, s)[..k];
    if fs == [] {
      TailOnly(f, s, k);
    } else {
      RestSendable(fs, ss);
      StreamFront(fs, ss, tail);
      assert [fs[0]] + fs[1..] == fs;
      StreamDecodes(fs[1..], ss[1..], f, s, k);
      DecodeFront(Stream(fs, ss) + tail, fs[0], ss[0], Stream(fs[1..], ss[1..]) + tail, fs[1..], tail);
    }
  }
}
