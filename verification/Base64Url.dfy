/** base64url (section 5 of RFC 4648) as the token code encodes and decodes it. The decoder
    turns '-' and '_' back into '+' and '/', but looks characters up in the URL-safe table. */
module Base64Url {
  import opened Common

  const LETTERS_AND_DIGITS := "ABCDEFGHIJKLM" + "NOPQRSTUVWXYZ" + "abcdefghijklm" + "nopqrstuvwxyz" + "0123456789"
  const STD_TABLE := LETTERS_AND_DIGITS + "+/"
  const URL_TABLE := LETTERS_AND_DIGITS + "-_"

  type Sextet = b: Byte | b < 64 witness 0

  // ---- the alphabets ----

  function Letter(g: nat): (c: char)
    requires g < 62
    ensures c as int < 128 && c != '+' && c != '/' && c != '-' && c != '_' && c != '='
  {
    if g < 26 then 'A' + g as char
    else if g < 52 then 'a' + (g - 26) as char
    else '0' + (g - 52) as char
  }

  lemma TablesAre(g: nat)
    requires g < 64
    ensures |STD_TABLE| == 64 && STD_TABLE[g] == if g < 62 then Letter(g) else if g == 62 then '+' else '/'
    ensures |URL_TABLE| == 64 && URL_TABLE[g] == if g < 62 then Letter(g) else if g == 62 then '-' else '_'
  {
    if g < 62 {
      assert STD_TABLE[g] == LETTERS_AND_DIGITS[g] == URL_TABLE[g];
    }
  }

  lemma SextetIndex(g: Sextet)
    ensures g as nat < 64 && (g as nat) as Byte == g && (g < 62 <==> g as nat < 62)
  { }

  function StdChar(g: Sextet): char {
    SextetIndex(g);
    TablesAre(g as nat);
    STD_TABLE[g as nat]
  }

  function UrlChar(g: Sextet): char {
    SextetIndex(g);
    TablesAre(g as nat);
    URL_TABLE[g as nat]
  }

  /** Position of a character in the URL-safe table. */
  function Position(c: char): (r: Option<nat>)
    ensures r.Some? ==> r.value < 64
  {
    if 'A' <= c <= 'Z' then Some(c as nat - 'A' as nat)
    else if 'a' <= c <= 'z' then Some(c as nat - 'a' as nat + 26)
    else if '0' <= c <= '9' then Some(c as nat - '0' as nat + 52)
    else if c == '-' then Some(62)
    else if c == '_' then Some(63)
    else None
  }

  /** The decoding table; `None` is its 0xFF. */
  function Lookup(c: char): Option<Sextet> {
    match Position(c)
    case None => None
    case Some(i) => SmallByte(i); Some(i as Byte)
  }

  lemma SmallByte(i: nat)
    requires i < 64
    ensures (i as Byte) < 64 && (i as Byte) as nat == i
  {
    assert i % 256 == i;
  }

  lemma PositionIs(g: nat)
    requires g < 64
    ensures Position(URL_TABLE[g]) == Some(g)
    ensures Position(STD_TABLE[g]) == if g < 62 then Some(g) else None
  {
    TablesAre(g);
  }

  /** '-' and '_' become '+' and '/'. */
  function Restore(c: char): char {
    if c == '-' then '+' else if c == '_' then '/' else c
  }

  function UrlSafe(c: char): char {
    if c == '+' then '-' else if c == '/' then '_' else c
  }

  /** A restored character is found exactly if it is not one of the last two. */
  lemma SextetChar(g: Sextet)
    ensures UrlSafe(StdChar(g)) == UrlChar(g) && Restore(UrlChar(g)) == StdChar(g) && StdChar(g) != '='
    ensures Lookup(StdChar(g)) == if g < 62 then Some(g) else None
  {
    SextetIndex(g);
    TablesAre(g as nat);
    PositionIs(g as nat);
  }

  // ---- encoding ----

  /** The 6-bit groups of the bytes, the last one padded with zero bits. */
  function Groups(d: Bytes): (gs: seq<Sextet>)
    decreases |d|
  {
    if d == [] then []
    else if |d| == 1 then HeadGroups(d[0], 0)
    else if |d| == 2 then HeadGroups(d[0], d[1]) + [Third(d[1], 0)]
    else HeadGroups(d[0], d[1]) + [Third(d[1], d[2]), Fourth(d[2])] + Groups(d[3..])
  }

  function HeadGroups(b0: Byte, b1: Byte): (gs: seq<Sextet>)
    ensures |gs| == 2
  {
    GroupsSmall(b0, b1, 0);
    [b0 >> 2, ((b0 & 0x03) << 4) | (b1 >> 4)]
  }

  function Third(b1: Byte, b2: Byte): Sextet {
    GroupsSmall(0, b1, b2);
    ((b1 & 0x0F) << 2) | (b2 >> 6)
  }

  function Fourth(b2: Byte): Sextet {
    GroupsSmall(0, 0, b2);
    b2 & 0x3F
  }

  lemma GroupsSmall(b0: Byte, b1: Byte, b2: Byte)
    ensures b0 >> 2 < 64 && ((b0 & 0x03) << 4) | (b1 >> 4) < 64
    ensures ((b1 & 0x0F) << 2) | (b2 >> 6) < 64 && b2 & 0x3F < 64
  { }

  function Text(f: Sextet -> char, gs: seq<Sextet>): (s: string)
    ensures |s| == |gs|
  {
    seq(|gs|, i requires 0 <= i < |gs| => f(gs[i]))
  }

  /** `base64url_encode`. */
  function Encoded(d: Bytes): string {
    Text(UrlChar, Groups(d))
  }

  // ---- decoding ----

  function RestoredText(s: string): (r: string)
    ensures |r| == |s|
  {
    seq(|s|, i requires 0 <= i < |s| => Restore(s[i]))
  }

  function Pads(n: nat): (k: nat)
    ensures k < 4 && (n + k) % 4 == 0
  {
    (4 - n % 4) % 4
  }

  function PaddedText(s: string): (r: string)
    ensures |r| % 4 == 0
  {
    s + seq(Pads(|s|), i => '=')
  }

  function FirstByte(c0: Sextet, c1: Sextet): Byte { (c0 << 2) | (c1 >> 4) }

  function SecondByte(c1: Sextet, c2: Sextet): Byte { ((c1 & 0x0F) << 4) | (c2 >> 2) }

  function ThirdByte(c2: Sextet, c3: Sextet): Byte { ((c2 & 0x03) << 6) | c3 }

  /** One block of four characters. */
  function DecodedBlock(a: char, b: char, c: char, d: char): Option<Bytes> {
    match (Lookup(a), Lookup(b))
    case (Some(c0), Some(c1)) =>
      if c == '=' then Some([FirstByte(c0, c1)])
      else
        (match Lookup(c)
         case None => None
         case Some(c2) =>
           if d == '=' then Some([FirstByte(c0, c1), SecondByte(c1, c2)])
           else
             match Lookup(d)
             case None => None
             case Some(c3) => Some([FirstByte(c0, c1), SecondByte(c1, c2), ThirdByte(c2, c3)]))
    case _ => None
  }

  function DecodedBlocks(s: string): Option<Bytes>
    requires |s| % 4 == 0
    decreases |s|
  {
    if s == [] then Some([])
    else
      match DecodedBlock(s[0], s[1], s[2], s[3])
      case None => None
      case Some(x) =>
        match DecodedBlocks(s[4..])
        case None => None
        case Some(y) => Some(x + y)
  }

  /** `base64url_decode`. */
  function Decoded(s: string): Option<Bytes> {
    DecodedBlocks(PaddedText(RestoredText(s)))
  }

  // ---- what survives a round trip ----

  /** The groups that are read back: all of them, or those below 62. */
  ghost predicate Readable(gs: seq<Sextet>, all: bool) {
    all || forall i | 0 <= i < |gs| :: gs[i] < 62
  }

  ghost predicate ReadBack(f: Sextet -> char, g: Sextet, all: bool) {
    f(g) != '=' && Lookup(f(g)) == if all || g < 62 then Some(g) else None
  }

  /** An alphabet whose characters the decoding table reads back, all or those below 62. */
  ghost predicate Alphabet(f: Sextet -> char, all: bool) {
    forall g: Sextet :: ReadBack(f, g, all)
  }

  lemma Alphabets()
    ensures Alphabet(StdChar, false) && Alphabet(UrlChar, true)
  {
    forall g: Sextet ensures ReadBack(StdChar, g, false) && ReadBack(UrlChar, g, true) {
      SextetChar(g);
      SextetIndex(g);
      TablesAre(g as nat);
      PositionIs(g as nat);
    }
  }

  /** The groups of three bytes put together again. */
  lemma BytesOfGroups(b0: Byte, b1: Byte, b2: Byte)
    ensures FirstByte(HeadGroups(b0, b1)[0], HeadGroups(b0, b1)[1]) == b0
    ensures SecondByte(HeadGroups(b0, b1)[1], Third(b1, b2)) == b1
    ensures ThirdByte(Third(b1, b2), Fourth(b2)) == b2
  { }

  lemma FullBlock(f: Sextet -> char, all: bool, g0: Sextet, g1: Sextet, g2: Sextet, g3: Sextet)
    requires Alphabet(f, all)
    ensures DecodedBlock(f(g0), f(g1), f(g2), f(g3))
            == if all || (g0 < 62 && g1 < 62 && g2 < 62 && g3 < 62)
               then Some([FirstByte(g0, g1), SecondByte(g1, g2), ThirdByte(g2, g3)]) else None
  {
    assert ReadBack(f, g0, all) && ReadBack(f, g1, all) && ReadBack(f, g2, all) && ReadBack(f, g3, all);
  }

  lemma ShortBlock(f: Sextet -> char, all: bool, g0: Sextet, g1: Sextet, g2: Sextet)
    requires Alphabet(f, all)
    ensures DecodedBlock(f(g0), f(g1), f(g2), '=')
            == if all || (g0 < 62 && g1 < 62 && g2 < 62) then Some([FirstByte(g0, g1), SecondByte(g1, g2)]) else None
    ensures DecodedBlock(f(g0), f(g1), '=', '=') == if all || (g0 < 62 && g1 < 62) then Some([FirstByte(g0, g1)]) else None
  {
    assert ReadBack(f, g0, all) && ReadBack(f, g1, all) && ReadBack(f, g2, all);
  }

  /** A full block in front of a text is decoded on its own. */
  lemma BlockInFront(f: Sextet -> char, gs: seq<Sextet>, rest: seq<Sextet>)
    requires |gs| == 4
    ensures var s := PaddedText(Text(f, gs + rest)); var tail := PaddedText(Text(f, rest));
            s == [f(gs[0]), f(gs[1]), f(gs[2]), f(gs[3])] + tail && s[4..] == tail
  { }

  lemma OneBlock(a: char, b: char, c: char, d: char)
    ensures DecodedBlocks([a, b, c, d]) == DecodedBlock(a, b, c, d)
  {
    var s := [a, b, c, d];
    assert s[4..] == [];
    var r := DecodedBlock(a, b, c, d);
    if r.Some? { assert r.value + [] == r.value; }
  }

  /** How a text that ends inside a block is padded. */
  lemma PaddedEnd(f: Sextet -> char, gs: seq<Sextet>)
    ensures |gs| == 2 ==> PaddedText(Text(f, gs)) == [f(gs[0]), f(gs[1]), '=', '=']
    ensures |gs| == 3 ==> PaddedText(Text(f, gs)) == [f(gs[0]), f(gs[1]), f(gs[2]), '=']
  { }

  lemma LastBlockOfOne(f: Sextet -> char, all: bool, b0: Byte)
    requires Alphabet(f, all)
    ensures var gs := HeadGroups(b0, 0);
            DecodedBlocks(PaddedText(Text(f, gs))) == if Readable(gs, all) then Some([b0]) else None
  {
    var gs := HeadGroups(b0, 0);
    ShortBlock(f, all, gs[0], gs[1], 0);
    BytesOfGroups(b0, 0, 0);
    OneBlock(f(gs[0]), f(gs[1]), '=', '=');
    PaddedEnd(f, gs);
  }

  lemma LastBlockOfTwo(f: Sextet -> char, all: bool, b0: Byte, b1: Byte)
    requires Alphabet(f, all)
    ensures var gs := HeadGroups(b0, b1) + [Third(b1, 0)];
            DecodedBlocks(PaddedText(Text(f, gs))) == if Readable(gs, all) then Some([b0, b1]) else None
  {
    var gs := HeadGroups(b0, b1) + [Third(b1, 0)];
    ShortBlock(f, all, gs[0], gs[1], gs[2]);
    BytesOfGroups(b0, b1, 0);
    OneBlock(f(gs[0]), f(gs[1]), f(gs[2]), '=');
    PaddedEnd(f, gs);
  }

  lemma BlockOfThree(f: Sextet -> char, all: bool, b0: Byte, b1: Byte, b2: Byte)
    requires Alphabet(f, all)
    ensures var gs := HeadGroups(b0, b1) + [Third(b1, b2), Fourth(b2)];
            DecodedBlock(f(gs[0]), f(gs[1]), f(gs[2]), f(gs[3])) == if Readable(gs, all) then Some([b0, b1, b2]) else None
  {
    var gs := HeadGroups(b0, b1) + [Third(b1, b2), Fourth(b2)];
    FullBlock(f, all, gs[0], gs[1], gs[2], gs[3]);
    ReadableFour(gs, all);
    BytesOfGroups(b0, b1, b2);
  }

  lemma ReadableFour(gs: seq<Sextet>, all: bool)
    requires |gs| == 4
    ensures Readable(gs, all) <==> all || (gs[0] < 62 && gs[1] < 62 && gs[2] < 62 && gs[3] < 62)
  { }

  lemma ThreeInFront(f: Sextet -> char, all: bool, b0: Byte, b1: Byte, b2: Byte, d: Bytes)
    requires Alphabet(f, all)
    requires DecodedBlocks(PaddedText(Text(f, Groups(d)))) == if Readable(Groups(d), all) then Some(d) else None
    ensures var gs := HeadGroups(b0, b1) + [Third(b1, b2), Fourth(b2)] + Groups(d);
            DecodedBlocks(PaddedText(Text(f, gs))) == if Readable(gs, all) then Some([b0, b1, b2] + d) else None
  {
    var head := HeadGroups(b0, b1) + [Third(b1, b2), Fourth(b2)];
    BlockOfThree(f, all, b0, b1, b2);
    BlockInFront(f, head, Groups(d));
    ReadableSplit(head, Groups(d), all);
  }

  lemma CutThree(d: Bytes)
    requires |d| >= 3
    ensures d == [d[0], d[1], d[2]] + d[3..]
  { }

  lemma {:induction false} BlocksOfGroups(f: Sextet -> char, all: bool, d: Bytes)
    requires Alphabet(f, all)
    ensures DecodedBlocks(PaddedText(Text(f, Groups(d)))) == if Readable(Groups(d), all) then Some(d) else None
    decreases |d|
  {
    if d == [] {
      assert PaddedText(Text(f, Groups(d))) == [];
    } else if |d| == 1 {
      LastBlockOfOne(f, all, d[0]);
      assert d == [d[0]];
    } else if |d| == 2 {
      LastBlockOfTwo(f, all, d[0], d[1]);
      assert d == [d[0], d[1]];
    } else {
      BlocksOfGroups(f, all, d[3..]);
      ThreeInFront(f, all, d[0], d[1], d[2], d[3..]);
      CutThree(d);
    }
  }

  lemma ReadableSplit(a: seq<Sextet>, b: seq<Sextet>, all: bool)
    ensures Readable(a + b, all) <==> Readable(a, all) && Readable(b, all)
  {
    if Readable(a + b, all) && !all {
      forall i | 0 <= i < |a| ensures a[i] < 62 { assert (a + b)[i] == a[i]; }
      forall i | 0 <= i < |b| ensures b[i] < 62 { assert (a + b)[|a| + i] == b[i]; }
    }
  }

  lemma RestoredUrlText(gs: seq<Sextet>)
    ensures RestoredText(Text(UrlChar, gs)) == Text(StdChar, gs)
  {
    forall i | 0 <= i < |gs| ensures RestoredText(Text(UrlChar, gs))[i] == Text(StdChar, gs)[i] { SextetChar(gs[i]); }
  }

  /** Main result: decoding what was encoded gives the bytes back if no 6-bit group is 62
      or 63, and is refused otherwise, for every length. */
  lemma RoundTrip(d: Bytes)
    ensures Decoded(Encoded(d)) == if Readable(Groups(d), false) then Some(d) else None
  {
    Alphabets();
    RestoredUrlText(Groups(d));
    BlocksOfGroups(StdChar, false, d);
  }

  /** The encoder is not at fault: read without turning characters back, its output gives
      every byte string back. */
  lemma EncodingFaithful(d: Bytes)
    ensures DecodedBlocks(PaddedText(Encoded(d))) == Some(d)
  {
    Alphabets();
    BlocksOfGroups(UrlChar, true, d);
  }

  lemma HighChar(g: Sextet)
    ensures g < 62 <==> UrlChar(g) != '-' && UrlChar(g) != '_'
  {
    SextetIndex(g);
    TablesAre(g as nat);
  }

  /** The same in terms of the text: the decoder refuses exactly the encodings that use
      one of the two characters in which the URL-safe alphabet differs. */
  lemma RefusedEncodings(d: Bytes)
    ensures Decoded(Encoded(d)) == None <==> '-' in Encoded(d) || '_' in Encoded(d)
  {
    RoundTrip(d);
    var gs, s := Groups(d), Encoded(d);
    forall i | 0 <= i < |gs| ensures s[i] == UrlChar(gs[i]) && (gs[i] < 62 <==> s[i] != '-' && s[i] != '_') { HighChar(gs[i]); }
  }

  lemma OneByteRefused()
    ensures Encoded([0xFB]) == "-w" && Decoded(Encoded([0xFB])) == None
  {
    TablesAre(62);
    TablesAre(48);
    assert Groups([0xFB]) == [62, 48];
    assert UrlChar(62) == '-' && UrlChar(48) == 'w';
    RefusedEncodings([0xFB]);
    var s := Encoded([0xFB]);
    assert s[0] == '-';
  }

  // ---- the code's own loops ----

  /** Pushes the standard characters block by block, then makes them URL-safe in place. */
  method Encode(data: Bytes) returns (out: string)
    ensures out == Encoded(data)
  {
    out := "";
    var i := 0;
    assert data[0..] == data;
    while i < |data|
      invariant 0 <= i
      invariant i <= |data| ==> out + Text(StdChar, Groups(data[i..])) == Text(StdChar, Groups(data))
      invariant i > |data| ==> out == Text(StdChar, Groups(data))
    {
      BlockTextIs(data, i);
      out := PushBlock(data, i, out);
      i := i + 3;
    }
    if i == |data| { assert data[i..] == []; }
    assert out == Text(StdChar, Groups(data));
    StdTextSafe(Groups(data));
    // No '=' was pushed, so this takes nothing off.
    out := StripPadding(out);
    out := MakeUrlSafe(out);
  }

  lemma StdTextSafe(gs: seq<Sextet>)
    ensures '=' !in Text(StdChar, gs)
    ensures forall k | 0 <= k < |gs| :: UrlSafe(Text(StdChar, gs)[k]) == Text(UrlChar, gs)[k]
  {
    forall k | 0 <= k < |gs| ensures Text(StdChar, gs)[k] != '=' && UrlSafe(Text(StdChar, gs)[k]) == Text(UrlChar, gs)[k] {
      SextetChar(gs[k]);
    }
  }

  /** Takes the trailing '=' off. */
  method StripPadding(s: string) returns (r: string)
    ensures r <= s && (forall k | |r| <= k < |s| :: s[k] == '=') && (r != [] ==> r[|r| - 1] != '=')
    ensures '=' !in s ==> r == s
  {
    r := s;
    while r != [] && r[|r| - 1] == '='
      invariant r <= s && forall k | |r| <= k < |s| :: s[k] == '='
      decreases |r|
    {
      r := r[..|r| - 1];
    }
    assert |r| < |s| ==> s[|r|] in s;
  }

  /** The characters of the block that starts at `i`. */
  function BlockText(data: Bytes, i: nat): string
    requires i < |data|
  {
    var b0, b1, b2 := data[i], if i + 1 < |data| then data[i + 1] else 0, if i + 2 < |data| then data[i + 2] else 0;
    var gs := HeadGroups(b0, b1);
    [StdChar(gs[0]), StdChar(gs[1])]
    + (if i + 1 < |data| then [StdChar(Third(b1, b2))] else [])
    + if i + 2 < |data| then [StdChar(Fourth(b2))] else []
  }

  lemma BlockTextIs(data: Bytes, i: nat)
    requires i < |data|
    ensures Text(StdChar, Groups(data[i..])) ==
            BlockText(data, i) + if i + 3 <= |data| then Text(StdChar, Groups(data[i + 3..])) else []
  {
    if i + 3 <= |data| {
      assert data[i..][3..] == data[i + 3..];
      var gs := HeadGroups(data[i], data[i + 1]) + [Third(data[i + 1], data[i + 2]), Fourth(data[i + 2])];
      TextSplit(gs, Groups(data[i + 3..]));
      assert Text(StdChar, gs) == BlockText(data, i);
    } else {
      assert Text(StdChar, Groups(data[i..])) == BlockText(data, i);
    }
  }

  lemma TextSplit(a: seq<Sextet>, b: seq<Sextet>)
    ensures Text(StdChar, a + b) == Text(StdChar, a) + Text(StdChar, b)
  { }

  /** The body of the encoding loop. */
  method PushBlock(data: Bytes, i: nat, out: string) returns (r: string)
    requires i < |data|
    ensures r == out + BlockText(data, i)
  {
    var b0 := data[i];
    var b1 := if i + 1 < |data| then data[i + 1] else 0;
    var b2 := if i + 2 < |data| then data[i + 2] else 0;
    var gs := HeadGroups(b0, b1);
    r := out + [StdChar(gs[0])];
    r := r + [StdChar(gs[1])];
    if i + 1 < |data| {
      r := r + [StdChar(Third(b1, b2))];
    }
    if i + 2 < |data| {
      r := r + [StdChar(Fourth(b2))];
    }
  }

  method MakeUrlSafe(s: string) returns (r: string)
    ensures |r| == |s| && forall k | 0 <= k < |s| :: r[k] == UrlSafe(s[k])
  {
    r := s;
    for i := 0 to |s|
      invariant |r| == |s|
      invariant forall k | 0 <= k < i :: r[k] == UrlSafe(s[k])
      invariant forall k | i <= k < |s| :: r[k] == s[k]
    {
      if r[i] == '+' {
        r := r[i := '-'];
      } else if r[i] == '/' {
        r := r[i := '_'];
      }
    }
  }

  method RestoreStandard(s: string) returns (r: string)
    ensures r == RestoredText(s)
  {
    r := s;
    for i := 0 to |s|
      invariant |r| == |s|
      invariant forall k | 0 <= k < i :: r[k] == Restore(s[k])
      invariant forall k | i <= k < |s| :: r[k] == s[k]
    {
      if r[i] == '-' {
        r := r[i := '+'];
      } else if r[i] == '_' {
        r := r[i := '/'];
      }
    }
  }

  method Pad(s: string) returns (r: string)
    ensures r == PaddedText(s)
  {
    r := s;
    ghost var k := 0;
    while |r| % 4 != 0
      invariant k <= Pads(|s|) && r == s + seq(k, i => '=')
      decreases Pads(|s|) - k
    {
      r := r + "=";
      k := k + 1;
    }
  }

  function Entry(c: char): Byte {
    match Lookup(c) case None => 0xFF case Some(g) => g
  }

  /** The table when the first `n` letters have been entered. */
  function EntryUpTo(c: char, n: nat): Byte {
    if Position(c).Some? && Position(c).value < n then Entry(c) else 0xFF
  }

  /** The URL-safe table read backwards. */
  lemma OnlyAt(c: char, i: nat)
    requires i < 64
    ensures Position(c) == Some(i) <==> c == URL_TABLE[i]
  {
    PositionIs(i);
    TablesAre(i);
  }

  lemma NextEntry(c: char, i: nat)
    requires i < 64
    ensures EntryUpTo(c, i + 1) == if c == URL_TABLE[i] then i as Byte else EntryUpTo(c, i)
  {
    OnlyAt(c, i);
  }

  ghost predicate Entered(dec: array<Byte>, c: char, n: nat)
    requires dec.Length == 256
    reads dec
  {
    c as int < 256 ==> dec[c as int] == EntryUpTo(c, n)
  }

  ghost predicate TableUpTo(dec: array<Byte>, n: nat)
    reads dec
  {
    dec.Length == 256 && forall c: char :: Entered(dec, c, n)
  }

  /** Fills the 256-entry table from the URL-safe alphabet; 0xFF marks the rest. */
  method BuildTable() returns (dec: array<Byte>)
    ensures fresh(dec) && TableUpTo(dec, 64)
  {
    dec := new Byte[256](_ => 0xFF);
    forall c: char ensures Entered(dec, c, 0) { }
    var i := 0;
    while i < 64
      invariant 0 <= i <= 64
      invariant TableUpTo(dec, i)
    {
      TablesAre(i);
      ghost var before := dec[..];
      forall c: char | c as int < 256 ensures before[c as int] == EntryUpTo(c, i) { assert Entered(dec, c, i); }
      dec[URL_TABLE[i] as int] := i as Byte;
      ghost var n := i + 1;
      forall c: char ensures Entered(dec, c, n) {
        NextEntry(c, i);
        if c as int < 256 && c != URL_TABLE[i] { assert dec[c as int] == before[c as int]; }
      }
      i := i + 1;
    }
  }

  /** What the filled table says about one character. */
  lemma TableEntry(dec: array<Byte>, c: char)
    requires TableUpTo(dec, 64) && c as int < 256
    ensures if Lookup(c).None? then dec[c as int] == 0xFF else dec[c as int] != 0xFF && Lookup(c) == Some(dec[c as int])
  {
    assert Entered(dec, c, 64);
  }

  method Decode(str: string) returns (r: Option<Bytes>)
    requires forall k | 0 <= k < |str| :: str[k] as int < 256
    ensures r == Decoded(str)
  {
    var restored := RestoreStandard(str);
    var input := Pad(restored);
    assert forall k | 0 <= k < |input| :: input[k] as int < 256;
    r := DecodeText(input);
  }

  method DecodeText(input: string) returns (r: Option<Bytes>)
    requires |input| % 4 == 0 && forall k | 0 <= k < |input| :: input[k] as int < 256
    ensures r == DecodedBlocks(input)
  {
    var dec := BuildTable();
    var out: Bytes := [];
    var i := 0;
    RestStart(input);
    while i < |input|
      invariant 0 <= i <= |input| && AtBlock(input, i)
      invariant TableUpTo(dec, 64)
      invariant DecodedBlocks(input) == Joined(out, Rest(input, i))
    {
      RestStep(input, i);
      var block := DecodeBlock(input[i], input[i + 1], input[i + 2], input[i + 3], dec);
      if block.None? {
        return None;
      }
      JoinedMore(out, block.value, Rest(input, i + 4));
      out := out + block.value;
      i := i + 4;
    }
    RestEnd(input, out);
    return Some(out);
  }

  ghost predicate AtBlock(input: string, i: nat) {
    i <= |input| && (|input| - i) % 4 == 0
  }

  function Rest(input: string, i: nat): Option<Bytes>
    requires AtBlock(input, i)
  {
    DecodedBlocks(input[i..])
  }

  lemma RestStart(input: string)
    requires |input| % 4 == 0
    ensures AtBlock(input, 0) && DecodedBlocks(input) == Joined([], Rest(input, 0))
  {
    assert input[0..] == input;
    var r := DecodedBlocks(input);
    if r.Some? { assert [] + r.value == r.value; }
  }

  lemma RestStep(input: string, i: nat)
    requires AtBlock(input, i) && i < |input|
    ensures i + 4 <= |input| && AtBlock(input, i + 4)
    ensures var x := DecodedBlock(input[i], input[i + 1], input[i + 2], input[i + 3]);
            Rest(input, i) == if x.None? then None else Joined(x.value, Rest(input, i + 4))
  {
    assert input[i..][4..] == input[i + 4..];
  }

  lemma RestEnd(input: string, out: Bytes)
    requires AtBlock(input, |input|)
    ensures Joined(out, Rest(input, |input|)) == Some(out)
  {
    assert input[|input|..] == [] && out + [] == out;
  }

  lemma JoinedMore(out: Bytes, x: Bytes, r: Option<Bytes>)
    ensures Joined(out, Joined(x, r)) == Joined(out + x, r)
  {
    if r.Some? { assert out + (x + r.value) == (out + x) + r.value; }
  }

  function Joined(out: Bytes, r: Option<Bytes>): Option<Bytes> {
    match r case None => None case Some(y) => Some(out + y)
  }

  /** The body of the decoding loop. */
  method DecodeBlock(a: char, b: char, c: char, d: char, dec: array<Byte>) returns (r: Option<Bytes>)
    requires a as int < 256 && b as int < 256 && c as int < 256 && d as int < 256 && TableUpTo(dec, 64)
    ensures r == DecodedBlock(a, b, c, d)
  {
    TableEntry(dec, a);
    TableEntry(dec, b);
    TableEntry(dec, c);
    TableEntry(dec, d);
    if dec[a as int] == 0xFF || dec[b as int] == 0xFF {
      return None;
    }
    var c0, c1 := dec[a as int], dec[b as int];
    var out: Bytes := [(c0 << 2) | (c1 >> 4)];
    if c != '=' {
      if dec[c as int] == 0xFF {
        return None;
      }
      var c2 := dec[c as int];
      out := out + [((c1 & 0x0F) << 4) | (c2 >> 2)];
      assert out == [FirstByte(c0, c1), SecondByte(c1, c2)];
      if d != '=' {
        if dec[d as int] == 0xFF {
          return None;
        }
        var c3 := dec[d as int];
        out := out + [((c2 & 0x03) << 6) | c3];
        assert out == [FirstByte(c0, c1), SecondByte(c1, c2), ThirdByte(c2, c3)];
      }
    }
    return Some(out);
  }
}
