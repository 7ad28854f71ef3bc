/** Parsing the wire text of requests gives the requests back, however it is cut. */
module HttpRoundTrip {
  import opened Common
  import opened Decimal
  import opened HttpSpec

  // ---- composing feeds ----

  function Then(a: Fed, b: Fed): Fed {
    b.(fired := a.fired + b.fired)
  }

  lemma {:induction false} FeedAppend(p: Parser, a: string, b: string)
    ensures Feed(p, a + b) == if Feed(p, a).threw then Feed(p, a) else Then(Feed(p, a), Feed(Feed(p, a).parser, b))
    decreases |a|
  {
    if a == "" {
      assert a + b == b;
      assert [] + Feed(p, b).fired == Feed(p, b).fired;
    } else {
      assert (a + b)[1..] == a[1..] + b && (a + b)[0] == a[0];
      match StepChar(p, a[0])
      case Go(q) => FeedAppend(q, a[1..], b);
      case Fire(r) =>
        FeedAppend(FRESH, a[1..], b);
        var x, y := Feed(FRESH, a[1..]), Feed(Feed(FRESH, a[1..]).parser, b);
        assert [r] + (x.fired + y.fired) == ([r] + x.fired) + y.fired;
      case Throw =>
    }
  }

  function Joined(pieces: seq<string>): string {
    if pieces == [] then "" else pieces[0] + Joined(pieces[1..])
  }

  /** Where the input is cut does not matter. */
  lemma {:induction false} CutAnywhere(p: Parser, pieces: seq<string>)
    ensures FeedAll(p, pieces) == Feed(p, Joined(pieces))
    decreases |pieces|
  {
    if pieces != [] {
      FeedAppend(p, pieces[0], Joined(pieces[1..]));
      CutAnywhere(Feed(p, pieces[0]).parser, pieces[1..]);
    }
  }

  /** A piece that fires nothing moves the parser to `q`. */
  predicate Moves(p: Parser, s: string, q: Parser) {
    Feed(p, s) == Fed(q, [], false)
  }

  lemma MovesThen(p: Parser, a: string, q: Parser, b: string)
    requires Moves(p, a, q)
    ensures Feed(p, a + b) == Feed(q, b)
  {
    FeedAppend(p, a, b);
    assert [] + Feed(q, b).fired == Feed(q, b).fired;
  }

  lemma MovesOne(p: Parser, c: char, q: Parser)
    requires StepChar(p, c) == Go(q)
    ensures Moves(p, [c], q)
  {
    assert [c][1..] == "";
  }

  // ---- runs of plain characters ----

  /** Characters that end a token. */
  function Stops(phase: Phase): set<char> {
    match phase
    case InMethod => {' '}
    case InPath => {' ', '?'}
    case InQuery => {' '}
    case InField => {':'}
    case InValue => {'\r', '\n'}
    case _ => {}
  }

  predicate Collects(phase: Phase) {
    phase.InMethod? || phase.InPath? || phase.InQuery? || phase.InField? || phase.InValue?
  }

  /** The parser after a token's characters joined its buffer. */
  function Collected(p: Parser, s: string): Parser
    requires Collects(p.phase)
  {
    match p.phase
    case InMethod => p.(verb := p.verb + s)
    case InPath => p.(path := p.path + s)
    case InQuery => p.(query := p.query + s)
    case InField => p.(field := p.field + s)
    case InValue => p.(value := p.value + s)
  }

  lemma {:induction false} Collect(p: Parser, s: string)
    requires Collects(p.phase) && Without(s, Stops(p.phase))
    ensures Moves(p, s, Collected(p, s))
    decreases |s|
  {
    if s == "" {
      assert forall t: string :: t + s == t;
    } else {
      var q := Collected(p, [s[0]]);
      assert StepChar(p, s[0]) == Go(q);
      Collect(q, s[1..]);
      assert [s[0]] + s[1..] == s;
      assert forall t: string :: (t + [s[0]]) + s[1..] == t + s by {
        forall t: string ensures (t + [s[0]]) + s[1..] == t + s { assert (t + [s[0]]) + s[1..] == t + ([s[0]] + s[1..]); }
      }
    }
  }

  /** A token: its first character opens the buffer, the others join it. */
  lemma Token(p: Parser, s: string, q: Parser)
    requires s != "" && StepChar(p, s[0]) == Go(q) && Collects(q.phase) && Without(s, Stops(q.phase))
    ensures Moves(p, s, Collected(q, s[1..]))
  {
    Collect(q, s[1..]);
  }

  // ---- the request line ----

  lemma VerbPart(verb: string)
    requires verb != "" && !IsSpace(verb[0]) && Without(verb, {' '})
    ensures Moves(FRESH, verb + " ",
                  FRESH.(phase := BeforePath, verb := verb, req := NO_REQUEST.(verb := ParseMethod(verb))))
  {
    var p1 := FRESH.(phase := InMethod, verb := verb);
    assert [verb[0]] + verb[1..] == verb;
    Token(FRESH, verb, FRESH.(phase := InMethod, verb := [verb[0]]));
    MovesThen(FRESH, verb, p1, " ");
    MovesOne(p1, ' ', p1.(phase := BeforePath, req := NO_REQUEST.(verb := ParseMethod(verb))));
  }

  lemma PathPart(p: Parser, path: string, stop: char, q: Parser)
    requires p.phase == BeforePath && path != "" && Without(path, {' ', '?'})
    requires StepChar(p.(phase := InPath, path := path), stop) == Go(q)
    ensures Moves(p, path + [stop], q)
  {
    var p1 := p.(phase := InPath, path := path);
    assert [path[0]] + path[1..] == path;
    Token(p, path, p.(phase := InPath, path := [path[0]]));
    MovesThen(p, path, p1, [stop]);
    MovesOne(p1, stop, q);
  }

  lemma TargetPart(p: Parser, w: Wire)
    requires WellFormed(w) && p.phase == BeforePath && p.query == "" && p.req.query == ""
    ensures var q := Feed(p, Target(w) + " ");
            && q.fired == [] && !q.threw && q.parser.phase == VersionH
            && q.parser.req == p.req.(path := w.path, query := if w.query.Some? then w.query.value else "")
  {
    if w.query.Some? {
      var p2 := p.(phase := InQuery, path := w.path);
      var p3 := p2.(query := w.query.value);
      PathPart(p, w.path, '?', p2);
      assert Target(w) + " " == (w.path + "?") + (w.query.value + " ");
      MovesThen(p, w.path + "?", p2, w.query.value + " ");
      assert "" + w.query.value == w.query.value;
      Collect(p2, w.query.value);
      MovesThen(p2, w.query.value, p3, " ");
      MovesOne(p3, ' ', p3.(phase := VersionH, req := p.req.(path := w.path, query := w.query.value)));
    } else {
      PathPart(p, w.path, ' ', p.(phase := VersionH, path := w.path, req := p.req.(path := w.path)));
    }
  }

  /** From the start to just before the version. */
  lemma RequestLine(w: Wire)
    requires WellFormed(w)
    ensures var q := Feed(FRESH, w.verb + " " + Target(w) + " ");
            && q.fired == [] && !q.threw && q.parser.phase == VersionH
            && q.parser.req == NO_REQUEST.(verb := ParseMethod(w.verb), path := w.path,
                                           query := if w.query.Some? then w.query.value else "")
  {
    var p := FRESH.(phase := BeforePath, verb := w.verb, req := NO_REQUEST.(verb := ParseMethod(w.verb)));
    VerbPart(w.verb);
    MovesThen(FRESH, w.verb + " ", p, Target(w) + " ");
    assert w.verb + " " + Target(w) + " " == (w.verb + " ") + (Target(w) + " ");
    TargetPart(p, w);
  }

  lemma FeedStep(p: Parser, s: string, k: nat, q: Parser)
    requires k < |s| && StepChar(p, s[k]) == Go(q)
    ensures Feed(p, s[k..]) == Feed(q, s[k + 1..])
  {
    assert s[k..][1..] == s[k + 1..];
  }

  lemma ProtocolName(p: Parser)
    requires p.phase == VersionH
    ensures Moves(p, "HTTP/", p.(version := "HT/", phase := VersionMajor))
  {
    var s := "HTTP/";
    var p1 := p.(version := "H", phase := VersionT);
    var p2 := p.(version := "HT", phase := VersionSlash);
    assert s[0..] == s;
    FeedStep(p, s, 0, p1);
    FeedStep(p1, s, 1, p2);
    FeedStep(p2, s, 2, p2);
    FeedStep(p2, s, 3, p2);
    FeedStep(p2, s, 4, p.(version := "HT/", phase := VersionMajor));
  }

  lemma VersionNumber(p: Parser)
    requires p.phase == VersionMajor && p.version == "HT/"
    ensures Moves(p, "1.1\r\n", p.(version := "HT/1.1\r", phase := HeaderLF, req := p.req.(version := "HTTP/1.1")))
  {
    var s := "1.1\r\n";
    var p1 := p.(version := "HT/1");
    var p2 := p.(version := "HT/1.", phase := VersionMinor);
    var p3 := p.(version := "HT/1.1", phase := VersionMinor);
    var p4 := p.(version := "HT/1.1\r", phase := AfterVersion);
    assert s[0..] == s;
    FeedStep(p, s, 0, p1);
    FeedStep(p1, s, 1, p2);
    FeedStep(p2, s, 2, p3);
    FeedStep(p3, s, 3, p4);
    FeedStep(p4, s, 4, p4.(phase := HeaderLF, req := p.req.(version := "HTTP/1.1")));
  }

  /** The version text leads to the header section and records the version. */
  lemma VersionText(p: Parser)
    requires p.phase == VersionH
    ensures Moves(p, "HTTP/1.1\r\n", p.(version := "HT/1.1\r", phase := HeaderLF, req := p.req.(version := "HTTP/1.1")))
  {
    ProtocolName(p);
    assert "HTTP/1.1\r\n" == "HTTP/" + "1.1\r\n";
    MovesThen(p, "HTTP/", p.(version := "HT/", phase := VersionMajor), "1.1\r\n");
    VersionNumber(p.(version := "HT/", phase := VersionMajor));
  }

  // ---- headers ----

  /** The field name and the colon. */
  lemma FieldColon(p: Parser, field: string)
    requires p.phase == HeaderLF && field != "" && Without(field, {':', '\r', '\n'})
    ensures Moves(p, field + ":", p.(phase := BeforeValue, field := field))
  {
    var p1 := p.(phase := InField, field := field);
    assert [field[0]] + field[1..] == field;
    Token(p, field, p.(phase := InField, field := [field[0]]));
    MovesThen(p, field, p1, ":");
    MovesOne(p1, ':', p1.(phase := BeforeValue));
  }

  lemma FieldPart(p: Parser, field: string)
    requires p.phase == HeaderLF && field != "" && Without(field, {':', '\r', '\n'})
    ensures Moves(p, field + ": ", p.(phase := BeforeValue, field := field))
  {
    var p2 := p.(phase := BeforeValue, field := field);
    assert field + ": " == (field + ":") + " ";
    FieldColon(p, field);
    MovesThen(p, field + ":", p2, " ");
    MovesOne(p2, ' ', p2);
  }

  /** A value that starts with its first character, and the end of the line. */
  lemma PlainValuePart(p: Parser, v: string)
    requires p.phase == BeforeValue && v != "" && v[0] != ' ' && Without(v, {'\r', '\n'})
    ensures Moves(p, v + "\r\n", p.(phase := HeaderLF, value := v, req := AddHeader(p.req, p.field, v)))
  {
    var p3 := p.(phase := InValue, value := v);
    var p4 := p3.(phase := ValueLF, req := AddHeader(p.req, p.field, v));
    assert [v[0]] + v[1..] == v;
    assert "\r\n" == "\r" + "\n";
    Token(p, v, p.(phase := InValue, value := [v[0]]));
    MovesThen(p, v, p3, "\r\n");
    MovesOne(p3, '\r', p4);
    MovesThen(p3, "\r", p4, "\n");
    MovesOne(p4, '\n', p4.(phase := HeaderLF));
  }

  /** The first character after the colon is taken as the value whatever it is. */
  lemma BareLine(p: Parser)
    requires p.phase == BeforeValue
    ensures Moves(p, "\r\n", p.(phase := HeaderLF, value := "\r", req := AddHeader(p.req, p.field, "\r")))
  {
    var p3 := p.(phase := InValue, value := "\r");
    assert "\r\n" == "\r" + "\n";
    MovesOne(p, '\r', p3);
    MovesThen(p, "\r", p3, "\n");
    MovesOne(p3, '\n', p3.(phase := HeaderLF, req := AddHeader(p.req, p.field, "\r")));
  }

  /** Any value: leading blanks are skipped, and nothing is read as a carriage return. */
  lemma {:induction false} ValuePart(p: Parser, v: string)
    requires p.phase == BeforeValue && Without(v, {'\r', '\n'})
    ensures Moves(p, v + "\r\n", p.(phase := HeaderLF, value := StoredValue(v), req := AddHeader(p.req, p.field, StoredValue(v))))
    decreases |v|
  {
    if v == "" {
      BareLine(p);
      assert v + "\r\n" == "\r\n";
    } else if v[0] == ' ' {
      ValuePart(p, v[1..]);
      MovesOne(p, ' ', p);
      MovesThen(p, " ", p, v[1..] + "\r\n");
      assert v + "\r\n" == " " + (v[1..] + "\r\n");
    } else {
      PlainValuePart(p, v);
    }
  }

  lemma OneHeader(p: Parser, h: (string, string))
    requires p.phase == HeaderLF && GoodHeader(h)
    ensures Moves(p, HeaderLine(h), p.(field := h.0, value := StoredValue(h.1), req := AddHeader(p.req, h.0, StoredValue(h.1))))
  {
    var p2 := p.(phase := BeforeValue, field := h.0);
    assert HeaderLine(h) == (h.0 + ": ") + (h.1 + "\r\n");
    FieldPart(p, h.0);
    MovesThen(p, h.0 + ": ", p2, h.1 + "\r\n");
    ValuePart(p2, h.1);
  }

  /** Main result: a field line is stored as written if and only if its value is not empty
      and does not start with a blank; it never fires, throws or derails the parser. */
  lemma FieldReadBack(p: Parser, field: string, v: string)
    requires p.phase == HeaderLF && GoodHeader((field, v))
    ensures var q := Feed(p, HeaderLine((field, v)));
            && q.fired == [] && !q.threw && q.parser.phase == HeaderLF
            && q.parser.req == AddHeader(p.req, field, StoredValue(v))
            && (q.parser.req == AddHeader(p.req, field, v) <==> v != "" && v[0] != ' ')
  {
    OneHeader(p, (field, v));
    var x, y := AddHeader(p.req, field, StoredValue(v)), AddHeader(p.req, field, v);
    assert x.headers[field] == StoredValue(v) && y.headers[field] == v;
  }

  /** Also without the blank after the colon, a field with no value is stored as a carriage return. */
  lemma EmptyValueMisread(p: Parser, field: string)
    requires p.phase == HeaderLF && field != "" && Without(field, {':', '\r', '\n'})
    ensures var q := Feed(p, field + ":" + "\r\n");
            q.fired == [] && !q.threw && q.parser.phase == HeaderLF && q.parser.req == AddHeader(p.req, field, "\r")
  {
    var p2 := p.(phase := BeforeValue, field := field);
    FieldColon(p, field);
    MovesThen(p, field + ":", p2, "\r\n");
    BareLine(p2);
  }

  lemma StoredMapUpdate(m: map<string, string>, f: string, v: string)
    ensures StoredMap(m)[f := StoredValue(v)] == StoredMap(m[f := v])
  { }

  lemma {:induction false} AllHeaders(p: Parser, m: map<string, string>, hs: seq<(string, string)>)
    requires p.phase == HeaderLF && p.req.headers == StoredMap(m) && forall i | 0 <= i < |hs| :: GoodHeader(hs[i])
    ensures var q := Feed(p, HeaderLines(hs));
            && q.fired == [] && !q.threw && q.parser.phase == HeaderLF
            && q.parser.req == p.req.(headers := StoredMap(HeaderMap(m, hs)))
    decreases |hs|
  {
    if hs != [] {
      var v := StoredValue(hs[0].1);
      OneHeader(p, hs[0]);
      StoredMapUpdate(m, hs[0].0, hs[0].1);
      var p1 := p.(field := hs[0].0, value := v, req := AddHeader(p.req, hs[0].0, v));
      MovesThen(p, HeaderLine(hs[0]), p1, HeaderLines(hs[1..]));
      AllHeaders(p1, m[hs[0].0 := hs[0].1], hs[1..]);
    }
  }

  // ---- the whole head ----

  function HeadOnly(w: Wire): Request { Reading(w).(body := "") }

  /** What the head alone leads to, by the announced length. */
  lemma HeadParsed(w: Wire)
    requires WellFormed(w)
    ensures var q := Feed(FRESH, Head(w)); var length := DeclaredLength(Reading(w).headers);
            if length.None? then q.threw && q.fired == []
            else if length.value == 0 then q == Fed(FRESH, [HeadOnly(w)], false)
            else !q.threw && q.fired == [] && q.parser.phase == InBody && q.parser.body == ""
                 && q.parser.remaining == length.value && q.parser.req == HeadOnly(w)
  {
    var line := w.verb + " " + Target(w) + " ";
    var p1 := Feed(FRESH, line).parser;
    RequestLine(w);
    var tail := "HTTP/1.1\r\n" + (HeaderLines(w.headers) + "\r\n");
    assert Head(w) == line + tail;
    MovesThen(FRESH, line, p1, tail);
    var p2 := Feed(p1, "HTTP/1.1\r\n").parser;
    VersionText(p1);
    MovesThen(p1, "HTTP/1.1\r\n", p2, HeaderLines(w.headers) + "\r\n");
    var p3 := Feed(p2, HeaderLines(w.headers)).parser;
    AllHeaders(p2, map[], w.headers);
    MovesThen(p2, HeaderLines(w.headers), p3, "\r\n");
    BlankLine(p3);
    assert p3.req == HeadOnly(w);
  }

  lemma BlankLine(p: Parser)
    requires p.phase == HeaderLF
    ensures Feed(p, "\r\n") == match EndOfHeaders(p.(phase := HeaderFieldStart))
                               case Go(q) => Fed(q, [], false)
                               case Fire(r) => Fed(FRESH, [r], false)
                               case Throw => Fed(p.(phase := HeaderFieldStart), [], true)
  {
    var p1 := p.(phase := HeaderFieldStart);
    MovesOne(p, '\r', p1);
    assert "\r\n" == "\r" + "\n";
    MovesThen(p, "\r", p1, "\n");
    LastLineFeed(p1);
  }

  lemma LastLineFeed(p: Parser)
    requires p.phase == HeaderFieldStart
    ensures Feed(p, "\n") == match EndOfHeaders(p)
                             case Go(q) => Fed(q, [], false)
                             case Fire(r) => Fed(FRESH, [r], false)
                             case Throw => Fed(p, [], true)
  {
    assert "\n"[1..] == "";
  }

  // ---- the body ----

  /** Fewer characters than announced: the parser waits. */
  lemma {:induction false} BodyPart(p: Parser, s: string)
    requires p.phase == InBody && |p.body| + |s| < p.remaining
    ensures Moves(p, s, p.(body := p.body + s))
    decreases |s|
  {
    if s == "" {
      assert p.body + s == p.body;
    } else {
      var q := p.(body := p.body + [s[0]]);
      BodyPart(q, s[1..]);
      assert (p.body + [s[0]]) + s[1..] == p.body + s;
    }
  }

  /** Exactly the announced characters: the request fires and the parser is fresh. */
  lemma BodyWhole(p: Parser, s: string)
    requires p.phase == InBody && p.body == "" && p.req.body == "" && |s| == p.remaining > 0
    ensures Feed(p, s) == Fed(FRESH, [p.req.(body := s)], false)
  {
    var n := |s| - 1;
    var q := p.(body := s[..n]);
    BodyPart(p, s[..n]);
    assert "" + s[..n] == s[..n] && s == s[..n] + [s[n]];
    MovesThen(p, s[..n], q, [s[n]]);
    assert [s[n]][1..] == "" && "" + s == s;
  }

  /** With at least the announced characters, the request fires with just those. */
  lemma BodyAndMore(p: Parser, s: string)
    requires p.phase == InBody && p.body == "" && p.req.body == "" && 0 < p.remaining <= |s|
    ensures var first := p.req.(body := s[..p.remaining]);
            Feed(p, s).fired != [] && Feed(p, s).fired[0] == first
    ensures |s| == p.remaining ==> Feed(p, s) == Fed(FRESH, [p.req.(body := s)], false)
  {
    var k := p.remaining;
    BodyWhole(p, s[..k]);
    assert s == s[..k] + s[k..];
    FeedAppend(p, s[..k], s[k..]);
    if k == |s| { assert s[..k] == s; }
  }

  /** From a fresh parser a well-formed request fires alone, as it is read, and leaves the
      parser fresh if and only if the length read is the length of its body. In any case
      what is fired first has the headers that were read. */
  lemma OneReading(w: Wire)
    requires WellFormed(w)
    ensures Feed(FRESH, Text(w)) == Fed(FRESH, [Reading(w)], false) <==> LengthMatches(w)
    ensures Feed(FRESH, Text(w)).fired != [] ==> Feed(FRESH, Text(w)).fired[0].headers == Reading(w).headers
  {
    var length := DeclaredLength(Reading(w).headers);
    var head := Feed(FRESH, Head(w));
    HeadParsed(w);
    FeedAppend(FRESH, Head(w), w.body);
    if length.Some? {
      if length.value == 0 {
        NoBody(w);
      } else if |w.body| < length.value {
        BodyPart(head.parser, w.body);
      } else {
        BodyAndMore(head.parser, w.body);
        var rest := Feed(head.parser, w.body);
        assert [] + rest.fired == rest.fired;
      }
    }
  }

  lemma NoBody(w: Wire)
    ensures ([HeadOnly(w)] + Feed(FRESH, w.body).fired)[0] == HeadOnly(w)
    ensures w.body == "" ==> [HeadOnly(w)] + Feed(FRESH, w.body).fired == [Reading(w)]
  { }

  /** A request is read as written exactly when its values are plain. */
  lemma ReadingIsMeaning(w: Wire)
    ensures Reading(w) == Meaning(w) <==> PlainValues(w)
  {
    var m := HeaderMap(map[], w.headers);
    if PlainValues(w) {
      assert StoredMap(m) == m;
    } else {
      var f :| f in m && (m[f] == "" || m[f][0] == ' ');
      assert StoredMap(m)[f] == StoredValue(m[f]) != m[f];
    }
  }

  /** Main result: from a fresh parser a well-formed request fires exactly itself and leaves
      the parser fresh if and only if its header values are plain and the length it
      announces is the length of its body. */
  lemma OneRequest(w: Wire)
    requires WellFormed(w)
    ensures Feed(FRESH, Text(w)) == Fed(FRESH, [Meaning(w)], false) <==> PlainValues(w) && LengthMatches(w)
  {
    OneReading(w);
    ReadingIsMeaning(w);
    var q := Feed(FRESH, Text(w));
    if q == Fed(FRESH, [Meaning(w)], false) {
      assert q.fired[0] == Meaning(w);
    }
  }

  /** Main result: pipelined requests, cut into buffers anywhere, come out one by one in
      order and the parser ends where it began; and they come out exactly as written if
      and only if all their header values are plain. */
  lemma {:induction false} PipelinedRoundTrip(ws: seq<Wire>, pieces: seq<string>)
    requires forall i | 0 <= i < |ws| :: WellFormed(ws[i]) && LengthMatches(ws[i])
    requires Joined(pieces) == Texts(ws)
    ensures FeedAll(FRESH, pieces) == Fed(FRESH, Readings(ws), false)
    ensures FeedAll(FRESH, pieces) == Fed(FRESH, Meanings(ws), false) <==> forall i | 0 <= i < |ws| :: PlainValues(ws[i])
  {
    CutAnywhere(FRESH, pieces);
    Pipelined(ws);
    ReadingsAreMeanings(ws);
  }

  lemma {:induction false} Pipelined(ws: seq<Wire>)
    requires forall i | 0 <= i < |ws| :: WellFormed(ws[i]) && LengthMatches(ws[i])
    ensures Feed(FRESH, Texts(ws)) == Fed(FRESH, Readings(ws), false)
  {
    if ws != [] {
      OneReading(ws[0]);
      FeedAppend(FRESH, Text(ws[0]), Texts(ws[1..]));
      Pipelined(ws[1..]);
    }
  }

  lemma {:induction false} ReadingsAreMeanings(ws: seq<Wire>)
    ensures Readings(ws) == Meanings(ws) <==> forall i | 0 <= i < |ws| :: PlainValues(ws[i])
  {
    if ws != [] {
      ReadingIsMeaning(ws[0]);
      ReadingsAreMeanings(ws[1..]);
      var r, m := Readings(ws), Meanings(ws);
      assert r[0] == Reading(ws[0]) && m[0] == Meaning(ws[0]) && r[1..] == Readings(ws[1..]) && m[1..] == Meanings(ws[1..]);
      assert forall i | 0 < i < |ws| :: ws[i] == ws[1..][i - 1];
      if forall i | 0 <= i < |ws| :: PlainValues(ws[i]) {
        forall i | 0 <= i < |ws| - 1 ensures PlainValues(ws[1..][i]) { assert ws[1..][i] == ws[i + 1]; }
      }
    }
  }

  /** A length written by `std::to_string` matches, so every body below 2^64 can be sent. */
  lemma PrintedLengthMatches(w: Wire)
    requires |w.body| < UINT64_LIMIT
    requires "Content-Length" in HeaderMap(map[], w.headers)
    requires HeaderMap(map[], w.headers)["Content-Length"] == Print(|w.body|)
    ensures LengthMatches(w)
  {
    StoullOfPrint(|w.body|);
    assert IsDigit(Print(|w.body|)[0]);
  }

  // ---- a length spelled otherwise ----

  /** Without a field spelled exactly `Content-Length` a body is not read as a body. */
  lemma UnannouncedBody(w: Wire)
    requires WellFormed(w) && "Content-Length" !in HeaderMap(map[], w.headers) && w.body != ""
    ensures !LengthMatches(w)
    ensures Feed(FRESH, Text(w)) == Then(Fed(FRESH, [HeadOnly(w)], false), Feed(FRESH, w.body))
  {
    HeadParsed(w);
    FeedAppend(FRESH, Head(w), w.body);
  }

  /** A real request of this kind: its body is taken for the start of the next request. */
  lemma LowerCaseLengthIgnored()
    ensures var w := Wire("POST", "/", None, [("content-length", "2")], "hi");
            && WellFormed(w) && PlainValues(w) && !LengthMatches(w)
            && Feed(FRESH, Text(w)) == Fed(FRESH.(phase := InMethod, verb := "hi"), [Meaning(w).(body := "")], false)
  {
    var w := Wire("POST", "/", None, [("content-length", "2")], "hi");
    assert w.headers[1..] == [];
    assert HeaderMap(map[], w.headers) == map["content-length" := "2"];
    UnannouncedBody(w);
    ReadingIsMeaning(w);
    Token(FRESH, "hi", FRESH.(phase := InMethod, verb := "h"));
    assert "h" + "hi"[1..] == "hi";
    assert [HeadOnly(w)] + [] == [HeadOnly(w)];
  }
}
