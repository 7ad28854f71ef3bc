/** The HTTP/1.1 request parser as a function of single characters, and the wire text
    of a request (sections 2.1, 3 and 6.2 of RFC 9112). */
module HttpSpec {
  import opened Common
  import opened Decimal

  datatype Method = GET | POST | PUT | DELETE | UNKNOWN

  datatype Request = Request(verb: Method, path: string, query: string, version: string,
                             headers: map<string, string>, body: string)

  const NO_REQUEST := Request(UNKNOWN, "", "", "", map[], "")

  datatype Phase =
    | AtStart | InMethod | BeforePath | InPath | InQuery
    | VersionH | VersionT | VersionSlash | VersionMajor | VersionMinor | AfterVersion
    | HeaderLF | HeaderFieldStart | InField | BeforeValue | InValue | ValueLF | InBody

  /** Everything the parser remembers between two characters. */
  datatype Parser = Parser(phase: Phase, req: Request, verb: string, path: string, query: string, version: string,
                           field: string, value: string, body: string, remaining: nat)

  const FRESH := Parser(AtStart, NO_REQUEST, "", "", "", "", "", "", "", 0)

  /** What one character does. `Fire` completes a request and resets the parser;
      `Throw` is the exception of `std::stoull` on a malformed length. */
  datatype Outcome = Go(next: Parser) | Fire(req: Request) | Throw

  function Lower(c: char): char {
    if 'A' <= c <= 'Z' then (c as int + 32) as char else c
  }

  function LowerAll(s: string): (r: string)
    ensures |r| == |s|
  {
    if s == [] then [] else [Lower(s[0])] + LowerAll(s[1..])
  }

  function ParseMethod(m: string): Method {
    var low := LowerAll(m);
    if low == "get" then GET
    else if low == "post" then POST
    else if low == "put" then PUT
    else if low == "delete" then DELETE
    else UNKNOWN
  }

  /** The body length the headers announce: exact spelling of the field name, zero when
      it is absent, `None` when the number is malformed. */
  function DeclaredLength(headers: map<string, string>): Option<nat> {
    if "Content-Length" in headers && headers["Content-Length"] != "" then Stoull(headers["Content-Length"]) else Some(0)
  }

  /** `transition_to_body`: the blank line after the headers. */
  function EndOfHeaders(p: Parser): Outcome {
    var length := DeclaredLength(p.req.headers);
    if length.None? then Throw
    else if length.value > 0 then Go(p.(phase := InBody, body := "", remaining := length.value))
    else Fire(p.req)
  }

  function StepChar(p: Parser, c: char): Outcome {
    match p.phase
    case AtStart =>
      if IsSpace(c) then Go(p) else Go(p.(verb := [c], phase := InMethod))
    case InMethod =>
      if c == ' ' then Go(p.(req := p.req.(verb := ParseMethod(p.verb)), phase := BeforePath))
      else Go(p.(verb := p.verb + [c]))
    case BeforePath =>
      if c == ' ' then Go(p) else Go(p.(path := [c], phase := InPath))
    case InPath =>
      if c == '?' then Go(p.(phase := InQuery))
      else if c == ' ' then Go(p.(req := p.req.(path := p.path), phase := VersionH))
      else Go(p.(path := p.path + [c]))
    case InQuery =>
      if c == ' ' then Go(p.(req := p.req.(path := p.path, query := p.query), phase := VersionH))
      else Go(p.(query := p.query + [c]))
    case VersionH =>
      if c == 'H' then Go(p.(version := [c], phase := VersionT)) else Go(p)
    case VersionT =>
      if c == 'T' then Go(p.(version := p.version + [c], phase := VersionSlash)) else Go(p)
    case VersionSlash =>
      if c == '/' then Go(p.(version := p.version + [c], phase := VersionMajor)) else Go(p)
    case VersionMajor =>
      Go(p.(version := p.version + [c], phase := if c == '.' then VersionMinor else VersionMajor))
    case VersionMinor =>
      if c == '\r' then Go(p.(version := p.version + [c], phase := AfterVersion))
      else if c == '\n' then Go(p.(req := p.req.(version := "HTTP/1.1"), phase := HeaderLF))
      else Go(p.(version := p.version + [c]))
    case AfterVersion =>
      if c == '\n' then Go(p.(req := p.req.(version := "HTTP/1.1"), phase := HeaderLF)) else Go(p)
    case HeaderLF =>
      if c == '\r' then Go(p.(phase := HeaderFieldStart))
      else if c == '\n' then EndOfHeaders(p)
      else Go(p.(field := [c], phase := InField))
    case HeaderFieldStart =>
      if c == '\n' then EndOfHeaders(p) else Go(p.(field := [c], phase := InField))
    case InField =>
      if c == ':' then Go(p.(phase := BeforeValue)) else Go(p.(field := p.field + [c]))
    case BeforeValue =>
      if c == ' ' then Go(p) else Go(p.(value := [c], phase := InValue))
    case InValue =>
      if c == '\r' then Go(p.(req := AddHeader(p.req, p.field, p.value), phase := ValueLF))
      else if c == '\n' then Go(p.(req := AddHeader(p.req, p.field, p.value), phase := HeaderLF))
      else Go(p.(value := p.value + [c]))
    case ValueLF =>
      if c == '\n' then Go(p.(phase := HeaderLF)) else Go(p)
    case InBody =>
      var body := p.body + [c];
      if |body| >= p.remaining then Fire(p.req.(body := p.req.body + body)) else Go(p.(body := body))
  }

  function AddHeader(r: Request, field: string, value: string): Request {
    r.(headers := r.headers[field := value])
  }

  /** The result of feeding characters: the parser, the requests fired in order, and
      whether an exception ended the call early. */
  datatype Fed = Fed(parser: Parser, fired: seq<Request>, threw: bool)

  function Feed(p: Parser, s: string): Fed
    decreases |s|
  {
    if s == "" then Fed(p, [], false)
    else
      match StepChar(p, s[0])
      case Go(q) => Feed(q, s[1..])
      case Fire(r) => var rest := Feed(FRESH, s[1..]); rest.(fired := [r] + rest.fired)
      case Throw => Fed(p, [], true)
  }

  /** Feeding several buffers one after the other. */
  function FeedAll(p: Parser, pieces: seq<string>): Fed
    decreases |pieces|
  {
    if pieces == [] then Fed(p, [], false)
    else
      var first := Feed(p, pieces[0]);
      if first.threw then first
      else
        var rest := FeedAll(first.parser, pieces[1..]);
        rest.(fired := first.fired + rest.fired)
  }

  // ---- the wire format ----

  /** A request as a client writes it. */
  datatype Wire = Wire(verb: string, path: string, query: Option<string>, headers: seq<(string, string)>, body: string)

  predicate Without(s: string, stops: set<char>) {
    forall i | 0 <= i < |s| :: s[i] !in stops
  }

  /** A field line: a name, and any value that stays on its line. */
  predicate GoodHeader(h: (string, string)) {
    h.0 != "" && Without(h.0, {':', '\r', '\n'}) && Without(h.1, {'\r', '\n'})
  }

  predicate WellFormed(w: Wire) {
    && w.verb != "" && !IsSpace(w.verb[0]) && Without(w.verb, {' '})
    && w.path != "" && Without(w.path, {' ', '?'})
    && (w.query.Some? ==> Without(w.query.value, {' '}))
    && forall i | 0 <= i < |w.headers| :: GoodHeader(w.headers[i])
  }

  function HeaderLine(h: (string, string)): string {
    h.0 + ":" + " " + h.1 + "\r\n"
  }

  function HeaderLines(hs: seq<(string, string)>): string {
    if hs == [] then "" else HeaderLine(hs[0]) + HeaderLines(hs[1..])
  }

  function Target(w: Wire): string {
    if w.query.Some? then w.path + "?" + w.query.value else w.path
  }

  function Head(w: Wire): string {
    w.verb + " " + Target(w) + " " + "HTTP/1.1\r\n" + HeaderLines(w.headers) + "\r\n"
  }

  function Text(w: Wire): string {
    Head(w) + w.body
  }

  function Texts(ws: seq<Wire>): string {
    if ws == [] then "" else Text(ws[0]) + Texts(ws[1..])
  }

  /** Later fields of the same name replace earlier ones. */
  function HeaderMap(start: map<string, string>, hs: seq<(string, string)>): map<string, string>
    decreases |hs|
  {
    if hs == [] then start else HeaderMap(start[hs[0].0 := hs[0].1], hs[1..])
  }

  /** What the parser stores for a value: it skips blanks and then takes the next character
      whatever it is, a carriage return if nothing is left of the value. */
  function StoredValue(v: string): (r: string)
    ensures r != "" && r[0] != ' '
  {
    if v == "" then "\r" else if v[0] == ' ' then StoredValue(v[1..]) else v
  }

  function StoredMap(m: map<string, string>): map<string, string> {
    map f | f in m :: StoredValue(m[f])
  }

  /** The request as written. */
  function Meaning(w: Wire): Request {
    Request(ParseMethod(w.verb), w.path, if w.query.Some? then w.query.value else "", "HTTP/1.1",
            HeaderMap(map[], w.headers), w.body)
  }

  function Meanings(ws: seq<Wire>): seq<Request> {
    if ws == [] then [] else [Meaning(ws[0])] + Meanings(ws[1..])
  }

  /** The request as read. */
  function Reading(w: Wire): Request {
    Meaning(w).(headers := StoredMap(HeaderMap(map[], w.headers)))
  }

  function Readings(ws: seq<Wire>): seq<Request> {
    if ws == [] then [] else [Reading(ws[0])] + Readings(ws[1..])
  }

  /** The body length that is read is the real one. */
  predicate LengthMatches(w: Wire) {
    DeclaredLength(Reading(w).headers) == Some(|w.body|)
  }

  /** No value is empty or starts with a blank; a field replaced by a later one does not matter. */
  predicate PlainValues(w: Wire) {
    var m := HeaderMap(map[], w.headers);
    forall f | f in m :: m[f] != "" && m[f][0] != ' '
  }
}
