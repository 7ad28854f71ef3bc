/** The parser object: its buffers are filled in place, one character at a time. */
module HttpParser {
  import opened Common
  import opened Decimal
  import opened HttpSpec

  class RequestParser {
    var phase: Phase
    var req: Request
    var verbBuf: string
    var pathBuf: string
    var queryBuf: string
    var versionBuf: string
    var field: string
    var value: string
    var bodyBuf: string
    var remaining: nat
    var complete: bool
    /** Requests handed to the callback so far. */
    var fired: seq<Request>

    ghost function State(): Parser
      reads this
    {
      Parser(phase, req, verbBuf, pathBuf, queryBuf, versionBuf, field, value, bodyBuf, remaining)
    }

    constructor ()
      ensures State() == FRESH && !complete && fired == []
    {
      phase, req, remaining, complete, fired := AtStart, NO_REQUEST, 0, false, [];
      verbBuf, pathBuf, queryBuf, versionBuf, field, value, bodyBuf := "", "", "", "", "", "", "";
    }

    method Reset()
      modifies this
      ensures State() == FRESH && !complete && fired == old(fired)
    {
      phase, complete, remaining := AtStart, false, 0;
      verbBuf, pathBuf, queryBuf, versionBuf, value, bodyBuf := "", "", "", "", "", "";
      req, field := NO_REQUEST, "";
    }

    /** The state and the outcome agree: either the parser moved on, or a request is
        complete in `req`, or the call threw and changed nothing. */
    ghost predicate Shows(o: Outcome, before: Parser, threw: bool)
      reads this
    {
      match o
      case Go(q) => !threw && !complete && State() == q
      case Fire(r) => !threw && complete && req == r
      case Throw => threw && !complete && State() == before
    }

    method TransitionToBody() returns (threw: bool)
      requires !complete
      modifies this
      ensures Shows(EndOfHeaders(old(State())), old(State()), threw) && fired == old(fired)
    {
      threw := false;
      if "Content-Length" in req.headers && req.headers["Content-Length"] != "" {
        var length := Stoull(req.headers["Content-Length"]);
        if length.None? {
          return true;
        }
        if length.value > 0 {
          remaining := length.value;
          bodyBuf := "";
          phase := InBody;
          return;
        }
      }
      complete := true;
    }

    method ParseChar(c: char) returns (threw: bool)
      requires !complete
      modifies this
      ensures Shows(StepChar(old(State()), c), old(State()), threw) && fired == old(fired)
    {
      threw := false;
      match phase
      case AtStart =>
        if !IsSpace(c) {
          verbBuf := [c];
          phase := InMethod;
        }
      case InMethod =>
        if c == ' ' {
          req := req.(verb := ParseMethod(verbBuf));
          phase := BeforePath;
        } else {
          verbBuf := verbBuf + [c];
        }
      case BeforePath =>
        if c != ' ' {
          pathBuf := [c];
          phase := InPath;
        }
      case InPath =>
        if c == '?' {
          phase := InQuery;
        } else if c == ' ' {
          req := req.(path := pathBuf);
          phase := VersionH;
        } else {
          pathBuf := pathBuf + [c];
        }
      case InQuery =>
        if c == ' ' {
          req := req.(path := pathBuf, query := queryBuf);
          phase := VersionH;
        } else {
          queryBuf := queryBuf + [c];
        }
      case VersionH =>
        if c == 'H' {
          versionBuf := [c];
          phase := VersionT;
        }
      case VersionT =>
        if c == 'T' {
          versionBuf := versionBuf + [c];
          phase := VersionSlash;
        }
      case VersionSlash =>
        if c == '/' {
          versionBuf := versionBuf + [c];
          phase := VersionMajor;
        }
      case VersionMajor =>
        versionBuf := versionBuf + [c];
        if c == '.' {
          phase := VersionMinor;
        }
      case VersionMinor =>
        if c == '\r' {
          versionBuf := versionBuf + [c];
          phase := AfterVersion;
        } else if c == '\n' {
          req := req.(version := "HTTP/1.1");
          phase := HeaderLF;
        } else {
          versionBuf := versionBuf + [c];
        }
      case AfterVersion =>
        if c == '\n' {
          req := req.(version := "HTTP/1.1");
          phase := HeaderLF;
        }
      case HeaderLF =>
        if c == '\r' {
          phase := HeaderFieldStart;
        } else if c == '\n' {
          threw := TransitionToBody();
        } else {
          field := [c];
          phase := InField;
        }
      case HeaderFieldStart =>
        if c == '\n' {
          threw := TransitionToBody();
        } else {
          field := [c];
          phase := InField;
        }
      case InField =>
        if c == ':' {
          phase := BeforeValue;
        } else {
          field := field + [c];
        }
      case BeforeValue =>
        if c != ' ' {
          value := [c];
          phase := InValue;
        }
      case InValue =>
        if c == '\r' {
          req := AddHeader(req, field, value);
          phase := ValueLF;
        } else if c == '\n' {
          req := AddHeader(req, field, value);
          phase := HeaderLF;
        } else {
          value := value + [c];
        }
      case ValueLF =>
        if c == '\n' {
          phase := HeaderLF;
        }
      case InBody =>
        bodyBuf := bodyBuf + [c];
        if |bodyBuf| >= remaining {
          req := req.(body := req.body + bodyBuf);
          complete := true;
        }
    }

    /** Feeds one buffer: the callback log grows by exactly the requests it completes. */
    method FeedBuffer(data: string) returns (consumed: nat, threw: bool)
      requires !complete
      modifies this
      ensures !complete
      ensures var r := Feed(old(State()), data);
              State() == r.parser && fired == old(fired) + r.fired && threw == r.threw
      ensures !threw ==> consumed == |data|
    {
      consumed, threw := 0, false;
      ghost var got: seq<Request> := [];
      while consumed < |data|
        invariant consumed <= |data| && !complete && !threw
        invariant fired == old(fired) + got
        invariant Feed(old(State()), data) == Later(got, Feed(State(), data[consumed..]))
      {
        assert data[consumed..][0] == data[consumed] && data[consumed..][1..] == data[consumed + 1..];
        threw := ParseChar(data[consumed]);
        if threw {
          return;
        }
        consumed := consumed + 1;
        if complete {
          LaterTwice(got, req, data[consumed..]);
          got := got + [req];
          fired := fired + [req];
          Reset();
        }
      }
      assert data[consumed..] == "";
    }
  }

  /** A result after `got` has already been handed over. */
  ghost function Later(got: seq<Request>, r: Fed): Fed {
    r.(fired := got + r.fired)
  }

  lemma LaterTwice(got: seq<Request>, req: Request, rest: string)
    ensures var r := Feed(FRESH, rest); Later(got, Later([req], r)) == Later(got + [req], r)
  {
    var r := Feed(FRESH, rest);
    assert got + ([req] + r.fired) == got + [req] + r.fired;
  }
}
