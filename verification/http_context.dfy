/** `HttpContext`: the resumable request parser over a `Buffer`. */
module HttpContexts {
  import opened Bytes
  import opened Buffers
  import opened HttpRequests

  datatype ParseState = ExpectRequestLine | ExpectHeaders | ExpectBody | GotAll

  datatype Parser = Parser(state: ParseState, request: Request)

  const START: Parser := Parser(ExpectRequestLine, FRESH)

  /** What the next complete line does to the parser. */
  datatype LineEffect = Rejected(parser: Parser) | More(parser: Parser) | Complete(parser: Parser)

  /** `ok`, the parser afterwards and the bytes left in the buffer. */
  datatype Outcome = Outcome(ok: bool, parser: Parser, rest: bytes)

  /** The source's loop does not end in the other two states. */
  predicate Resumable(p: Parser) {
    p.state == ExpectRequestLine || p.state == ExpectHeaders
  }

  /** `setMethod` asserts that no method is set yet. */
  predicate Ready(p: Parser) {
    Resumable(p) && (p.state == ExpectRequestLine ==> p.request.verb == Invalid)
  }

  /** A header line without a colon ends the headers, empty or not. */
  function TakeLine(p: Parser, line: bytes): (e: LineEffect)
    requires Resumable(p)
    ensures e.More? ==> e.parser.state == ExpectHeaders
    ensures e.Complete? ==> p.state == ExpectHeaders && e.parser == Parser(GotAll, p.request)
    ensures e.Rejected? ==> p.state == ExpectRequestLine && e.parser.state == ExpectRequestLine
  {
    if p.state == ExpectRequestLine then
      var r := ReadRequestLine(p.request, line);
      if r.0 then More(Parser(ExpectHeaders, r.1)) else Rejected(p.(request := r.1))
    else if ':' in line then More(p.(request := p.request.(headers := AddHeaderLine(p.request.headers, line))))
    else Complete(p.(state := GotAll))
  }

  /** One call of `parseRequest`: it stops at a rejected line, which stays in the buffer, at
      the end of a message, or where no complete line is left. */
  function Parse(p: Parser, buf: bytes): (o: Outcome)
    requires Resumable(p)
    ensures |o.rest| <= |buf|
    ensures o.ok && o.parser.state != GotAll ==> Resumable(o.parser) && FindCRLF(o.rest) == None
    ensures o.parser.state != ExpectBody && (!o.ok ==> o.parser.state == ExpectRequestLine)
    ensures o.ok && o.parser.state == ExpectRequestLine ==> o.parser == p
    ensures o.parser.state == GotAll ==> o.ok && |o.rest| < |buf|
    decreases |buf|
  {
    match FindCRLF(buf)
    case None => Outcome(true, p, buf)
    case Some(i) =>
      match TakeLine(p, buf[..i])
      case Rejected(q) => Outcome(false, q, buf)
      case More(q) => Parse(q, buf[i + 2..])
      case Complete(q) => Outcome(true, q, buf[i + 2..])
  }

  class HttpContext {
    var state: ParseState
    const request: HttpRequest

    function View(): Parser
      reads this, request
    {
      Parser(state, request.Value())
    }

    constructor ()
      ensures View() == START && fresh(request)
    {
      state := ExpectRequestLine;
      request := new HttpRequest();
    }

    predicate HasAll()
      reads this
    {
      state == GotAll
    }

    method Reset()
      modifies this, request
      ensures View() == START
    {
      state := ExpectRequestLine;
      var dummy := new HttpRequest();
      request.Swap(dummy);
    }

    method ProcessRequestLine(line: bytes) returns (succeed: bool)
      requires request.verb == Invalid
      modifies request
      ensures (succeed, request.Value()) == ReadRequestLine(old(request.Value()), line)
      ensures request.receiveTime == old(request.receiveTime)
    {
      hide MethodOf, MethodText, VersionOf, WithTarget, ReadVersion, FindFrom;
      succeed := false;
      var space := Find(line, ' ');
      if space != |line| {
        var known := request.SetMethod(line[..space]);
        if known {
          var rest := line[space + 1..];
          var end := Find(rest, ' ');
          if end != |rest| {
            request.SetTarget(rest[..end]);
            succeed := ProcessVersion(rest[end + 1..]);
          }
        }
      }
    }

    /** The part of `processRequestLine` after the second space. */
    method ProcessVersion(version: bytes) returns (succeed: bool)
      modifies request`version
      ensures (succeed, request.Value()) == ReadVersion(old(request.Value()), version)
    {
      succeed := |version| == 8 && version[..7] == VERSION_PREFIX;
      if succeed {
        if version[7] == '1' {
          request.version := Http11;
        } else if version[7] == '0' {
          request.version := Http10;
        } else {
          succeed := false;
        }
      }
    }

    /** One turn of the loop that has found a complete line. */
    method ParseLine(buf: Buffer, crlf: nat, receiveTime: int) returns (ok: bool, hasMore: bool)
      requires buf.Valid() && Ready(View()) && FindCRLF(buf.Contents()) == Some(crlf)
      modifies this, request, buf`reader, buf`writer
      ensures buf.Valid()
      ensures var e := TakeLine(old(View()), old(buf.Contents())[..crlf]);
              && View() == e.parser && ok == !e.Rejected? && hasMore == e.More?
              && buf.Contents() == if e.Rejected? then old(buf.Contents()) else old(buf.Contents())[crlf + 2..]
      ensures request.receiveTime ==
              if old(state) == ExpectRequestLine && ok then receiveTime else old(request.receiveTime)
    {
      hide ReadRequestLine, AddHeaderLine, FindCRLF;
      ok, hasMore := true, true;
      var line := buf.Contents()[..crlf];
      if state == ExpectRequestLine {
        ok := ProcessRequestLine(line);
        if ok {
          request.receiveTime := receiveTime;
          buf.RetrieveUntil(crlf + 2);
          state := ExpectHeaders;
        } else {
          hasMore := false;
        }
      } else {
        var colon := Find(line, ':');
        if colon != |line| {
          request.AddHeader(line, colon);
        } else {
          state := GotAll;
          hasMore := false;
        }
        buf.RetrieveUntil(crlf + 2);
      }
    }

    /** Terminates because every turn either consumes a line or clears `hasMore`. */
    method ParseRequest(buf: Buffer, receiveTime: int) returns (ok: bool)
      requires buf.Valid() && Ready(View())
      modifies this, request, buf`reader, buf`writer
      ensures buf.Valid()
      ensures Outcome(ok, View(), buf.Contents()) == Parse(old(View()), old(buf.Contents()))
      ensures var accepted := old(state) == ExpectRequestLine && state != ExpectRequestLine;
              request.receiveTime == if accepted then receiveTime else old(request.receiveTime)
    {
      hide TakeLine, FindCRLF;
      ok := true;
      var hasMore := true;
      while hasMore
        invariant buf.Valid()
        invariant hasMore ==> ok && Ready(View())
        invariant Parse(old(View()), old(buf.Contents())) ==
                  if hasMore then Parse(View(), buf.Contents()) else Outcome(ok, View(), buf.Contents())
        invariant old(state) == ExpectHeaders ==> state != ExpectRequestLine
        invariant var accepted := old(state) == ExpectRequestLine && state != ExpectRequestLine;
                  request.receiveTime == if accepted then receiveTime else old(request.receiveTime)
        decreases buf.Readable(), hasMore
      {
        var crlf := buf.FindCRLF();
        if crlf.Some? {
          ok, hasMore := ParseLine(buf, crlf.value, receiveTime);
        } else {
          hasMore := false;
        }
      }
    }
  }
}
