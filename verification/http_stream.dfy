/** What the parser makes of a whole byte stream, and why it does not matter how the
    stream is cut into pieces. */
module HttpStreams {
  import opened Bytes
  import opened HttpRequests
  import opened HttpContexts

  /** Everything read from a stream: the requests delivered, whether a line was rejected,
      the parser and the bytes left over. */
  datatype Reading = Reading(delivered: seq<Request>, rejected: bool, parser: Parser, rest: bytes)

  function Prepend(rs: seq<Request>, r: Reading): Reading {
    r.(delivered := rs + r.delivered)
  }

  /** `parseRequest` called until it makes no more progress, the parser being reset after each message. */
  function Read(p: Parser, buf: bytes): (r: Reading)
    requires Resumable(p)
    ensures !r.rejected ==> Resumable(r.parser) && FindCRLF(r.rest) == None
    decreases |buf|
  {
    var o := Parse(p, buf);
    if !o.ok then Reading([], true, o.parser, o.rest)
    else if o.parser.state == GotAll then Prepend([o.parser.request], Read(START, o.rest))
    else Reading([], false, o.parser, o.rest)
  }

  // ----- Independence from fragmentation -----

  lemma {:induction false} ParseAppend(p: Parser, a: bytes, b: bytes)
    requires Resumable(p)
    ensures var o := Parse(p, a);
            Parse(p, a + b) == if !o.ok || o.parser.state == GotAll then Outcome(o.ok, o.parser, o.rest + b)
                               else Parse(o.parser, o.rest + b)
    decreases |a|
  {
    hide TakeLine, FindCRLF;
    if FindCRLF(a).Some? {
      var i := FindCRLF(a).value;
      FindCRLFStable(a, b);
      assert (a + b)[..i] == a[..i];
      assert (a + b)[i + 2..] == a[i + 2..] + b;
      var e := TakeLine(p, a[..i]);
      if e.More? {
        ParseAppend(e.parser, a[i + 2..], b);
      }
    }
  }

  /** Reading a stream is reading a first part of it and going on from there. */
  lemma {:induction false} ReadAppend(p: Parser, a: bytes, b: bytes)
    requires Resumable(p)
    ensures var r := Read(p, a);
            Read(p, a + b) == if r.rejected then Reading(r.delivered, true, r.parser, r.rest + b)
                              else Prepend(r.delivered, Read(r.parser, r.rest + b))
    decreases |a|
  {
    hide Parse;
    ParseAppend(p, a, b);
    var o := Parse(p, a);
    if o.ok && o.parser.state == GotAll {
      ReadAppend(START, o.rest, b);
      var r := Read(START, o.rest);
      if !r.rejected {
        PrependTwice([o.parser.request], r.delivered, Read(r.parser, r.rest + b));
      }
    }
  }

  lemma PrependTwice(first: seq<Request>, second: seq<Request>, r: Reading)
    ensures Prepend(first, Prepend(second, r)) == Prepend(first + second, r)
  {
  }

  /** The server's side of one connection: the context, the unread input, and what was delivered. */
  datatype Receiver = Receiver(parser: Parser, pending: bytes, delivered: seq<Request>, rejected: bool)

  const NEW_RECEIVER := Receiver(START, [], [], false)

  /** One `rcvMessage`: at most one request is delivered, and the context is reset after it.
      After a rejected line the run is over and input only piles up. */
  function Receive(c: Receiver, chunk: bytes): (d: Receiver)
    requires !c.rejected ==> Resumable(c.parser)
    ensures !d.rejected ==> Resumable(d.parser)
    ensures Resumable(c.parser) ==> Resumable(d.parser)
    ensures !d.rejected && Ready(c.parser) ==> Ready(d.parser)
  {
    var input := c.pending + chunk;
    if c.rejected then c.(pending := input)
    else
      var o := Parse(c.parser, input);
      if !o.ok then Receiver(o.parser, o.rest, c.delivered, true)
      else if o.parser.state == GotAll then Receiver(START, o.rest, c.delivered + [o.parser.request], false)
      else Receiver(o.parser, o.rest, c.delivered, false)
  }

  function ReceiveAll(c: Receiver, chunks: seq<bytes>): (d: Receiver)
    requires !c.rejected ==> Resumable(c.parser)
    ensures !d.rejected ==> Resumable(d.parser)
    decreases |chunks|
  {
    if chunks == [] then c else ReceiveAll(Receive(c, chunks[0]), chunks[1..])
  }

  function Flatten(chunks: seq<bytes>): bytes {
    if chunks == [] then [] else chunks[0] + Flatten(chunks[1..])
  }

  /** All that `c` has delivered, and would deliver if `more` were the rest of the stream. */
  function Whole(c: Receiver, more: bytes): Reading
    requires !c.rejected ==> Resumable(c.parser)
  {
    Prepend(c.delivered, if c.rejected then Reading([], true, c.parser, c.pending + more)
                         else Read(c.parser, c.pending + more))
  }

  lemma ReceiveKeepsWhole(c: Receiver, chunk: bytes, more: bytes)
    requires !c.rejected ==> Resumable(c.parser)
    ensures Whole(Receive(c, chunk), more) == Whole(c, chunk + more)
  {
    hide Parse;
    var input := c.pending + chunk;
    assert c.pending + (chunk + more) == input + more;
    if !c.rejected {
      ParseAppend(c.parser, input, more);
      var o := Parse(c.parser, input);
      if o.ok && o.parser.state == GotAll {
        PrependTwice(c.delivered, [o.parser.request], Read(START, o.rest + more));
      }
    }
  }

  /** However a stream is cut into `rcvMessage` calls, delivered requests and unread input
      together determine the same reading of the whole stream. */
  lemma {:induction false} FragmentationIrrelevant(c: Receiver, chunks: seq<bytes>, more: bytes)
    requires !c.rejected ==> Resumable(c.parser)
    ensures Whole(ReceiveAll(c, chunks), more) == Whole(c, Flatten(chunks) + more)
    decreases |chunks|
  {
    if chunks == [] {
      assert Flatten(chunks) + more == more;
    } else {
      FragmentationIrrelevant(Receive(c, chunks[0]), chunks[1..], more);
      ReceiveKeepsWhole(c, chunks[0], Flatten(chunks[1..]) + more);
      assert chunks[0] + (Flatten(chunks[1..]) + more) == Flatten(chunks) + more;
    }
  }

  /** The bytes consumed and the bytes still buffered are the input, and the delivered requests
      with the partial one are the reading of the consumed bytes alone. */
  ghost predicate Accounts(c: Receiver, input: bytes, consumed: bytes) {
    && consumed + c.pending == input
    && (!c.rejected ==> Resumable(c.parser) && Read(START, consumed) == Reading(c.delivered, false, c.parser, []))
  }

  lemma {:induction false} ParseKeepsSuffix(p: Parser, buf: bytes) returns (used: bytes)
    requires Resumable(p)
    ensures used + Parse(p, buf).rest == buf
    decreases |buf|
  {
    hide TakeLine, FindCRLF;
    used := [];
    if FindCRLF(buf).Some? {
      var i := FindCRLF(buf).value;
      var e := TakeLine(p, buf[..i]);
      if e.More? {
        var later := ParseKeepsSuffix(e.parser, buf[i + 2..]);
        used := buf[..i + 2] + later;
        assert used + Parse(p, buf).rest == buf[..i + 2] + (later + Parse(p, buf).rest);
      } else if e.Complete? {
        used := buf[..i + 2];
      }
    }
  }

  lemma {:induction false} ParseConsumes(p: Parser, used: bytes, rest: bytes)
    requires Resumable(p) && Parse(p, used + rest).ok && Parse(p, used + rest).rest == rest
    ensures Parse(p, used) == Outcome(true, Parse(p, used + rest).parser, [])
    decreases |used|
  {
    hide TakeLine, FindCRLF;
    var buf := used + rest;
    if FindCRLF(buf).None? {
      assert |used| == 0;
      assert buf == rest;
    } else {
      var i := FindCRLF(buf).value;
      assert i + 2 <= |used|;
      assert buf[..|used|] == used;
      FindCRLFInPrefix(buf, |used|);
      assert used[..i] == buf[..i];
      assert buf[i + 2..] == used[i + 2..] + rest;
      if TakeLine(p, buf[..i]).More? {
        ParseConsumes(TakeLine(p, buf[..i]).parser, used[i + 2..], rest);
      } else {
        assert |used[i + 2..]| == 0;
      }
    }
  }

  lemma ReceiveAccounts(c: Receiver, input: bytes, consumed: bytes, chunk: bytes) returns (used: bytes)
    requires Accounts(c, input, consumed)
    ensures Accounts(Receive(c, chunk), input + chunk, consumed + used)
  {
    hide Parse, Read;
    var buf := c.pending + chunk;
    used := [];
    assert consumed + buf == input + chunk;
    assert consumed + used == consumed;
    if !c.rejected {
      var o := Parse(c.parser, buf);
      used := ParseKeepsSuffix(c.parser, buf);
      assert (consumed + used) + o.rest == consumed + buf;
      if o.ok {
        ReadUsed(c.parser, used, o.rest);
        ReadAppend(START, consumed, used);
        assert [] + used == used;
      }
    }
  }

  lemma ReadUsed(p: Parser, used: bytes, rest: bytes)
    requires Resumable(p) && Parse(p, used + rest).ok && Parse(p, used + rest).rest == rest
    ensures var q := Parse(p, used + rest).parser;
            Read(p, used) == if q.state == GotAll then Reading([q.request], false, START, [])
                             else Reading([], false, q, [])
  {
    ParseConsumes(p, used, rest);
    hide TakeLine;
    assert Parse(START, []) == Outcome(true, START, []);
  }

  /** Over every run, input is conserved and the delivered requests are the reading of what was consumed. */
  lemma {:induction false} RunAccounts(c: Receiver, input: bytes, consumed: bytes, chunks: seq<bytes>)
    returns (used: bytes)
    requires Accounts(c, input, consumed)
    ensures Accounts(ReceiveAll(c, chunks), input + Flatten(chunks), consumed + used)
    decreases |chunks|
  {
    if chunks == [] {
      used := [];
      NothingMore(consumed);
      NothingMore(input);
    } else {
      var first := ReceiveAccounts(c, input, consumed, chunks[0]);
      var later := RunAccounts(Receive(c, chunks[0]), input + chunks[0], consumed + first, chunks[1..]);
      used := first + later;
      Assoc(consumed, first, later);
      Assoc(input, chunks[0], Flatten(chunks[1..]));
    }
  }

  // ----- The reference: lines first, messages second -----

  /** The CRLF-terminated lines of a stream. */
  function Lines(s: bytes): seq<bytes>
    decreases |s|
  {
    match FindCRLF(s)
    case None => []
    case Some(i) => [s[..i]] + Lines(s[i + 2..])
  }

  /** What follows the last CRLF. */
  function Unterminated(s: bytes): bytes
    decreases |s|
  {
    match FindCRLF(s)
    case None => s
    case Some(i) => Unterminated(s[i + 2..])
  }

  /** How many header lines come before the first line without a colon. */
  function HeaderCount(lines: seq<bytes>): (k: nat)
    ensures k <= |lines|
    ensures forall j :: 0 <= j < k ==> ':' in lines[j]
    ensures k < |lines| ==> ':' !in lines[k]
  {
    if lines == [] || ':' !in lines[0] then 0 else 1 + HeaderCount(lines[1..])
  }

  function WithHeaders(headers: map<bytes, bytes>, lines: seq<bytes>): map<bytes, bytes>
    requires forall j :: 0 <= j < |lines| ==> ':' in lines[j]
    decreases |lines|
  {
    if lines == [] then headers else WithHeaders(AddHeaderLine(headers, lines[0]), lines[1..])
  }

  /** The messages in a list of lines: a request line, header lines up to the first without a
      colon, and so on; `partial` is a message whose end has not arrived. */
  datatype Messages = Messages(delivered: seq<Request>, rejected: bool, partial: Option<Request>)

  function ReadMessages(lines: seq<bytes>): Messages
    decreases |lines|
  {
    if lines == [] then Messages([], false, None)
    else
      var first := ReadRequestLine(FRESH, lines[0]);
      var k := HeaderCount(lines[1..]);
      var request := first.1.(headers := WithHeaders(first.1.headers, lines[1..][..k]));
      if !first.0 then Messages([], true, None)
      else if k == |lines| - 1 then Messages([], false, Some(request))
      else
        var later := ReadMessages(lines[k + 2..]);
        later.(delivered := [request] + later.delivered)
  }

  lemma HeaderLineTaken(r: Request, line: bytes)
    ensures TakeLine(Parser(ExpectHeaders, r), line)
            == if ':' in line then More(Parser(ExpectHeaders, r.(headers := AddHeaderLine(r.headers, line))))
               else Complete(Parser(GotAll, r))
  {
  }

  lemma FirstHeader(headers: map<bytes, bytes>, ls: seq<bytes>)
    requires ls != [] && ':' in ls[0]
    ensures var k, later := HeaderCount(ls), HeaderCount(ls[1..]);
            k == 1 + later
            && WithHeaders(headers, ls[..k]) == WithHeaders(AddHeaderLine(headers, ls[0]), ls[1..][..later])
            && (later < |ls| - 1 ==> ls[k + 1..] == ls[1..][later + 1..])
  {
    hide AddHeaderLine;
    var k := HeaderCount(ls);
    assert ls[..k][1..] == ls[1..][..k - 1];
  }

  /** A header section read line by line is a block of header lines read at once. */
  lemma {:induction false} ParseHeaders(r: Request, buf: bytes)
    ensures var ls, o := Lines(buf), Parse(Parser(ExpectHeaders, r), buf);
            var k := HeaderCount(ls);
            && o.ok && o.parser.request == r.(headers := WithHeaders(r.headers, ls[..k]))
            && o.parser.state == (if k == |ls| then ExpectHeaders else GotAll)
            && Lines(o.rest) == (if k == |ls| then [] else ls[k + 1..])
            && Unterminated(o.rest) == Unterminated(buf)
            && (k == |ls| ==> o.rest == Unterminated(buf))
    decreases |buf|
  {
    hide TakeLine, FindCRLF, AddHeaderLine;
    if FindCRLF(buf).Some? {
      var ls, tail := Lines(buf), buf[FindCRLF(buf).value + 2..];
      assert ls[1..] == Lines(tail);
      HeaderLineTaken(r, ls[0]);
      if ':' in ls[0] {
        FirstHeader(r.headers, ls);
        hide HeaderCount, WithHeaders;
        ParseHeaders(r.(headers := AddHeaderLine(r.headers, ls[0])), tail);
      }
    }
  }

  lemma ParseFirstLine(s: bytes)
    requires FindCRLF(s).Some?
    ensures var first, tail := ReadRequestLine(FRESH, Lines(s)[0]), s[FindCRLF(s).value + 2..];
            && Lines(s)[1..] == Lines(tail) && Unterminated(s) == Unterminated(tail)
            && Parse(START, s) == if first.0 then Parse(Parser(ExpectHeaders, first.1), tail)
                                  else Outcome(false, Parser(ExpectRequestLine, first.1), s)
  {
  }

  /** Iterating the parser over a stream is reading the messages in its lines. */
  lemma {:induction false} ReadIsReadMessages(s: bytes)
    ensures var m, r := ReadMessages(Lines(s)), Read(START, s);
            && r.delivered == m.delivered && r.rejected == m.rejected
            && (!r.rejected ==>
                  && r.parser == (if m.partial.None? then START else Parser(ExpectHeaders, m.partial.value))
                  && r.rest == Unterminated(s))
    decreases |s|
  {
    hide Parse, ReadRequestLine, FindCRLF, WithHeaders, HeaderCount;
    if FindCRLF(s).None? {
      ReadNothing(START, s);
    } else {
      ParseFirstLine(s);
      var ls, tail := Lines(s), s[FindCRLF(s).value + 2..];
      var first := ReadRequestLine(FRESH, ls[0]);
      if first.0 {
        ParseHeaders(first.1, tail);
        var k := HeaderCount(ls[1..]);
        assert k < |ls| - 1 ==> ls[1..][k + 1..] == ls[k + 2..];
        assert k == |ls| - 1 ==> ls[1..][..k] == ls[1..];
        if k < |ls| - 1 {
          ReadIsReadMessages(Parse(START, s).rest);
        }
      }
    }
  }

  lemma ReadNothing(p: Parser, s: bytes)
    requires Resumable(p) && Lines(s) == []
    ensures Read(p, s) == Reading([], false, p, s)
  {
  }

  /** After any run of `rcvMessage` calls, what was delivered is a prefix of the messages of
      the whole input, and is all of them once no complete line is left in the buffer. */
  lemma DeliveredIsPrefix(chunks: seq<bytes>)
    ensures var c, m := ReceiveAll(NEW_RECEIVER, chunks), ReadMessages(Lines(Flatten(chunks)));
            && c.delivered <= m.delivered
            && (c.rejected ==> m.rejected && c.delivered == m.delivered)
            && (!c.rejected && Lines(c.pending) == [] ==> c.delivered == m.delivered && !m.rejected)
  {
    hide Read, ReadMessages, Receive;
    var input := Flatten(chunks);
    FragmentationIrrelevant(NEW_RECEIVER, chunks, []);
    ReadIsReadMessages(input);
    var c := ReceiveAll(NEW_RECEIVER, chunks);
    assert [] + (input + []) == input;
    assert c.pending + [] == c.pending;
    assert [] + Read(START, input).delivered == Read(START, input).delivered;
    if !c.rejected && Lines(c.pending) == [] {
      ReadNothing(c.parser, c.pending);
    }
  }

  /** A call that finds a whole message at the front of the buffer delivers that message and
      no other, even when more are waiting behind it. */
  lemma OneMessagePerCall(c: Receiver, chunk: bytes)
    requires !c.rejected && c.parser == START
    ensures var m := ReadMessages(Lines(c.pending + chunk));
            Receive(c, chunk).delivered == if m.delivered == [] then c.delivered else c.delivered + [m.delivered[0]]
  {
    hide Parse;
    ReadIsReadMessages(c.pending + chunk);
  }

  /** A rejected line stays in the buffer, so the next call meets it again. That call passes
      the assertion in `setMethod` exactly when the line has no known method before a space. */
  lemma AfterRejection(buf: bytes)
    requires !Parse(START, buf).ok
    ensures var o, line := Parse(START, buf), Lines(buf)[0];
            && o.rest == buf
            && (Ready(o.parser) <==> Find(line, ' ') == |line| || MethodOf(line[..Find(line, ' ')]) == Invalid)
  {
    var i := FindCRLF(buf).value;
    var e := TakeLine(START, buf[..i]);
    if e.More? {
      ParseHeaders(e.parser.request, buf[i + 2..]);
    }
  }

  /** Such a line: a method, a space and a target, and no version. */
  lemma RejectionSpoilsContext()
    ensures var buf: bytes := "GET /\r\n";
            !Parse(START, buf).ok && !Ready(Parse(START, buf).parser) && Parse(START, buf).rest == buf
  {
    var line: bytes := "GET /";
    var empty: bytes := [];
    var name: bytes := MethodText(Get);
    var target: bytes := "/";
    NothingMore(line + CRLF);
    assert line == name + [' '] + target;
    assert line + CRLF + empty == "GET /\r\n";
    FindCRLFAfterLine(line, empty);
    SplitAtFirst(name, ' ', target);
    assert (line + CRLF + empty)[..5] == line;
    assert ' ' !in target;
    assert ReadRequestLine(FRESH, line) == (false, FRESH.(verb := Get));
  }
}
