/** `HttpServer` on top of one `LinkedSocket`: `rcvMessage`, `rcvRequest`, and the dispatch of
    one poll result through `FdHandler::handleEvent`. */
module HttpServers {
  import opened Bytes
  import opened Buffers
  import opened Pollers
  import opened LinkOrder
  import opened LinkProtocol
  import opened LinkedSockets
  import opened HttpRequests
  import opened HttpContexts
  import opened HttpStreams
  import opened HttpResponses
  import opened HttpSessions

  class HttpServer {
    const httpCallback: App

    constructor (httpCallback: App)
      ensures this.httpCallback == httpCallback
    {
      this.httpCallback := httpCallback;
    }

    /** Every response of the callback can be appended to a buffer. */
    ghost predicate Printable() {
      forall q, r :: Appendable(httpCallback(q, r))
    }

    /** Answers one request; the response is printed into a buffer of its own. */
    method RcvRequest(conn: LinkedSocket, q: Request, w: WriteResult)
      requires conn.Valid() && Appendable(Respond(httpCallback, q))
      modifies conn, conn.handler`events, conn.handler`inPoll, conn.poller`fd2handler, conn.poller`kernel,
               conn.outputBuffer, conn.outputBuffer.store
      ensures conn.Valid()
      ensures conn.View() == DoActs(old(conn.View()), Reply(httpCallback, q, w))
      ensures conn.outputBuffer.store == old(conn.outputBuffer.store) || fresh(conn.outputBuffer.store)
    {
      hide PrintResponse, DoActs, LinkedSocket.Valid, Appendable;
      var buf, close := PrintAnswer(q);
      SendAndMaybeClose(conn, buf, close, w);
    }

    method PrintAnswer(q: Request) returns (buf: Buffer, closeAfter: bool)
      requires Appendable(Respond(httpCallback, q))
      ensures fresh(buf) && fresh(buf.store) && buf.Valid()
      ensures buf.Contents() == PrintResponse(Respond(httpCallback, q))
      ensures closeAfter == Respond(httpCallback, q).close
    {
      var connection := HeaderOf(q, CONNECTION);
      var close := connection == CLOSE || (q.version == Http10 && connection != KEEP_ALIVE);
      var response := httpCallback(q, NewResponse(close));
      hide PrintResponse, Appendable;
      buf := new Buffer();
      AppendToBuffer(response, buf);
      NothingMore(PrintResponse(response));
      closeAfter := response.close;
    }

    method SendAndMaybeClose(conn: LinkedSocket, buf: Buffer, close: bool, w: WriteResult)
      requires conn.Valid() && buf.Valid()
      requires buf != conn.outputBuffer && buf != conn.inputBuffer && buf.store != conn.outputBuffer.store
      modifies conn, conn.handler`events, conn.handler`inPoll, conn.poller`fd2handler, conn.poller`kernel,
               conn.outputBuffer, conn.outputBuffer.store, buf`reader, buf`writer
      ensures conn.Valid()
      ensures var acts := [ActSend(old(buf.Contents()), w, NO_CALLS)] + if close then [ActShutdown] else [];
              conn.View() == DoActs(old(conn.View()), acts)
      ensures conn.outputBuffer.store == old(conn.outputBuffer.store) || fresh(conn.outputBuffer.store)
    {
      TwoActs(conn.View(), ActSend(buf.Contents(), w, NO_CALLS), ActShutdown);
      hide LinkProtocol.Send, LinkProtocol.Shutdown, DoActs, LinkedSocket.Valid;
      conn.SendBuffer(buf, true, w, NO_CALLS);
      if close {
        conn.Shutdown(true);
      }
    }

    method Reject(conn: LinkedSocket, w: WriteResult)
      requires conn.Valid()
      modifies conn, conn.handler`events, conn.handler`inPoll, conn.poller`fd2handler, conn.poller`kernel,
               conn.outputBuffer, conn.outputBuffer.store
      ensures conn.Valid()
      ensures conn.View() == DoActs(old(conn.View()), [ActSend(BAD_REQUEST, w, NO_CALLS), ActShutdown])
      ensures conn.outputBuffer.store == old(conn.outputBuffer.store) || fresh(conn.outputBuffer.store)
    {
      TwoActs(conn.View(), ActSend(BAD_REQUEST, w, NO_CALLS), ActShutdown);
      hide LinkProtocol.Send, LinkProtocol.Shutdown, DoActs, LinkedSocket.Valid;
      conn.Send(BAD_REQUEST, true, w, NO_CALLS);
      conn.Shutdown(true);
    }

    method ParseInput(conn: LinkedSocket, context: HttpContext, receiveTime: int) returns (ok: bool)
      requires conn.Valid() && Ready(context.View())
      modifies conn.inputBuffer`reader, conn.inputBuffer`writer, context, context.request
      ensures conn.Valid() && conn.View() == old(conn.View())
      ensures Outcome(ok, context.View(), conn.inputBuffer.Contents())
              == Parse(old(context.View()), old(conn.inputBuffer.Contents()))
    {
      hide Parse, Sound, Coherent;
      ok := context.ParseRequest(conn.inputBuffer, receiveTime);
    }

    /** Called with new bytes in the input buffer: one parse, at most one answer, and the
        context ready for the next call. */
    method RcvMessage(conn: LinkedSocket, context: HttpContext, receiveTime: int, w: WriteResult)
      requires conn.Valid() && Ready(context.View())
      requires Printable()
      modifies conn, conn.handler`events, conn.handler`inPoll, conn.poller`fd2handler, conn.poller`kernel,
               conn.outputBuffer, conn.outputBuffer.store,
               conn.inputBuffer`reader, conn.inputBuffer`writer, context, context.request
      ensures conn.Valid()
      ensures conn.outputBuffer.store == old(conn.outputBuffer.store) || fresh(conn.outputBuffer.store)
      ensures var o := Parse(old(context.View()), old(conn.inputBuffer.Contents()));
              && conn.View() == DoActs(old(conn.View()), Reaction(httpCallback, o, w))
              && context.View() == (if o.parser.state == GotAll then START else o.parser)
              && conn.inputBuffer.Contents() == o.rest
              && Resumable(context.View()) && (o.ok ==> Ready(context.View()))
    {
      hide Parse, Reply, DoActs, FindCRLF, Appendable, LinkedSocket.Valid;
      NoActs(conn.View());
      var ok := ParseInput(conn, context, receiveTime);
      if !ok {
        Reject(conn, w);
      }
      if context.HasAll() {
        RcvRequest(conn, context.request.Value(), w);
        context.Reset();
      }
    }

    /** One active descriptor: the order of the branches is that of `FdHandler::handleEvent`. */
    method HandleEvent(conn: LinkedSocket, context: HttpContext, revents: Mask, r: ReadResult,
                       receiveTime: int, w: WriteResult, dw: WriteResult, done: seq<Act>)
      requires conn.Valid() && Reported(conn.View(), revents) && ({HUP, PRI} <= revents ==> IN in revents)
      requires r.ReadBytes? ==> |r.data| <= conn.inputBuffer.ReadLimit()
      requires Resumable(context.View()) && (Reads(revents) ==> Ready(context.View()))
      requires Printable()
      modifies conn, conn.handler`events, conn.handler`inPoll, conn.poller`fd2handler, conn.poller`kernel,
               conn.outputBuffer, conn.outputBuffer.store,
               conn.inputBuffer, conn.inputBuffer.store, context, context.request
      ensures conn.Valid()
      ensures conn.outputBuffer.store == old(conn.outputBuffer.store) || fresh(conn.outputBuffer.store)
      ensures conn.inputBuffer.store == old(conn.inputBuffer.store) || fresh(conn.inputBuffer.store)
      ensures var read := ReadEffect(old(context.View()), old(conn.inputBuffer.Contents()), r, w);
              DispatchSafe(old(conn.View()), revents, read)
              && conn.View() == LinkProtocol.HandleEvent(old(conn.View()), revents, read, dw, done)
      ensures (context.View(), conn.inputBuffer.Contents())
              == AfterRead(old(context.View()), old(conn.inputBuffer.Contents()), Reads(revents), r)
    {
      ghost var l, read := conn.View(), ReadEffect(context.View(), conn.inputBuffer.Contents(), r, w);
      BranchesInOrder(l, revents, read, dw, done);
      hide LinkProtocol.HandleEvent;
      hide Parse, Reply, DoActs, Reaction, Reads, HandleWrite, HandleClose;
      hide LinkedSocket.Valid, Printable, AfterRead, BeforeWrite, ReadEffect, Sound, DispatchSafe, Reported, Ready;
      CloseAndRead(conn, context, revents, r, receiveTime, w);
      WriteIfReported(conn, revents, dw, done);
    }

    /** The branch of `handleEvent` for POLLOUT. */
    method WriteIfReported(conn: LinkedSocket, revents: Mask, dw: WriteResult, done: seq<Act>)
      requires conn.Valid()
      modifies conn, conn.handler`events, conn.handler`inPoll, conn.poller`fd2handler, conn.poller`kernel,
               conn.outputBuffer, conn.outputBuffer.store
      ensures conn.Valid()
      ensures conn.outputBuffer.store == old(conn.outputBuffer.store) || fresh(conn.outputBuffer.store)
      ensures conn.View() == if OUT in revents then HandleWrite(old(conn.View()), dw, done) else old(conn.View())
      ensures conn.inputBuffer.Contents() == old(conn.inputBuffer.Contents())
    {
      hide HandleWrite, Sound, LinkedSocket.Valid;
      if OUT in revents {
        conn.HandleWrite(dw, done);
      }
    }

    /** The branches of `handleEvent` before POLLOUT. */
    method CloseAndRead(conn: LinkedSocket, context: HttpContext, revents: Mask, r: ReadResult,
                        receiveTime: int, w: WriteResult)
      requires conn.Valid() && Resumable(context.View()) && (Reads(revents) ==> Ready(context.View()))
      requires DispatchSafe(conn.View(), revents, ReadEffect(context.View(), conn.inputBuffer.Contents(), r, w))
      requires r.ReadBytes? ==> |r.data| <= conn.inputBuffer.ReadLimit()
      requires Printable()
      modifies conn, conn.handler`events, conn.handler`inPoll, conn.poller`fd2handler, conn.poller`kernel,
               conn.outputBuffer, conn.outputBuffer.store,
               conn.inputBuffer, conn.inputBuffer.store, context, context.request
      ensures conn.Valid()
      ensures conn.outputBuffer.store == old(conn.outputBuffer.store) || fresh(conn.outputBuffer.store)
      ensures conn.inputBuffer.store == old(conn.inputBuffer.store) || fresh(conn.inputBuffer.store)
      ensures conn.View() == BeforeWrite(old(conn.View()), revents,
                               ReadEffect(old(context.View()), old(conn.inputBuffer.Contents()), r, w))
      ensures (context.View(), conn.inputBuffer.Contents())
              == AfterRead(old(context.View()), old(conn.inputBuffer.Contents()), Reads(revents), r)
    {
      assert ReadEffect(context.View(), conn.inputBuffer.Contents(), r, w) == Eof <==> r == ReadBytes([]);
      assert AfterRead(context.View(), conn.inputBuffer.Contents(), false, r)
          == (context.View(), conn.inputBuffer.Contents());
      hide Parse, Reply, DoActs, Reaction, Reads, HandleClose, LinkedSocket.Valid, Printable, ReadEffect, AfterRead;
      if ClosesOnHup(revents) {
        conn.HandleClose();
      }
      if Reads(revents) {
        OnReadable(conn, context, r, receiveTime, w);
      }
    }

    method OnReadable(conn: LinkedSocket, context: HttpContext, r: ReadResult, receiveTime: int, w: WriteResult)
      requires conn.Valid() && Ready(context.View())
      requires r.ReadBytes? ==> |r.data| <= conn.inputBuffer.ReadLimit()
      requires r == ReadBytes([]) ==> conn.state != Disconnected
      requires Printable()
      modifies conn, conn.handler`events, conn.handler`inPoll, conn.poller`fd2handler, conn.poller`kernel,
               conn.outputBuffer, conn.outputBuffer.store,
               conn.inputBuffer, conn.inputBuffer.store, context, context.request
      ensures conn.Valid()
      ensures conn.outputBuffer.store == old(conn.outputBuffer.store) || fresh(conn.outputBuffer.store)
      ensures conn.inputBuffer.store == old(conn.inputBuffer.store) || fresh(conn.inputBuffer.store)
      ensures conn.View() == LinkProtocol.HandleRead(old(conn.View()),
                               ReadEffect(old(context.View()), old(conn.inputBuffer.Contents()), r, w))
      ensures (context.View(), conn.inputBuffer.Contents())
              == AfterRead(old(context.View()), old(conn.inputBuffer.Contents()), true, r)
    {
      hide Parse, Reply, DoActs, Reaction, HandleClose, LinkedSocket.Valid, Printable;
      if r.ReadBytes? {
        ParseResets(context.View(), conn.inputBuffer.Contents(), r.data);
      } else {
        NothingMore(conn.inputBuffer.Contents());
      }
      NothingMore(conn.inputBuffer.Contents());
      var notify := conn.HandleRead(r);
      if notify {
        RcvMessage(conn, context, receiveTime, w);
      }
    }

    /** Whether the objects are in the state of a session. */
    ghost predicate InSession(conn: LinkedSocket, context: HttpContext, s: Session)
      reads conn, conn.handler, conn.poller, conn.poller.live, conn.inputBuffer, conn.outputBuffer,
            conn.outputBuffer.store, conn.inputBuffer.store, context, context.request
    {
      && conn.Valid()
      && conn.View() == s.link && context.View() == s.context.parser && conn.inputBuffer.Contents() == s.context.pending
    }

    /** A new connection: its socket and handler, prepared, and its context. */
    method NewConnection(poller: Epoll, fd: int, highWaterMark: nat) returns (conn: LinkedSocket, context: HttpContext)
      requires poller.Valid() && forall h :: h in poller.live ==> h.fd != fd
      modifies poller
      ensures fresh(conn) && fresh(context) && conn.poller == poller && conn.handler.fd == fd
      ensures conn.highWaterMark == highWaterMark && InSession(conn, context, NewSession(highWaterMark))
    {
      conn := new LinkedSocket(poller, fd, highWaterMark);
      conn.Prepare();
      context := new HttpContext();
    }

    /** The loop's dispatches, one after the other: the objects go through the states of the
        session, so everything proved of sessions holds of them. It stops early only at an event
        with more bytes than the read offers, which the kernel cannot deliver. */
    method Serve(conn: LinkedSocket, context: HttpContext, es: seq<IoEvent>, receiveTime: int) returns (served: nat)
      requires InSession(conn, context, NewSession(conn.highWaterMark))
      requires LegalRun(httpCallback, NewSession(conn.highWaterMark), es) && Printable()
      modifies conn, conn.handler`events, conn.handler`inPoll, conn.poller`fd2handler, conn.poller`kernel,
               conn.outputBuffer, conn.outputBuffer.store,
               conn.inputBuffer, conn.inputBuffer.store, context, context.request
      ensures served <= |es| && LegalRun(httpCallback, NewSession(conn.highWaterMark), es[..served])
      ensures InSession(conn, context, Run(httpCallback, NewSession(conn.highWaterMark), es[..served]))
      ensures served < |es| ==> es[served].data.Some? && |es[served].data.value| > conn.inputBuffer.ReadLimit()
    {
      ghost var start := NewSession(conn.highWaterMark);
      ghost var s := start;
      served := 0;
      assert es[..0] == [];
      NewSessionInv(httpCallback, conn.highWaterMark);
      hide SessionInv, Legal, LinkedSocket.Valid, Printable, Step;
      assert LegalRun(httpCallback, start, es[..0]) && Run(httpCallback, start, es[..0]) == start;
      hide LegalRun, Run;
      while served < |es|
        invariant served <= |es| && LegalRun(httpCallback, start, es[..served])
        invariant s == Run(httpCallback, start, es[..served])
        invariant InSession(conn, context, s) && SessionInv(httpCallback, s)
        invariant conn.outputBuffer.store == old(conn.outputBuffer.store) || fresh(conn.outputBuffer.store)
        invariant conn.inputBuffer.store == old(conn.inputBuffer.store) || fresh(conn.inputBuffer.store)
      {
        if es[served].data.Some? && |es[served].data.value| > conn.inputBuffer.ReadLimit() {
          return;
        }
        RunSnoc(httpCallback, start, es, served);
        ServeOneEvent(conn, context, s, es[served], receiveTime);
        s := Step(httpCallback, s, es[served]);
        served := served + 1;
      }
    }

    lemma ContextAfterStep(s: Session, e: IoEvent)
      requires SessionInv(httpCallback, s) && Legal(s, e)
      ensures var c := Step(httpCallback, s, e).context;
              AfterRead(s.context.parser, s.context.pending, Reads(Bits(e)), ReadOf(e)) == (c.parser, c.pending)
      ensures {HUP, PRI} * Bits(e) == {} && (Reads(Bits(e)) ==> Ready(s.context.parser)) && Resumable(s.context.parser)
    {
      assert Reads(Bits(e)) <==> e.data.Some? by {
        assert IN in Bits(e) ==> IN in Bits(e) * {IN, PRI, RDHUP};
      }
      assert Step(httpCallback, s, e).context == if e.data.Some? then Receive(s.context, e.data.value) else s.context;
      if e.data.Some? {
        SameReceived(s.context, e.data.value);
      }
      hide Parse, Reaction, Inv, HandleWrite, DoActs, Step, Receive, Reads, Closing, HttpSessions.Serve;
    }

    method ServeOneEvent(conn: LinkedSocket, context: HttpContext, ghost s: Session, e: IoEvent, receiveTime: int)
      requires InSession(conn, context, s) && SessionInv(httpCallback, s) && Legal(s, e)
      requires e.data.Some? ==> |e.data.value| <= conn.inputBuffer.ReadLimit()
      requires Printable()
      modifies conn, conn.handler`events, conn.handler`inPoll, conn.poller`fd2handler, conn.poller`kernel,
               conn.outputBuffer, conn.outputBuffer.store,
               conn.inputBuffer, conn.inputBuffer.store, context, context.request
      ensures InSession(conn, context, Step(httpCallback, s, e)) && SessionInv(httpCallback, Step(httpCallback, s, e))
      ensures conn.outputBuffer.store == old(conn.outputBuffer.store) || fresh(conn.outputBuffer.store)
      ensures conn.inputBuffer.store == old(conn.inputBuffer.store) || fresh(conn.inputBuffer.store)
    {
      StepKeeps(httpCallback, s, e);
      SessionStepIsDispatch(httpCallback, s, e);
      ContextAfterStep(s, e);
      assert ReadEffect(s.context.parser, s.context.pending, ReadOf(e), e.w) ==
             (if e.data.None? then ReadError
              else Data(Reaction(httpCallback, Parse(s.context.parser, s.context.pending + e.data.value), e.w)));
      hide Parse, Reaction, Inv, Step, HandleWrite, DoActs, Reads, AfterRead, ReadEffect, Bits;
      hide LinkProtocol.HandleEvent, DispatchSafe, SessionInv, LinkedSocket.Valid, Ready, Printable;
      HandleEvent(conn, context, Bits(e), ReadOf(e), receiveTime, e.w, e.dw, []);
    }

    /** The context and the input buffer after a read: those of a receiver given the new bytes. */
    ghost function AfterRead(parser: Parser, pending: bytes, readable: bool, r: ReadResult): (Parser, bytes)
      requires Resumable(parser)
    {
      if !readable || r.ReadFailed? || r.data == [] then (parser, pending)
      else
        var c := Receive(Receiver(parser, pending, [], false), r.data);
        (c.parser, c.pending)
    }

    /** A read, as the connection sees it: the owner's reaction to the data, or the end. */
    ghost function ReadEffect(parser: Parser, pending: bytes, r: ReadResult, w: WriteResult): ReadOutcome
      requires Resumable(parser)
    {
      match r
      case ReadFailed(_) => ReadError
      case ReadBytes(data) => if data == [] then Eof else Data(Reaction(httpCallback, Parse(parser, pending + data), w))
    }
  }

  lemma ParseResets(p: Parser, pending: bytes, chunk: bytes)
    requires Resumable(p)
    ensures var o, c := Parse(p, pending + chunk), Receive(Receiver(p, pending, [], false), chunk);
            c.parser == (if o.parser.state == GotAll then START else o.parser) && c.pending == o.rest
  {
  }

  /** What was delivered before has no influence on the context. */
  lemma SameReceived(c: Receiver, chunk: bytes)
    requires !c.rejected && Resumable(c.parser)
    ensures var d, e := Receive(c, chunk), Receive(Receiver(c.parser, c.pending, [], false), chunk);
            d.parser == e.parser && d.pending == e.pending
  {
    hide Parse;
  }

  /** One dispatch is the branches before POLLOUT, and then that one. */
  lemma BranchesInOrder(l: Link, revents: Mask, read: ReadOutcome, dw: WriteResult, done: seq<Act>)
    requires Sound(l) && Reported(l, revents) && ({HUP, PRI} <= revents ==> IN in revents)
    ensures DispatchSafe(l, revents, read)
    ensures var l1 := BeforeWrite(l, revents, read);
            HandleEvent(l, revents, read, dw, done) == if OUT in revents then HandleWrite(l1, dw, done) else l1
  {
    DispatchAssertion(l, revents, read);
  }

  /** The bits one event of a session stands for. */
  function Bits(e: IoEvent): Mask {
    (if e.data.Some? then {IN} else {}) + (if e.writable then {OUT} else {})
  }

  /** What `readv` returns in it; without data nothing is read. */
  function ReadOf(e: IoEvent): ReadResult {
    if e.data.Some? then ReadBytes(e.data.value) else ReadFailed(0)
  }

  /** A step of a session is a dispatch of POLLIN, of POLLOUT, or of both. */
  lemma SessionStepIsDispatch(app: App, s: Session, e: IoEvent)
    requires SessionInv(app, s) && Legal(s, e)
    ensures var t, c := Step(app, s, e), s.context;
            var read := if e.data.None? then ReadError
                        else Data(Reaction(app, Parse(c.parser, c.pending + e.data.value), e.w));
            && Reported(s.link, Bits(e)) && DispatchSafe(s.link, Bits(e), read)
            && t.link == HandleEvent(s.link, Bits(e), read, e.dw, [])
  {
    WritingIsBacklog(s.link);
    assert Reads(Bits(e)) <==> e.data.Some? by {
      assert IN in Bits(e) ==> IN in Bits(e) * {IN, PRI, RDHUP};
    }
    hide Inv, HandleWrite, DoActs, Reaction, Parse, Receive;
  }

  lemma {:induction false} RunSnoc(app: App, s: Session, es: seq<IoEvent>, i: nat)
    requires LegalRun(app, s, es) && i < |es|
    ensures LegalRun(app, s, es[..i]) && LegalRun(app, s, es[..i + 1])
    ensures Legal(Run(app, s, es[..i]), es[i])
    ensures Run(app, s, es[..i + 1]) == Step(app, Run(app, s, es[..i]), es[i])
    decreases i
  {
    hide Step, Legal;
    var t := Step(app, s, es[0]);
    assert es[..i + 1][1..] == es[1..][..i] && es[..i + 1][0] == es[0];
    if i == 0 {
      assert es[..1][1..] == [];
      assert Run(app, t, []) == t;
    } else {
      RunSnoc(app, t, es[1..], i - 1);
      assert es[..i][1..] == es[1..][..i - 1] && es[..i][0] == es[0];
    }
  }
}
