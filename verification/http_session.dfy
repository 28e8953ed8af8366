/** One HTTP connection end to end: bytes in, any split; bytes out, any partial writes. */
module HttpSessions {
  import opened Bytes
  import opened HttpRequests
  import opened HttpContexts
  import opened HttpStreams
  import opened HttpFraming
  import opened HttpResponses
  import opened LinkOrder
  import opened LinkProtocol

  /** The HTTP callback: it fills in the response it is given. */
  type App = (Request, Response) -> Response

  const BAD_REQUEST: bytes := "HTTP/1.1 400 Bad Request\r\n\r\n"

  function ClosesAfter(q: Request): bool {
    var connection := HeaderOf(q, CONNECTION);
    connection == CLOSE || (q.version == Http10 && connection != KEEP_ALIVE)
  }

  function Respond(app: App, q: Request): Response {
    app(q, NewResponse(ClosesAfter(q)))
  }

  /** What `rcvRequest` does with the connection. */
  function Reply(app: App, q: Request, w: WriteResult): seq<Act> {
    var r := Respond(app, q);
    [ActSend(PrintResponse(r), w, NO_CALLS)] + if r.close then [ActShutdown] else []
  }

  /** What `rcvMessage` does with the connection after one parse. */
  function Reaction(app: App, o: Outcome, w: WriteResult): seq<Act> {
    if !o.ok then [ActSend(BAD_REQUEST, w, NO_CALLS), ActShutdown]
    else if o.parser.state == GotAll then Reply(app, o.parser.request, w)
    else []
  }

  datatype Session = Session(link: Link, context: Receiver)

  /** A session of a new connection, whatever its high-water mark. */
  function NewSession(mark: nat): Session {
    Session(Prepared(mark), NEW_RECEIVER)
  }

  /** One dispatch: the bytes read, if any, and the result of the write of the answer; whether
      the kernel reports the connection writable, and the result of the write of the backlog. */
  datatype IoEvent = IoEvent(data: Option<bytes>, w: WriteResult, writable: bool, dw: WriteResult)

  /** The first rejected line ends the input, no direct write finds the peer gone, and POLLOUT
      is reported only when it is watched for. */
  predicate Legal(s: Session, e: IoEvent) {
    && e.w != Fault
    && (e.data.Some? ==> e.data.value != [] && !s.context.rejected && Resumable(s.context.parser))
    && (e.writable ==> Writing(s.link))
  }

  function ReadStep(app: App, s: Session, e: IoEvent): Session
    requires Legal(s, e)
  {
    match e.data
    case None => s
    case Some(chunk) =>
      var o := Parse(s.context.parser, s.context.pending + chunk);
      Session(DoActs(s.link, Reaction(app, o, e.w)), Receive(s.context, chunk))
  }

  function Step(app: App, s: Session, e: IoEvent): Session
    requires Legal(s, e)
  {
    var t := ReadStep(app, s, e);
    if e.writable then t.(link := HandleWrite(t.link, e.dw, [])) else t
  }

  ghost predicate LegalRun(app: App, s: Session, es: seq<IoEvent>)
    decreases |es|
  {
    es == [] || (Legal(s, es[0]) && LegalRun(app, Step(app, s, es[0]), es[1..]))
  }

  ghost function Run(app: App, s: Session, es: seq<IoEvent>): Session
    requires LegalRun(app, s, es)
    decreases |es|
  {
    if es == [] then s else Run(app, Step(app, s, es[0]), es[1..])
  }

  /** The input of a run, as it was cut. */
  function Chunks(es: seq<IoEvent>): seq<bytes>
    decreases |es|
  {
    if es == [] then []
    else (if es[0].data.Some? then [es[0].data.value] else []) + Chunks(es[1..])
  }

  // ----- The output a list of requests deserves -----

  /** The printed responses in order, up to the first that closes; the 400 if none did. */
  function Serve(app: App, qs: seq<Request>, rejected: bool): bytes {
    if qs == [] then (if rejected then BAD_REQUEST else [])
    else
      var r := Respond(app, qs[0]);
      PrintResponse(r) + if r.close then [] else Serve(app, qs[1..], rejected)
  }

  predicate Closing(app: App, qs: seq<Request>) {
    exists i :: 0 <= i < |qs| && Respond(app, qs[i]).close
  }

  lemma {:induction false} ServeOneMore(app: App, qs: seq<Request>, q: Request, rejected: bool)
    ensures Serve(app, qs + [q], rejected)
            == Serve(app, qs, false) + if Closing(app, qs) then [] else Serve(app, [q], rejected)
    decreases |qs|
  {
    hide Respond, PrintResponse;
    if qs == [] {
      assert qs + [q] == [q];
      NothingMore(Serve(app, [q], rejected));
    } else {
      var r := Respond(app, qs[0]);
      assert (qs + [q])[1..] == qs[1..] + [q] && (qs + [q])[0] == qs[0];
      ClosingFirst(app, qs);
      if r.close {
        NothingMore(PrintResponse(r));
      } else {
        ServeOneMore(app, qs[1..], q, rejected);
        var more := if Closing(app, qs[1..]) then [] else Serve(app, [q], rejected);
        Assoc(PrintResponse(r), Serve(app, qs[1..], false), more);
      }
    }
  }

  lemma ClosingFirst(app: App, qs: seq<Request>)
    requires qs != []
    ensures Closing(app, qs) <==> Respond(app, qs[0]).close || Closing(app, qs[1..])
  {
  }

  lemma {:induction false} ServeRejected(app: App, qs: seq<Request>)
    ensures Serve(app, qs, true)
            == Serve(app, qs, false) + if Closing(app, qs) then [] else "HTTP/1.1 400 Bad Request\r\n\r\n"
    decreases |qs|
  {
    hide Respond, PrintResponse;
    if qs == [] {
      NothingMore(BAD_REQUEST);
    } else {
      var r := Respond(app, qs[0]);
      ClosingFirst(app, qs);
      if r.close {
        NothingMore(PrintResponse(r));
      } else {
        ServeRejected(app, qs[1..]);
        var more := if Closing(app, qs[1..]) then [] else BAD_REQUEST;
        Assoc(PrintResponse(r), Serve(app, qs[1..], false), more);
      }
    }
  }

  /** Fewer requests, less output: never different output. */
  lemma {:induction false} ServePrefix(app: App, qs: seq<Request>, all: seq<Request>, rejected: bool, allRejected: bool)
    requires qs <= all && (rejected ==> allRejected && qs == all)
    ensures Serve(app, qs, rejected) <= Serve(app, all, allRejected)
    decreases |qs|
  {
    hide Respond, PrintResponse;
    if qs != [] {
      assert all[0] == qs[0] && qs[1..] <= all[1..];
      ServePrefix(app, qs[1..], all[1..], rejected, allRejected);
    }
  }

  // ----- The end-to-end theorem -----

  ghost predicate SessionInv(app: App, s: Session) {
    && Inv(s.link)
    && s.link.submitted == Serve(app, s.context.delivered, s.context.rejected)
    && s.link.state == (if s.context.rejected || Closing(app, s.context.delivered) then Disconnecting else Connected)
    && Resumable(s.context.parser) && (!s.context.rejected ==> Ready(s.context.parser))
  }

  /** A message sent by a connected link is submitted whole; by another, not at all. */
  lemma SendSubmits(l: Link, message: bytes, w: WriteResult)
    requires Sound(l) && w != Fault && l.state != Disconnected
    ensures var m := Send(l, message, w, NO_CALLS);
            m.state == l.state && m.submitted == l.submitted + if l.state == Connected then message else []
  {
    NothingMore(l.submitted);
    if l.state == Connected {
      var g, rest := Given(l, message, w), Rest(l, message, w);
      NoActs(g);
      assert Called(l, message, w, []) == g;
      assert g.state == l.state && g.submitted == l.submitted + message;
      hide Sound, DoActs, Given, Rest, Called, Completes, TakenNow;
    }
  }

  lemma ReplySubmits(l: Link, message: bytes, w: WriteResult, close: bool)
    requires Inv(l) && w != Fault && l.state != Disconnected
    ensures var acts := [ActSend(message, w, NO_CALLS)] + if close then [ActShutdown] else [];
            var m := DoActs(l, acts);
            && Inv(m) && m.submitted == l.submitted + (if l.state == Connected then message else [])
            && m.state == (if close then Disconnecting else l.state)
  {
    ReplyKeepsInv(l, message, w, close);
    SendSubmits(l, message, w);
    var l1 := Send(l, message, w, NO_CALLS);
    TwoActs(l, ActSend(message, w, NO_CALLS), ActShutdown);
    hide Inv, Send, DoActs;
    ShutdownSubmits(l1);
    hide Shutdown;
  }

  lemma ReplyKeepsInv(l: Link, message: bytes, w: WriteResult, close: bool)
    requires Inv(l)
    ensures Inv(DoActs(l, [ActSend(message, w, NO_CALLS)] + if close then [ActShutdown] else []))
  {
    var send := ActSend(message, w, NO_CALLS);
    assert Considerate([]) && ConsiderateAct(send) && ConsiderateAct(ActShutdown);
    assert [ActShutdown][1..] == [] && ([send] + [ActShutdown])[1..] == [ActShutdown] && ([send] + [])[1..] == [];
    assert Considerate([ActShutdown]);
    var acts := [send] + if close then [ActShutdown] else [];
    assert Considerate(acts);
    hide Considerate, Inv, DoActs;
    ConsiderateKeeps(l, acts);
    ActsKeepInv(l, acts);
  }

  lemma TwoActs(l: Link, a: Act, b: Act)
    ensures DoActs(l, [a] + []) == DoAct(l, a)
    ensures DoActs(l, [a] + [b]) == DoAct(DoAct(l, a), b)
    ensures [a, b] == [a] + [b]
    ensures DoActs(l, []) == l
  {
    hide DoAct;
    var m := DoAct(l, a);
    assert ([a] + [])[1..] == [] && ([a] + [b])[1..] == [b] && [b][1..] == [];
    assert DoActs(m, [b]) == DoActs(DoAct(m, b), []);
  }

  lemma ShutdownSubmits(l: Link)
    requires l.state != Disconnected
    ensures Shutdown(l).state == Disconnecting && Shutdown(l).submitted == l.submitted
  {
  }

  lemma ReadStepKeeps(app: App, s: Session, e: IoEvent)
    requires SessionInv(app, s) && Legal(s, e)
    ensures SessionInv(app, ReadStep(app, s, e))
  {
    if e.data.Some? {
      var c := s.context;
      var o := Parse(c.parser, c.pending + e.data.value);
      assert s.link.state != Disconnected;
      if !o.ok {
        ServeRejected(app, c.delivered);
        ReplySubmits(s.link, BAD_REQUEST, e.w, true);
        TwoActs(s.link, ActSend(BAD_REQUEST, e.w, NO_CALLS), ActShutdown);
      } else if o.parser.state == GotAll {
        var r := Respond(app, o.parser.request);
        ServeOneMore(app, c.delivered, o.parser.request, false);
        ClosingLast(app, c.delivered, o.parser.request);
        ServeOne(app, o.parser.request);
        ReplySubmits(s.link, PrintResponse(r), e.w, r.close);
      }
      NoActs(s.link);
      hide Parse, Inv, Serve, Respond, DoActs, PrintResponse, Closing;
    }
  }

  lemma ServeOne(app: App, q: Request)
    ensures Serve(app, [q], false) == PrintResponse(Respond(app, q))
  {
  }

  lemma ClosingLast(app: App, qs: seq<Request>, q: Request)
    ensures Closing(app, qs + [q]) <==> Closing(app, qs) || Respond(app, q).close
  {
    hide Respond;
    var all := qs + [q];
    assert all[|qs|] == q;
    if Closing(app, qs) {
      var i :| 0 <= i < |qs| && Respond(app, qs[i]).close;
      assert all[i] == qs[i];
    }
  }

  /** Writing a part of the backlog submits nothing and does not change the state. */
  lemma WriteSubmitsNothing(l: Link, w: WriteResult)
    requires Inv(l) && (l.state == Connected || l.state == Disconnecting)
    ensures var m := HandleWrite(l, w, []); Inv(m) && m.submitted == l.submitted && m.state == l.state
  {
    WritingIsBacklog(l);
    if Drains(l, w) {
      EmptiedKeeps(l);
      var e := Emptied(l);
      NoActs(e);
      assert e.fins == l.fins && e.state == l.state;
      assert HandleWrite(l, w, []) == if e.state == Disconnecting then ShutdownInLoop(e) else e;
      assert e.out == [];
      hide Emptied, DoActs, HandleWrite, Drains;
      LastFinDrained(e);
    } else if Writing(l) {
      PartialWriteKeeps(l, Taken(w, |l.out|));
      hide Sound, Forward, AfterDrain, Wire;
    }
  }

  lemma LastFinDrained(l: Link)
    requires Inv(l) && l.out == []
    ensures var m := ShutdownInLoop(l);
            l.state == Disconnecting ==> Inv(m) && m.submitted == l.submitted && m.state == l.state
  {
    if l.state == Disconnecting {
      ShutdownInLoopKeeps(l);
      NothingMore(l.accepted);
      hide Sound, Forward;
    }
  }

  lemma StepKeeps(app: App, s: Session, e: IoEvent)
    requires SessionInv(app, s) && Legal(s, e)
    ensures SessionInv(app, Step(app, s, e))
  {
    ReadStepKeeps(app, s, e);
    WriteSubmitsNothing(ReadStep(app, s, e).link, e.dw);
    hide Inv, ReadStep, HandleWrite, Serve, Closing;
  }

  lemma {:induction false} RunKeeps(app: App, s: Session, es: seq<IoEvent>)
    requires SessionInv(app, s) && LegalRun(app, s, es)
    ensures var t := Run(app, s, es);
            SessionInv(app, t) && t.context == ReceiveAll(s.context, Chunks(es))
    decreases |es|
  {
    if es != [] {
      StepKeeps(app, s, es[0]);
      RunKeeps(app, Step(app, s, es[0]), es[1..]);
      hide Legal, SessionInv, Receive, Reaction, DoActs, HandleWrite;
      if es[0].data.Some? {
        assert Chunks(es)[0] == es[0].data.value && Chunks(es)[1..] == Chunks(es[1..]);
      } else {
        assert Chunks(es) == Chunks(es[1..]);
      }
    }
  }

  /** For every split of the input and every choice of partial writes: what the kernel accepted
      and what is still queued are together the responses to the delivered requests, cut after
      the first that closes or the first 400. That is a prefix of what the whole input, read as
      lines and messages, deserves; and all of it when no complete line is waiting. */
  lemma EndToEnd(app: App, mark: nat, es: seq<IoEvent>)
    requires LegalRun(app, NewSession(mark), es)
    ensures var s, all := Run(app, NewSession(mark), es), ReadMessages(Lines(Flatten(Chunks(es))));
            var output, c := s.link.accepted + s.link.out, s.context;
            && output == Serve(app, c.delivered, c.rejected)
            && output <= Serve(app, all.delivered, all.rejected)
            && (c.rejected || Lines(c.pending) == [] ==> output == Serve(app, all.delivered, all.rejected))
            && (!c.rejected ==> Ready(c.parser))
  {
    NewSessionInv(app, mark);
    RunKeeps(app, NewSession(mark), es);
    DeliveredIsPrefix(Chunks(es));
    var s, all := Run(app, NewSession(mark), es), ReadMessages(Lines(Flatten(Chunks(es))));
    hide Serve, Run, LegalRun, ReceiveAll, ReadMessages;
    ServePrefix(app, s.context.delivered, all.delivered, s.context.rejected, all.rejected);
  }

  // ----- Persistence -----

  /** Whether the Connection field is literally `value`. */
  predicate Says(q: Request, value: bytes) {
    "Connection" in q.headers && q.headers["Connection"] == value
  }

  /** The requests after which the connection is to be closed. */
  predicate AsksToClose(q: Request) {
    Says(q, "close") || (q.version == Http10 && !Says(q, "Keep-Alive"))
  }

  /** A callback that leaves the close flag as it was preset. */
  ghost predicate KeepsPreset(app: App) {
    forall q, r :: app(q, r).close == r.close
  }

  lemma ClosesIffAsked(app: App, q: Request)
    requires KeepsPreset(app)
    ensures Respond(app, q).close <==> AsksToClose(q)
  {
  }

  /** A step that delivers a request leaves the connection up exactly if that does not ask to close. */
  lemma DeliveryDecides(app: App, s: Session, e: IoEvent)
    requires SessionInv(app, s) && Legal(s, e) && KeepsPreset(app)
    requires s.link.state == Connected && |Step(app, s, e).context.delivered| > |s.context.delivered|
    ensures var t := Step(app, s, e);
            && t.context.delivered != [] && var q := t.context.delivered[|t.context.delivered| - 1];
            && t.context.delivered == s.context.delivered + [q]
            && t.link.state == if AsksToClose(q) then Disconnecting else Connected
  {
    var t := Step(app, s, e);
    StepKeeps(app, s, e);
    var q := t.context.delivered[|t.context.delivered| - 1];
    assert t.context.delivered == s.context.delivered + [q] && !t.context.rejected by {
      hide Parse, Inv, DoActs, HandleWrite, Serve, Closing, Reaction;
    }
    ClosingLast(app, s.context.delivered, q);
    ClosesIffAsked(app, q);
    hide Step, Inv, Serve, Closing, Respond, Legal, AsksToClose;
  }

  /** After any run the connection is up exactly if no line was rejected and no delivered request
      asks to close. */
  lemma UpIffNoneAsked(app: App, mark: nat, es: seq<IoEvent>)
    requires LegalRun(app, NewSession(mark), es) && KeepsPreset(app)
    ensures var s := Run(app, NewSession(mark), es);
            var up := !s.context.rejected && forall q :: q in s.context.delivered ==> !AsksToClose(q);
            s.link.state == if up then Connected else Disconnecting
  {
    NewSessionInv(app, mark);
    RunKeeps(app, NewSession(mark), es);
    var s := Run(app, NewSession(mark), es);
    forall q ensures Respond(app, q).close <==> AsksToClose(q) {
      ClosesIffAsked(app, q);
    }
    hide Run, LegalRun, Inv, Serve, Respond, AsksToClose, KeepsPreset, ReceiveAll;
    assert Closing(app, s.context.delivered) <==> exists q :: q in s.context.delivered && Respond(app, q).close;
  }

  /** The answer to a rejected line has the form of a printed response: a status line with the code
      400, no field, an empty line. */
  lemma BadRequestOnWire()
    ensures BAD_REQUEST == StatusStart(BadRequest400) + "Bad Request" + "\r\n" + "\r\n"
    ensures BAD_REQUEST == "HTTP/1.1 400 Bad Request\r\n\r\n"
  {
    StatusOnWire(BadRequest400);
    hide StatusStart;
  }

  /** With the default callback a run that delivers a request answers 404 once, and shuts down. */
  lemma DefaultServer(app: App, mark: nat, es: seq<IoEvent>)
    requires LegalRun(app, NewSession(mark), es) && forall q, r :: app(q, r) == NotFound(r)
    ensures var s := Run(app, NewSession(mark), es);
            s.context.delivered != [] ==>
              && s.link.accepted + s.link.out == "HTTP/1.1 404 Not Found\r\nConnection: close\r\n\r\n"
              && s.link.state == Disconnecting
  {
    NewSessionInv(app, mark);
    RunKeeps(app, NewSession(mark), es);
    var s := Run(app, NewSession(mark), es);
    if s.context.delivered != [] {
      var q := s.context.delivered[0];
      DefaultAnswer(ClosesAfter(q));
      assert Respond(app, q) == NotFound(NewResponse(ClosesAfter(q)));
      NothingMore(PrintResponse(Respond(app, q)));
      assert Closing(app, s.context.delivered);
      hide Run, LegalRun, PrintResponse, ClosesAfter, Respond, Sound, ReceiveAll;
    }
  }

  lemma NewSessionInv(app: App, mark: nat)
    ensures SessionInv(app, NewSession(mark))
  {
    PreparedSound(mark);
  }
}
