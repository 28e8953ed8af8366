/** Client, server and client again: what a client that pipelines requests gets back. */
module HttpExchanges {
  import opened Bytes
  import opened HttpRequests
  import opened HttpContexts
  import opened HttpStreams
  import opened HttpPrinting
  import opened HttpResponses
  import opened HttpFraming
  import opened HttpSessions
  import opened LinkProtocol

  /** A request as a client writes it. */
  datatype ClientRequest = ClientRequest(m: Method, path: bytes, query: bytes, v: Version, fields: seq<Written>)

  predicate Plain(c: ClientRequest) {
    c.m != Invalid && c.v != Unknown && PlainTarget(c.path, c.query) && AllReadable(c.fields)
  }

  function Printed(c: ClientRequest): bytes
    requires Plain(c)
  {
    PrintRequest(c.m, c.path, c.query, c.v, c.fields)
  }

  function Meant(c: ClientRequest): Request {
    Request(c.m, c.v, c.path, c.query, FieldMap(map[], Meanings(c.fields)))
  }

  predicate AllPlain(cs: seq<ClientRequest>) {
    forall i :: 0 <= i < |cs| ==> Plain(cs[i])
  }

  function Pipeline(cs: seq<ClientRequest>): bytes
    requires AllPlain(cs)
  {
    if cs == [] then [] else Printed(cs[0]) + Pipeline(cs[1..])
  }

  function AllMeant(cs: seq<ClientRequest>): (qs: seq<Request>)
    ensures |qs| == |cs|
  {
    if cs == [] then [] else [Meant(cs[0])] + AllMeant(cs[1..])
  }

  /** Pipelined requests are read back one by one. */
  lemma {:induction false} PipelineRead(cs: seq<ClientRequest>)
    requires AllPlain(cs)
    ensures Read(START, Pipeline(cs)) == Reading(AllMeant(cs), false, START, [])
    decreases |cs|
  {
    if cs == [] {
      ReadNothing(START, []);
    } else {
      var c := cs[0];
      RequestRoundTrip(c.m, c.path, c.query, c.v, c.fields, Pipeline(cs[1..]));
      PipelineRead(cs[1..]);
      hide Parse, PrintRequest, Plain;
    }
  }

  function Answers(app: App, qs: seq<Request>): (rs: seq<Response>)
    ensures |rs| == |qs|
  {
    if qs == [] then [] else [Respond(app, qs[0])] + Answers(app, qs[1..])
  }

  /** Every answer keeps the connection open, is framable and below 2^31 bytes. */
  ghost predicate Answerable(app: App, qs: seq<Request>) {
    forall i :: 0 <= i < |qs| ==> Framable(Respond(app, qs[i])) && Small(Respond(app, qs[i]).body)
  }

  lemma AnswerableFirst(app: App, qs: seq<Request>)
    requires qs != [] && Answerable(app, qs)
    ensures var r := Respond(app, qs[0]); Framable(r) && Small(r.body) && !r.close
    ensures Answerable(app, qs[1..])
  {
  }

  lemma {:induction false} ServeIsPrintAll(app: App, qs: seq<Request>)
    requires Answerable(app, qs)
    ensures Serve(app, qs, false) == PrintAll(Answers(app, qs))
    decreases |qs|
  {
    if qs != [] {
      AnswerableFirst(app, qs);
      hide PrintResponse, Respond, Framable, Small, Answerable;
      ServeIsPrintAll(app, qs[1..]);
      assert Answers(app, qs)[1..] == Answers(app, qs[1..]);
    }
  }

  lemma {:induction false} AnswersAreFramable(app: App, qs: seq<Request>)
    requires Answerable(app, qs)
    ensures forall i :: 0 <= i < |qs| ==> Framable(Answers(app, qs)[i]) && Small(Answers(app, qs)[i].body)
    decreases |qs|
  {
    if qs != [] {
      AnswerableFirst(app, qs);
      hide Respond, Framable, Small, Answerable;
      AnswersAreFramable(app, qs[1..]);
    }
  }

  /** Whether the request, as the client means it, asks to close. */
  predicate ClientCloses(c: ClientRequest) {
    AsksToClose(Meant(c))
  }

  lemma {:induction false} FieldMapOmits(m: map<bytes, bytes>, fields: seq<(bytes, bytes)>, name: bytes)
    requires name !in m && forall i :: 0 <= i < |fields| ==> fields[i].0 != name
    ensures name !in FieldMap(m, fields)
    decreases |fields|
  {
    if fields != [] {
      FieldMapOmits(m[fields[0].0 := fields[0].1], fields[1..], name);
    }
  }

  lemma {:induction false} MeaningNames(fields: seq<Written>, name: bytes)
    requires forall i :: 0 <= i < |fields| ==> fields[i].name != name
    ensures forall i :: 0 <= i < |fields| ==> Meanings(fields)[i].0 != name
    decreases |fields|
  {
    if fields != [] {
      MeaningNames(fields[1..], name);
    }
  }

  /** By default HTTP/1.1 persists and HTTP/1.0 does not. */
  lemma DefaultPersistence(c: ClientRequest)
    requires forall f :: f in c.fields ==> f.name != "Connection"
    ensures ClientCloses(c) <==> c.v == Http10
  {
    MeaningNames(c.fields, "Connection");
    FieldMapOmits(map[], Meanings(c.fields), "Connection");
    hide FieldMap, Meanings;
  }

  lemma {:induction false} MeantAt(cs: seq<ClientRequest>, i: nat)
    requires i < |cs|
    ensures AllMeant(cs)[i] == Meant(cs[i])
    decreases |cs|
  {
    hide Meant;
    if i > 0 {
      MeantAt(cs[1..], i - 1);
    }
  }

  /** While a pipeline of printed requests is received, the connection is up exactly if none of the
      requests delivered so far asks to close. */
  lemma PipelinePersists(app: App, mark: nat, es: seq<IoEvent>, cs: seq<ClientRequest>)
    requires LegalRun(app, NewSession(mark), es) && KeepsPreset(app)
    requires AllPlain(cs) && Flatten(Chunks(es)) == Pipeline(cs)
    ensures var s := Run(app, NewSession(mark), es);
            && |s.context.delivered| <= |cs| && !s.context.rejected
            && s.link.state == if exists i :: 0 <= i < |s.context.delivered| && ClientCloses(cs[i]) then Disconnecting
                               else Connected
  {
    UpIffNoneAsked(app, mark, es);
    DeliveredOfPipeline(app, mark, es, cs);
    hide Run, LegalRun, AllMeant, Pipeline, Sound, KeepsPreset, AsksToClose, Meant, AllPlain;
    AskedAmong(Run(app, NewSession(mark), es).context.delivered, cs);
  }

  lemma DeliveredOfPipeline(app: App, mark: nat, es: seq<IoEvent>, cs: seq<ClientRequest>)
    requires LegalRun(app, NewSession(mark), es) && AllPlain(cs) && Flatten(Chunks(es)) == Pipeline(cs)
    ensures var c := Run(app, NewSession(mark), es).context; c.delivered <= AllMeant(cs) && !c.rejected
  {
    NewSessionInv(app, mark);
    RunKeeps(app, NewSession(mark), es);
    DeliveredIsPrefix(Chunks(es));
    PipelineRead(cs);
    ReadIsReadMessages(Pipeline(cs));
    hide Run, LegalRun, Read, ReadMessages, ReceiveAll, Pipeline, AllMeant, SessionInv;
  }

  lemma AskedAmong(delivered: seq<Request>, cs: seq<ClientRequest>)
    requires delivered <= AllMeant(cs)
    ensures (exists q :: q in delivered && AsksToClose(q)) <==> exists i :: 0 <= i < |delivered| && ClientCloses(cs[i])
  {
    forall i | 0 <= i < |delivered| ensures delivered[i] == Meant(cs[i]) {
      MeantAt(cs, i);
      assert delivered[i] == AllMeant(cs)[i];
    }
    hide Meant, AllMeant, AsksToClose;
    if i :| 0 <= i < |delivered| && ClientCloses(cs[i]) {
      assert delivered[i] in delivered && AsksToClose(delivered[i]);
    }
  }

  /** An HTTP/1.1 pipeline without Connection fields stays up. */
  lemma Http11StaysUp(app: App, mark: nat, es: seq<IoEvent>, cs: seq<ClientRequest>)
    requires LegalRun(app, NewSession(mark), es) && KeepsPreset(app)
    requires AllPlain(cs) && Flatten(Chunks(es)) == Pipeline(cs)
    requires forall c :: c in cs ==> c.v == Http11
    requires forall c, f :: c in cs && f in c.fields ==> f.name != "Connection"
    ensures Run(app, NewSession(mark), es).link.state == Connected
  {
    PipelinePersists(app, mark, es, cs);
    forall i | 0 <= i < |cs| ensures !ClientCloses(cs[i]) {
      assert cs[i] in cs;
      DefaultPersistence(cs[i]);
    }
    hide Run, LegalRun, Pipeline, ClientCloses, KeepsPreset;
  }

  /** A client pipelines requests; the server gets them in any fragments, and writes in any
      pieces. Once it has no line left to read and nothing left to write, the client, cutting
      the answer by Content-Length, finds the body of each response, in order, and nothing else. */
  lemma PipelinedExchange(app: App, mark: nat, es: seq<IoEvent>, cs: seq<ClientRequest>)
    requires LegalRun(app, NewSession(mark), es) && AllPlain(cs)
    ensures var s, qs := Run(app, NewSession(mark), es), AllMeant(cs);
            && Flatten(Chunks(es)) == Pipeline(cs) && Answerable(app, qs)
            && Lines(s.context.pending) == [] && s.link.out == []
            ==> DecodeAll(s.link.accepted) == Some(Bodies(Answers(app, qs)))
  {
    EndToEnd(app, mark, es);
    PipelineRead(cs);
    ReadIsReadMessages(Pipeline(cs));
    NothingMore(Run(app, NewSession(mark), es).link.accepted);
    hide Run, LegalRun, Read, ReadMessages, Serve, DecodeAll, Pipeline, AllMeant, Answers, Framable, Small, Answerable;
    if Answerable(app, AllMeant(cs)) {
      ServeIsPrintAll(app, AllMeant(cs));
      AnswersAreFramable(app, AllMeant(cs));
      SelfDelimiting(Answers(app, AllMeant(cs)));
    }
  }
}
