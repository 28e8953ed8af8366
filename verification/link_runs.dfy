/** Runs of one connection, from the loop thread and from others: what every run keeps, exactly
    when its bytes are in order and its half-closes drained, and when it is silent. */
module LinkRuns {
  import opened Bytes
  import opened Pollers
  import opened LinkProtocol
  import opened LinkOrder

  /** A call on the loop thread, a call from another thread, the loop running its oldest
      functor, or one dispatch of an active descriptor. */
  datatype Event =
    | OnLoop(act: Act)
    | OffLoop(task: Task)
    | RunOldest(w: WriteResult, calls: Calls)
    | Dispatch(revents: Mask, read: ReadOutcome, dw: WriteResult, ddone: seq<Act>)

  predicate Legal(l: Link, e: Event) {
    match e
    case OnLoop(_) => true
    case OffLoop(_) => true
    case RunOldest(_, _) => l.queue != []
    case Dispatch(revents, read, _, _) => Reported(l, revents) && ({HUP, PRI} <= revents ==> IN in revents)
  }

  lemma PoppedKeeps(l: Link)
    requires Sound(l) && l.queue != []
    ensures var m := Popped(l); Sound(m) && Forward(l, m) && Wire(m) == Wire(l)
    ensures l.queue[0].SendTask? || l.state != Connected
  {
    ForwardRefl(l);
  }

  /** The connection as the POLLOUT branch of a dispatch finds it. */
  ghost function BeforeOut(l: Link, e: Event): (m: Link)
    requires Sound(l) && Legal(l, e) && e.Dispatch?
    ensures DispatchSafe(l, e.revents, e.read) && Sound(m) && Forward(l, m)
  {
    DispatchAssertion(l, e.revents, e.read);
    BeforeWriteKeeps(l, e.revents, e.read);
    BeforeWrite(l, e.revents, e.read)
  }

  /** Every step keeps the connection sound, loses no byte and only moves forward. */
  ghost function Step(l: Link, e: Event): (m: Link)
    requires Sound(l) && Legal(l, e)
    ensures Sound(m) && Forward(l, m)
  {
    match e
    case OnLoop(act) =>
      DoActKeeps(l, act);
      DoAct(l, act)
    case OffLoop(task) =>
      CallOffLoopKeeps(l, task);
      CallOffLoop(l, task)
    case RunOldest(w, calls) =>
      PoppedKeeps(l);
      RunTaskKeeps(Popped(l), l.queue[0], w, calls);
      ForwardTrans(l, Popped(l), RunTask(Popped(l), l.queue[0], w, calls));
      RunTask(Popped(l), l.queue[0], w, calls)
    case Dispatch(revents, read, w, done) =>
      DispatchAssertion(l, revents, read);
      HandleEventKeeps(l, revents, read, w, done);
      HandleEvent(l, revents, read, w, done)
  }

  /** `forceClose` never closes: its second half finds the state already changed. */
  lemma ForceCloseNeverCloses(l: Link, w: WriteResult, calls: Calls)
    requires Sound(l) && l.queue != [] && l.queue[0] == ForceCloseTask
    ensures Step(l, RunOldest(w, calls)) == Popped(l)
  {
  }

  ghost predicate LegalRun(l: Link, es: seq<Event>)
    requires Sound(l)
    decreases |es|
  {
    es == [] || (Legal(l, es[0]) && LegalRun(Step(l, es[0]), es[1..]))
  }

  ghost function Run(l: Link, es: seq<Event>): Link
    requires Sound(l) && LegalRun(l, es)
    decreases |es|
  {
    if es == [] then l else Run(Step(l, es[0]), es[1..])
  }

  /** `forceClose`, on the loop thread or from another, leaves the connection open once its queued
      half has run: no longer up, but neither closed nor half-closed. */
  lemma ForceCloseStaysOpen(l: Link, offLoop: bool, w: WriteResult, calls: Calls)
    requires Sound(l) && l.state == Connected && l.queue == []
    ensures var es := [if offLoop then OffLoop(ForceCloseTask) else OnLoop(ActForceClose), RunOldest(w, calls)];
            LegalRun(l, es) && Run(l, es) == l.(state := Disconnecting)
  {
    var a, b := if offLoop then OffLoop(ForceCloseTask) else OnLoop(ActForceClose), RunOldest(w, calls);
    var m := Step(l, a);
    assert m == l.(state := Disconnecting, queue := [ForceCloseTask]);
    ForceCloseNeverCloses(m, w, calls);
    hide Step, Sound, Forward;
    RunOneEvent(m, b);
    assert [a, b][1..] == [b] && [ForceCloseTask][1..] == [];
    assert Run(l, [a, b]) == Run(m, [b]);
  }

  ghost function Initial(mark: nat): (l: Link)
    ensures Sound(l) && Wire(l) == [] && l.submitted == [] && l.fins == []
  {
    PreparedSound(mark);
    Prepared(mark)
  }

  lemma {:induction false} RunKeeps(l: Link, es: seq<Event>)
    requires Sound(l) && LegalRun(l, es)
    ensures Sound(Run(l, es)) && Forward(l, Run(l, es))
    decreases |es|
  {
    if es == [] {
      ForwardRefl(l);
    } else {
      hide Step, Legal, Sound, Forward;
      var m := Step(l, es[0]);
      RunKeeps(m, es[1..]);
      ForwardTrans(l, m, Run(l, es));
    }
  }

  /** In every run, whatever the callbacks do: what was accepted and what waits are the submitted
      bytes, none lost, none twice; the connection watches for writability exactly while it has a
      backlog; the three registration views agree; it is closed at most once. */
  lemma ConnectionSafety(mark: nat, es: seq<Event>)
    requires LegalRun(Initial(mark), es)
    ensures var l := Run(Initial(mark), es);
            && multiset(l.accepted + l.out) == multiset(l.submitted)
            && (l.state != Disconnected ==> (Writing(l) <==> l.out != []))
            && Coherent(l.reg) && (l.state != Disconnected ==> l.reg.kernel == Some(l.reg.events))
            && MayUpdateInPoll(l.reg.(events := {}), DelEvent)
            && l.closes <= 1 && (l.closes == 1 <==> l.state == Disconnected)
  {
    RunKeeps(Initial(mark), es);
    WritingIsBacklog(Run(Initial(mark), es));
    AllThere(Initial(mark), Run(Initial(mark), es));
    hide Run, LegalRun;
  }

  lemma AllThere(l: Link, m: Link)
    requires Forward(l, m) && Wire(l) == [] && l.submitted == []
    ensures multiset(m.accepted + m.out) == multiset(m.submitted)
  {
    assert multiset(Wire(m)) + multiset{} == multiset(Wire(m));
    assert multiset{} + multiset(m.submitted) == multiset(m.submitted);
    assert multiset(Wire(l)) == multiset{} && multiset(l.submitted) == multiset{};
  }

  // ----- Order and drain -----

  /** Whether every high-water callback made in this step commutes with the rest it precedes. */
  ghost predicate OrderlyStep(l: Link, e: Event)
    requires Sound(l) && Legal(l, e)
  {
    match e
    case OnLoop(act) => OrderlyAct(l, act)
    case OffLoop(_) => true
    case RunOldest(w, calls) => l.queue[0].SendTask? ==> OrderlySend(Popped(l), l.queue[0].message, w, calls)
    case Dispatch(revents, read, w, done) =>
      var l1 := BeforeOut(l, e);
      && (Reads(revents) && read.Data? ==> OrderlyActs(BeforeRead(l, revents), read.acts))
      && (OUT in revents && Drains(l1, w) ==> OrderlyActs(Emptied(l1), done))
  }

  /** Whether one of them shuts the connection down with nothing queued. */
  ghost predicate CutsOffStep(l: Link, e: Event)
    requires Sound(l) && Legal(l, e)
  {
    match e
    case OnLoop(act) => CutsOffNow(l, act)
    case OffLoop(_) => false
    case RunOldest(w, calls) => l.queue[0].SendTask? && SendCutsOff(Popped(l), l.queue[0].message, w, calls)
    case Dispatch(revents, read, w, done) =>
      var l1 := BeforeOut(l, e);
      || (Reads(revents) && read.Data? && CutsOff(BeforeRead(l, revents), read.acts))
      || (OUT in revents && Drains(l1, w) && CutsOff(Emptied(l1), done))
  }

  ghost predicate OrderlyRun(l: Link, es: seq<Event>)
    requires Sound(l) && LegalRun(l, es)
    decreases |es|
  {
    es == [] || (OrderlyStep(l, es[0]) && OrderlyRun(Step(l, es[0]), es[1..]))
  }

  ghost predicate CutsOffRun(l: Link, es: seq<Event>)
    requires Sound(l) && LegalRun(l, es)
    decreases |es|
  {
    es != [] && (CutsOffStep(l, es[0]) || CutsOffRun(Step(l, es[0]), es[1..]))
  }

  lemma SameBytes(l: Link, m: Link)
    requires Wire(m) == Wire(l) && m.submitted == l.submitted
    ensures Wired(l, m) == [] == Sent(l, m)
  {
  }

  /** What a write that empties the backlog hands over comes from its callback. */
  lemma WriteOrder(l: Link, w: WriteResult, done: seq<Act>)
    requires Sound(l)
    ensures var m := HandleWrite(l, w, done);
            Wired(l, m) == Sent(l, m) <==> (Drains(l, w) ==> OrderlyActs(Emptied(l), done))
  {
    if Drains(l, w) {
      EmptiedKeeps(l);
      var e := Emptied(l);
      ActsOrder(e, done);
      var a, m := DoActs(e, done), HandleWrite(l, w, done);
      assert m == AfterDrain(e, done);
      assert Wire(m) == Wire(a) && m.submitted == a.submitted;
      hide Emptied, DoActs, OrderlyActs, AfterDrain, Sound, Wire;
    } else {
      WritingIsBacklog(l);
      if Writing(l) {
        PartialWriteKeeps(l, Taken(w, |l.out|));
      }
      SameBytes(l, l);
      hide Wired, Sent, Sound, AfterDrain;
      assert l.out == [] ==> HandleWrite(l, w, done) == l;
    }
  }

  lemma ReadOrder(l: Link, e: Event)
    requires Sound(l) && Legal(l, e) && e.Dispatch?
    ensures var m := BeforeOut(l, e);
            Wired(l, m) == Sent(l, m)
            <==> (Reads(e.revents) && e.read.Data? ==> OrderlyActs(BeforeRead(l, e.revents), e.read.acts))
  {
    var l0 := BeforeOut(l, e);
    BeforeReadKeeps(l, e.revents);
    var l1 := BeforeRead(l, e.revents);
    assert Wire(l1) == Wire(l) && l1.submitted == l.submitted;
    SameBytes(l, l1);
    if Reads(e.revents) && e.read.Data? {
      ActsOrder(l1, e.read.acts);
    } else if Reads(e.revents) && e.read == Eof {
      HandleCloseKeeps(l1);
      assert Wire(l0) == Wire(l1) && l0.submitted == l1.submitted;
    }
    hide Sound, Forward, DoActs, HandleClose, BeforeRead, OrderlyActs, Wire, Reads, ClosesOnHup, Reported;
  }

  lemma TaskOrder(l: Link, w: WriteResult, calls: Calls)
    requires Sound(l) && l.queue != []
    ensures var e := RunOldest(w, calls);
            OrderlyStep(l, e) <==> Wired(l, Step(l, e)) == Sent(l, Step(l, e))
  {
    var p := Popped(l);
    PoppedKeeps(l);
    if l.queue[0].SendTask? {
      var message := l.queue[0].message;
      SendOrder(p, message, w, calls);
      assert Wired(l, SendInLoop(p, message, w, calls)) == Wired(p, SendInLoop(p, message, w, calls));
    } else {
      SameBytes(l, Step(l, RunOldest(w, calls)));
    }
    hide Sound, Forward, SendInLoop, OrderlySend, Wired, Wire;
  }

  lemma DispatchOrder(l: Link, e: Event)
    requires Sound(l) && Legal(l, e) && e.Dispatch?
    ensures OrderlyStep(l, e) <==> Wired(l, Step(l, e)) == Sent(l, Step(l, e))
  {
    var l1 := BeforeOut(l, e);
    ReadOrder(l, e);
    SameBytes(l1, l1);
    ForwardRefl(l1);
    WriteOrder(l1, e.dw, e.ddone);
    HandleWriteKeeps(l1, e.dw, e.ddone);
    var m := Step(l, e);
    assert m == if OUT in e.revents then HandleWrite(l1, e.dw, e.ddone) else l1;
    hide Sound, Forward, HandleWrite, BeforeWrite, OrderlyActs, Wired, Sent, BeforeOut, Step, Reads, Drains;
    hide Legal, BeforeRead, Emptied;
    OrderOfTwo(l, l1, m);
  }

  lemma StepOrder(l: Link, e: Event)
    requires Sound(l) && Legal(l, e)
    ensures OrderlyStep(l, e) <==> Wired(l, Step(l, e)) == Sent(l, Step(l, e))
  {
    match e
    case OnLoop(act) =>
      ActOrder(l, act);
      hide Sound, Forward, DoAct, OrderlyAct, Wired, Sent;
    case OffLoop(task) => SameBytes(l, Step(l, e));
    case RunOldest(w, calls) => TaskOrder(l, w, calls);
    case Dispatch(_, _, _, _) => DispatchOrder(l, e);
  }

  lemma {:induction false} RunOrder(l: Link, es: seq<Event>)
    requires Sound(l) && LegalRun(l, es)
    ensures OrderlyRun(l, es) <==> Wired(l, Run(l, es)) == Sent(l, Run(l, es))
    decreases |es|
  {
    if es == [] {
      SameBytes(l, l);
    } else {
      var m := Step(l, es[0]);
      StepOrder(l, es[0]);
      RunOrder(m, es[1..]);
      RunKeeps(m, es[1..]);
      hide Step, Legal, Sound, Forward, Wired, Sent, OrderlyStep;
      OrderOfTwo(l, m, Run(l, es));
    }
  }

  /** In every run the peer gets the submitted bytes in the order of the sends exactly if every
      high-water callback commutes with the rest of the message it comes before. */
  lemma OrderIff(mark: nat, es: seq<Event>)
    requires LegalRun(Initial(mark), es)
    ensures var l := Run(Initial(mark), es);
            l.accepted + l.out == l.submitted <==> OrderlyRun(Initial(mark), es)
  {
    var l := Initial(mark);
    RunOrder(l, es);
    RunKeeps(l, es);
    InOrderAfter(l, Run(l, es));
    hide Run, LegalRun, OrderlyRun, Wired, Sent;
  }

  /** Before disconnection, every half-close finds as many bytes accepted as were submitted. */
  predicate AllAccepted(fins: seq<Fin>) {
    forall i :: 0 <= i < |fins| ==> fins[i].state != Disconnected ==> Gap(fins[i]) == 0
  }

  /** What a half-close logged is a part of what is accepted and submitted since. */
  predicate Logged(l: Link) {
    forall i :: 0 <= i < |l.fins| ==> l.fins[i].accepted <= l.accepted && l.fins[i].submitted <= l.submitted
  }

  /** The log of half-closes after some step that perhaps cut a message off. */
  ghost predicate LogKept(l: Link, m: Link, cutOff: bool) {
    (Logged(l) ==> Logged(m)) && (AllAccepted(m.fins) <==> AllAccepted(l.fins) && !cutOff)
  }

  lemma LogKeptSame(l: Link, m: Link)
    requires Forward(l, m) && m.fins == l.fins
    ensures LogKept(l, m, false)
  {
    hide Wire;
  }

  lemma LogKeptTrans(l: Link, m: Link, n: Link, a: bool, b: bool)
    requires LogKept(l, m, a) && LogKept(m, n, b)
    ensures LogKept(l, n, a || b)
  {
  }

  lemma AddedLog(l: Link, m: Link, shutsDown: bool, cutOff: bool)
    requires Sound(l) && Forward(l, m) && Missing(l) == 0 && FinsAdded(l, m, shutsDown, cutOff)
    ensures LogKept(l, m, cutOff)
  {
    if shutsDown {
      assert l.fins == [];
      assert m.out == [] ==> |Wire(m)| == |m.accepted|;
      hide Wire;
      assert Missing(m) == 0;
      assert cutOff ==> Gap(m.fins[0]) > 0;
    } else {
      LogKeptSame(l, m);
    }
  }

  /** A half-close outside of any callback: nothing is queued, so everything was accepted. */
  lemma ShutdownLog(l: Link)
    requires Sound(l) && l.state != Connected && Missing(l) == 0
    ensures LogKept(l, ShutdownInLoop(l), false)
  {
    WritingIsBacklog(l);
    if !Writing(l) {
      var m, f := ShutdownInLoop(l), Fin(l.accepted, l.submitted, l.state);
      assert l.state == Disconnecting ==> Wire(l) == l.accepted + [] && Gap(f) == 0;
      assert m.fins[|l.fins|] == f;
      assert forall i :: 0 <= i < |l.fins| ==> m.fins[i] == l.fins[i];
    }
  }

  lemma ActsLog(l: Link, acts: seq<Act>)
    requires Sound(l) && Missing(l) == 0
    ensures LogKept(l, DoActs(l, acts), CutsOff(l, acts)) && Missing(DoActs(l, acts)) == 0
  {
    DoActsKeeps(l, acts);
    ActsHalfClose(l, acts);
    hide Sound, DoActs, CutsOff, ShutsDown, Wire;
    AddedLog(l, DoActs(l, acts), ShutsDown(l, acts), CutsOff(l, acts));
  }

  lemma WriteLog(l: Link, w: WriteResult, done: seq<Act>)
    requires Sound(l) && Missing(l) == 0
    ensures LogKept(l, HandleWrite(l, w, done), Drains(l, w) && CutsOff(Emptied(l), done))
  {
    if Drains(l, w) {
      EmptiedKeeps(l);
      var e := Emptied(l);
      assert e.fins == l.fins && Missing(e) == 0;
      var a := DoActs(e, done);
      DoActsKeeps(e, done);
      ActsLog(e, done);
      LogKeptSame(l, e);
      LogKeptSame(a, a) by {
        ForwardRefl(a);
      }
      if a.state == Disconnecting {
        ShutdownLog(a);
      }
      var m := HandleWrite(l, w, done);
      assert m == if a.state == Disconnecting then ShutdownInLoop(a) else a;
      hide Emptied, DoActs, CutsOff, Sound, Forward, Missing, LogKept, ShutdownInLoop, HandleWrite, Drains;
      LogKeptTrans(l, e, a, false, CutsOff(e, done));
      LogKeptTrans(l, a, m, CutsOff(e, done), false);
    } else {
      HandleWriteKeeps(l, w, done);
      WritingIsBacklog(l);
      var m := HandleWrite(l, w, done);
      assert m.fins == l.fins;
      hide HandleWrite, Sound, Forward;
      LogKeptSame(l, m);
    }
  }

  lemma ReadLog(l: Link, e: Event)
    requires Sound(l) && Legal(l, e) && e.Dispatch? && Missing(l) == 0
    ensures LogKept(l, BeforeOut(l, e),
                    Reads(e.revents) && e.read.Data? && CutsOff(BeforeRead(l, e.revents), e.read.acts))
    ensures Missing(BeforeOut(l, e)) == 0
  {
    var m := BeforeOut(l, e);
    BeforeReadKeeps(l, e.revents);
    var l1 := BeforeRead(l, e.revents);
    assert Missing(l1) == 0;
    if Reads(e.revents) && e.read.Data? {
      ActsLog(l1, e.read.acts);
      LogKeptSame(l, l1);
      assert m == DoActs(l1, e.read.acts);
      hide Sound, Forward, DoActs, BeforeRead, BeforeOut, CutsOff, LogKept, Missing;
      LogKeptTrans(l, l1, m, false, CutsOff(l1, e.read.acts));
    } else {
      if Reads(e.revents) && e.read == Eof {
        HandleCloseKeeps(l1);
      }
      assert m.fins == l.fins;
      hide Sound, Forward, HandleClose, BeforeRead, BeforeOut, CutsOff, LogKept;
      LogKeptSame(l, m);
    }
  }

  lemma TaskLog(l: Link, w: WriteResult, calls: Calls)
    requires Sound(l) && l.queue != [] && Missing(l) == 0
    ensures var e := RunOldest(w, calls); LogKept(l, Step(l, e), CutsOffStep(l, e))
  {
    var p, task := Popped(l), l.queue[0];
    PoppedKeeps(l);
    RunTaskKeeps(p, task, w, calls);
    assert Missing(p) == 0;
    LogKeptSame(l, p);
    match task {
      case SendTask(message) =>
        SendHalfCloses(p, message, w, calls);
        AddedLog(p, SendInLoop(p, message, w, calls), SendShutsDown(p, message, w, calls),
                 SendCutsOff(p, message, w, calls));
      case ShutdownTask => ShutdownLog(p);
      case ForceCloseTask =>
    }
    hide Sound, Forward, SendInLoop, SendShutsDown, SendCutsOff, ShutdownInLoop, Wire;
  }

  lemma StepLog(l: Link, e: Event)
    requires Sound(l) && Legal(l, e) && Missing(l) == 0
    ensures LogKept(l, Step(l, e), CutsOffStep(l, e)) && Missing(Step(l, e)) == 0
  {
    match e
    case OnLoop(act) =>
      ActHalfCloses(l, act);
      AddedLog(l, Step(l, e), ShutsDownNow(l, act), CutsOffNow(l, act));
    case OffLoop(task) => LogKeptSame(l, Step(l, e));
    case RunOldest(w, calls) => TaskLog(l, w, calls);
    case Dispatch(revents, read, w, done) =>
      var l1 := BeforeOut(l, e);
      ReadLog(l, e);
      WriteLog(l1, w, done);
      assert Step(l, e) == if OUT in revents then HandleWrite(l1, w, done) else l1;
      hide Sound, HandleWrite, BeforeWrite, CutsOff, BeforeOut, Step, Reads, Drains, BeforeRead, Wire;
      if OUT in revents {
        LogKeptTrans(l, l1, Step(l, e), Reads(revents) && read.Data? && CutsOff(BeforeRead(l, revents), read.acts),
                     Drains(l1, w) && CutsOff(Emptied(l1), done));
      }
  }

  lemma {:induction false} RunLog(l: Link, es: seq<Event>)
    requires Sound(l) && LegalRun(l, es) && Missing(l) == 0
    ensures LogKept(l, Run(l, es), CutsOffRun(l, es))
    decreases |es|
  {
    if es == [] {
      ForwardRefl(l);
      LogKeptSame(l, l);
    } else {
      var m := Step(l, es[0]);
      StepLog(l, es[0]);
      RunLog(m, es[1..]);
      hide Step, Legal, Sound, Forward, CutsOffStep, LogKept, Missing;
      LogKeptTrans(l, m, Run(l, es), CutsOffStep(l, es[0]), CutsOffRun(m, es[1..]));
    }
  }

  /** In every run: whenever the connection half-closes before it is disconnected, the kernel has
      accepted as many bytes as were submitted, exactly if no high-water callback shuts the
      connection down with nothing queued. In an orderly run they are the submitted bytes. */
  lemma DrainBeforeHalfClose(mark: nat, es: seq<Event>)
    requires LegalRun(Initial(mark), es)
    ensures var l := Run(Initial(mark), es);
            && (AllAccepted(l.fins) <==> !CutsOffRun(Initial(mark), es))
            && (OrderlyRun(Initial(mark), es) ==> (Drained(l.fins) <==> AllAccepted(l.fins)))
  {
    var l := Initial(mark);
    RunLog(l, es);
    OrderIff(mark, es);
    if OrderlyRun(l, es) {
      DrainedInOrder(Run(l, es));
    }
    hide Run, LegalRun, CutsOffRun, OrderlyRun, Drained;
  }

  lemma DrainedInOrder(l: Link)
    requires Wire(l) == l.submitted && Logged(l)
    ensures Drained(l.fins) <==> AllAccepted(l.fins)
  {
    forall i | 0 <= i < |l.fins|
      ensures Gap(l.fins[i]) == 0 ==> l.fins[i].accepted == l.fins[i].submitted
    {
      assert l.fins[i].accepted <= l.accepted <= l.submitted;
    }
  }

  /** Both promises hold at the end of a run exactly if every high-water callback on the way
      commutes with the rest it comes before, and none cuts it off. */
  lemma PromisesIff(mark: nat, es: seq<Event>)
    requires LegalRun(Initial(mark), es)
    ensures Inv(Run(Initial(mark), es)) <==> OrderlyRun(Initial(mark), es) && !CutsOffRun(Initial(mark), es)
  {
    RunKeeps(Initial(mark), es);
    OrderIff(mark, es);
    DrainBeforeHalfClose(mark, es);
    hide Run, LegalRun, CutsOffRun, OrderlyRun, Drained, AllAccepted, Sound;
  }

  /** High-water callbacks that neither send nor shut down, in all callbacks of an event. */
  predicate ConsiderateEvent(e: Event) {
    match e
    case OnLoop(act) => ConsiderateAct(act)
    case OffLoop(_) => true
    case RunOldest(_, calls) => AllForceClose(calls.high) && Considerate(calls.done)
    case Dispatch(_, read, _, done) => (read.Data? ==> Considerate(read.acts)) && Considerate(done)
  }

  /** An owner whose high-water callbacks neither send nor shut down gets both promises in every
      run, whatever the other callbacks, other threads and the kernel do. */
  lemma {:induction false} ConsiderateRun(l: Link, es: seq<Event>)
    requires Sound(l) && LegalRun(l, es) && forall i :: 0 <= i < |es| ==> ConsiderateEvent(es[i])
    ensures OrderlyRun(l, es) && !CutsOffRun(l, es)
    decreases |es|
  {
    if es != [] {
      ConsiderateStep(l, es[0]);
      hide Step, Legal, Sound, Forward, CutsOffStep, OrderlyStep, ConsiderateEvent;
      ConsiderateRun(Step(l, es[0]), es[1..]);
    }
  }

  lemma ConsiderateStep(l: Link, e: Event)
    requires Sound(l) && Legal(l, e) && ConsiderateEvent(e)
    ensures OrderlyStep(l, e) && !CutsOffStep(l, e)
  {
    match e
    case OnLoop(act) =>
      if act.ActSend? {
        ConsiderateSend(l, act.message, act.w, act.calls);
      }
    case OffLoop(task) =>
    case RunOldest(w, calls) =>
      if l.queue[0].SendTask? {
        ConsiderateSend(Popped(l), l.queue[0].message, w, calls);
      }
      hide OrderlySend, SendCutsOff;
    case Dispatch(revents, read, w, done) =>
      var l1 := BeforeOut(l, e);
      ConsiderateKeeps(Emptied(l1), done);
      if read.Data? {
        ConsiderateKeeps(BeforeRead(l, revents), read.acts);
      }
      hide OrderlyActs, CutsOff, BeforeOut, Emptied, BeforeRead, Sound, Drains, Considerate;
  }

  // ----- After the half-close -----

  /** No functor is left that could write. */
  predicate NoSendQueued(queue: seq<Task>) {
    forall i :: 0 <= i < |queue| ==> queue[i].SendTask? ==> queue[i].message == []
  }

  /** Nothing more can be written: new sends are refused, and none is queued, nor any byte. */
  predicate Quiet(l: Link) {
    l.state == Disconnected || (l.state == Disconnecting && l.out == [] && NoSendQueued(l.queue))
  }

  lemma EmptyGiven(l: Link, w: WriteResult)
    ensures Given(l, [], w) == l && Rest(l, [], w) == [] && HighWater(l, [], w).None?
  {
    var empty: bytes := [];
    assert empty[..TakenNow(l, empty, w)] == empty;
    NothingMore(l.accepted);
    NothingMore(l.submitted);
  }

  /** An empty message writes nothing, and neither does the callback it causes. */
  lemma EmptyMessage(l: Link, w: WriteResult, calls: Calls)
    requires l.state == Disconnecting
    ensures SendInLoop(l, [], w, calls) == l
  {
    EmptyGiven(l, w);
    SendCases(l, [], w, calls);
    assert Called(l, [], w, calls.high) == l by {
      hide DoActs, Given, HighWater;
    }
    EnqueueNothing(l);
    ActsRefused(l, calls.done);
    hide SendInLoop, Called, DoActs, Enqueue, Given, Rest, HighWater, Completes, Dropped;
  }

  lemma QuietTask(l: Link, w: WriteResult, calls: Calls)
    requires Sound(l) && l.queue != [] && Quiet(l)
    ensures var m := Step(l, RunOldest(w, calls)); Quiet(m) && m.accepted == l.accepted
  {
    var p, task := Popped(l), l.queue[0];
    PoppedKeeps(l);
    assert Quiet(p);
    if task.SendTask? {
      QuietSend(p, task, w, calls);
    }
    hide SendInLoop, Sound, Forward;
  }

  lemma QuietSend(l: Link, task: Task, w: WriteResult, calls: Calls)
    requires Sound(l) && Quiet(l) && task.SendTask? && (l.state == Disconnecting ==> task.message == [])
    ensures SendInLoop(l, task.message, w, calls) == l
  {
    if l.state == Disconnecting {
      EmptyMessage(l, w, calls);
    } else {
      hide DoActs, HandleWrite, Given, Enqueue;
      NothingAfterClose(l, task.message, w, calls);
    }
  }

  lemma QuietDispatch(l: Link, e: Event)
    requires Sound(l) && Legal(l, e) && e.Dispatch? && Quiet(l)
    ensures Quiet(Step(l, e)) && Step(l, e).accepted == l.accepted
  {
    BeforeReadKeeps(l, e.revents);
    var l0, l1 := BeforeRead(l, e.revents), BeforeOut(l, e);
    assert l0.queue == l.queue && Quiet(l0);
    assert Quiet(l1) && l1.accepted == l.accepted by {
      if e.read.Data? {
        ActsRefused(l0, e.read.acts);
      }
      hide DoActs, Sound, Forward, BeforeRead, Reads, ClosesOnHup;
    }
    WritingIsBacklog(l1);
    hide Sound, Forward, AfterDrain, BeforeOut, BeforeWrite, BeforeRead;
  }

  lemma QuietStep(l: Link, e: Event)
    requires Sound(l) && Legal(l, e) && Quiet(l)
    ensures Quiet(Step(l, e)) && Step(l, e).accepted == l.accepted
  {
    match e
    case OnLoop(act) => ActRefused(l, act);
    case OffLoop(task) =>
    case RunOldest(w, calls) => QuietTask(l, w, calls);
    case Dispatch(revents, read, w, done) => QuietDispatch(l, e);
  }

  lemma {:induction false} QuietForever(l: Link, es: seq<Event>)
    requires Sound(l) && LegalRun(l, es) && Quiet(l)
    ensures Quiet(Run(l, es)) && Run(l, es).accepted == l.accepted
    decreases |es|
  {
    if es != [] {
      QuietStep(l, es[0]);
      hide Step, Legal, Sound, Forward, Quiet;
      QuietForever(Step(l, es[0]), es[1..]);
    }
  }

  lemma RunOneEvent(l: Link, e: Event)
    requires Sound(l) && Legal(l, e)
    ensures LegalRun(l, [e]) && Run(l, [e]) == Step(l, e)
  {
    hide Step, Legal, Sound, Forward;
    assert [e][1..] == [];
    assert LegalRun(Step(l, e), []) && Run(Step(l, e), []) == Step(l, e);
  }

  lemma RunCons(l: Link, e: Event, es: seq<Event>)
    requires Sound(l) && Legal(l, e) && LegalRun(Step(l, e), es)
    ensures LegalRun(l, [e] + es) && Run(l, [e] + es) == Run(Step(l, e), es)
  {
    hide Step, Legal, Sound, Forward;
    assert ([e] + es)[1..] == es;
  }

  /** A backlog is written by the next POLLOUT, whichever calls were made before. */
  lemma BacklogWrites(l: Link) returns (e: Event)
    requires Sound(l) && l.state != Disconnected && l.out != []
    ensures LegalRun(l, [e]) && |Run(l, [e]).accepted| > |l.accepted|
  {
    e := Dispatch({OUT}, ReadError, Wrote(1), []);
    WritingIsBacklog(l);
    assert OUT in l.reg.events;
    assert {OUT} * {IN, PRI, RDHUP} == {};
    RunOneEvent(l, e);
    OneByteWritten(l);
  }

  lemma OneByteWritten(l: Link)
    requires Sound(l) && l.out != [] && Writing(l)
    ensures |HandleWrite(l, Wrote(1), []).accepted| == |l.accepted| + 1
  {
    NoActs(Emptied(l));
    hide DoActs;
  }

  /** A queued functor that writes can be reached, and writes. */
  lemma {:induction false} LateSend(l: Link) returns (es: seq<Event>)
    requires Sound(l) && l.state == Disconnecting && l.out == [] && !NoSendQueued(l.queue)
    ensures LegalRun(l, es) && |Run(l, es).accepted| > |l.accepted|
    decreases |l.queue|
  {
    var task := l.queue[0];
    if task.SendTask? && task.message != [] {
      var e := RunOldest(Wrote(|task.message|), NO_CALLS);
      es := [e];
      RunOneEvent(l, e);
      PoppedKeeps(l);
      WholeWrite(Popped(l), task.message);
    } else {
      var e := RunOldest(WouldBlock, NO_CALLS);
      var m := Step(l, e);
      QuietTaskPops(l);
      var i :| 0 <= i < |l.queue| && l.queue[i].SendTask? && l.queue[i].message != [];
      assert m.queue[i - 1] == l.queue[i];
      var later := LateSend(m);
      es := [e] + later;
      assert es[1..] == later;
    }
  }

  lemma WholeWrite(l: Link, message: bytes)
    requires Sound(l) && l.state == Disconnecting && l.out == [] && message != []
    ensures |SendInLoop(l, message, Wrote(|message|), NO_CALLS).accepted| > |l.accepted|
  {
    WritingIsBacklog(l);
    NoActs(Given(l, message, Wrote(|message|)));
    hide DoActs;
  }

  lemma QuietTaskPops(l: Link)
    requires Sound(l) && l.state == Disconnecting && l.out == [] && l.queue != []
    requires l.queue[0].SendTask? ==> l.queue[0].message == []
    ensures var m := Step(l, RunOldest(WouldBlock, NO_CALLS));
            m.queue == l.queue[1..] && m.state == Disconnecting && m.out == [] && m.accepted == l.accepted
  {
    EmptyMessage(Popped(l), WouldBlock, NO_CALLS);
    hide SendInLoop, Sound, Forward;
  }

  /** Once it is no longer up, a connection is silent in every run exactly when it is
      disconnected, or has no backlog and no send from another thread still queued. */
  lemma SilentIff(l: Link)
    requires Sound(l) && l.state != Connected
    ensures (forall es :: LegalRun(l, es) ==> Run(l, es).accepted == l.accepted)
            <==> l.state == Disconnected || (l.out == [] && NoSendQueued(l.queue))
  {
    if Quiet(l) {
      forall es | LegalRun(l, es) ensures Run(l, es).accepted == l.accepted {
        QuietForever(l, es);
      }
    } else if l.out != [] {
      var e := BacklogWrites(l);
    } else {
      var es := LateSend(l);
    }
  }

  lemma RunThree(l: Link, a: Event, b: Event, c: Event)
    requires Sound(l) && Legal(l, a) && Legal(Step(l, a), b) && Legal(Step(Step(l, a), b), c)
    ensures LegalRun(l, [a, b, c]) && Run(l, [a, b, c]) == Step(Step(Step(l, a), b), c)
  {
    hide Step, Legal, Sound, Forward;
    assert [a, b, c][1..] == [b, c] && [b, c][1..] == [c];
    var l1 := Step(l, a);
    var l2 := Step(l1, b);
    RunOneEvent(l2, c);
    assert LegalRun(l1, [b, c]) && Run(l1, [b, c]) == Run(l2, [c]);
  }

  /** A send from another thread, then a shutdown on the loop thread: the functor is still queued
      when the connection half-closes. */
  lemma ShutdownOvertakes(mark: nat, message: bytes)
    ensures var a, b, l := OffLoop(SendTask(message)), OnLoop(ActShutdown), Initial(mark);
            && Legal(l, a) && Legal(Step(l, a), b)
            && var m := Step(Step(l, a), b);
            && m.queue == [SendTask(message)] && m.fins == [Fin([], [], Disconnecting)] && m.state == Disconnecting
            && m.out == [] && m.accepted == [] && m.submitted == []
  {
    WritingIsBacklog(Initial(mark));
  }

  /** The code then calls `write` once more. What a kernel takes of the message is written after
      the half-close; the rest is a backlog that goes on being written with nothing queued. */
  lemma SendAfterHalfClose(mark: nat, message: bytes, n: nat)
    requires 0 < n <= |message|
    ensures var es := [OffLoop(SendTask(message)), OnLoop(ActShutdown), RunOldest(Wrote(n), NO_CALLS)];
            && LegalRun(Initial(mark), es)
            && var l := Run(Initial(mark), es);
            && l.fins == [Fin([], [], Disconnecting)] && l.state == Disconnecting
            && l.accepted == message[..n] && l.out == message[n..] && l.queue == []
  {
    var l := Initial(mark);
    var a, b, c := OffLoop(SendTask(message)), OnLoop(ActShutdown), RunOldest(Wrote(n), NO_CALLS);
    ShutdownOvertakes(mark, message);
    var m := Step(Step(l, a), b);
    PoppedKeeps(m);
    LateWrite(Popped(m), message, n);
    assert m.queue[1..] == [];
    RunThree(l, a, b, c);
    hide SendInLoop, Run, LegalRun, Sound, Forward;
  }

  lemma LateWrite(l: Link, message: bytes, n: nat)
    requires 0 < n <= |message| && Sound(l) && l.state == Disconnecting && l.out == [] && l.accepted == []
    ensures var m := SendInLoop(l, message, Wrote(n), NO_CALLS);
            && m.accepted == message[..n] && m.out == message[n..] && m.fins == l.fins && m.state == l.state
            && m.queue == l.queue
  {
    WritingIsBacklog(l);
    var g := Given(l, message, Wrote(n));
    NoActs(g);
    assert Called(l, message, Wrote(n), []) == g;
    NothingMore(message[..n]);
    NothingMore(message[n..]);
    hide DoActs;
  }

  /** A kernel that follows POSIX answers that write with EPIPE: the message is lost. */
  lemma LostAfterHalfClose(mark: nat, message: bytes, calls: Calls)
    ensures var es := [OffLoop(SendTask(message)), OnLoop(ActShutdown), RunOldest(Fault, calls)];
            && LegalRun(Initial(mark), es)
            && var l := Run(Initial(mark), es);
            && l.fins == [Fin([], [], Disconnecting)] && l.state == Disconnecting
            && l.accepted == [] && l.out == [] && l.submitted == [] && l.queue == []
  {
    var l := Initial(mark);
    var a, b, c := OffLoop(SendTask(message)), OnLoop(ActShutdown), RunOldest(Fault, calls);
    ShutdownOvertakes(mark, message);
    var m := Step(Step(l, a), b);
    FaultLoses(m, calls);
    RunThree(l, a, b, c);
    hide Run, LegalRun, Sound, Forward, Step;
  }

  /** So it is with every message queued before a half-close: nothing is accepted or queued. */
  lemma FaultLoses(l: Link, calls: Calls)
    requires Sound(l) && l.queue != [] && l.queue[0].SendTask? && l.out == []
    ensures Step(l, RunOldest(Fault, calls)) == Popped(l)
  {
    WritingIsBacklog(l);
  }

  // ----- Sends from another thread -----

  function OffLoopSends(messages: seq<bytes>): seq<Event> {
    if messages == [] then [] else [OffLoop(SendTask(messages[0]))] + OffLoopSends(messages[1..])
  }

  /** The loop runs `n` functors; the kernel takes nothing yet. */
  function RunQueued(n: nat): seq<Event> {
    if n == 0 then [] else [RunOldest(WouldBlock, NO_CALLS)] + RunQueued(n - 1)
  }

  function Tasks(messages: seq<bytes>): seq<Task> {
    if messages == [] then [] else [SendTask(messages[0])] + Tasks(messages[1..])
  }

  function Concat(messages: seq<bytes>): bytes {
    if messages == [] then [] else messages[0] + Concat(messages[1..])
  }

  lemma {:induction false} RunAppend(l: Link, es: seq<Event>, fs: seq<Event>)
    requires Sound(l) && LegalRun(l, es) && Sound(Run(l, es)) && LegalRun(Run(l, es), fs)
    ensures LegalRun(l, es + fs) && Run(l, es + fs) == Run(Run(l, es), fs)
    decreases |es|
  {
    hide Step, Legal, Sound, Forward;
    if es == [] {
      assert es + fs == fs;
    } else {
      assert (es + fs)[1..] == es[1..] + fs && (es + fs)[0] == es[0];
      RunAppend(Step(l, es[0]), es[1..], fs);
    }
  }

  lemma {:induction false} SendsQueued(l: Link, messages: seq<bytes>)
    requires Sound(l) && l.state == Connected
    ensures LegalRun(l, OffLoopSends(messages))
    ensures Run(l, OffLoopSends(messages)) == l.(queue := l.queue + Tasks(messages))
    decreases |messages|
  {
    if messages == [] {
      assert l.queue + [] == l.queue;
    } else {
      var e, later := OffLoop(SendTask(messages[0])), OffLoopSends(messages[1..]);
      var m := Step(l, e);
      assert m == l.(queue := l.queue + [SendTask(messages[0])]);
      assert Legal(l, e) && OffLoopSends(messages) == [e] + later;
      assert Tasks(messages) == [SendTask(messages[0])] + Tasks(messages[1..]);
      hide Step, Sound, Forward, LegalRun, Run, Legal, OffLoopSends, Tasks;
      SendsQueued(m, messages[1..]);
      RunCons(l, e, later);
      assert l.queue + ([SendTask(messages[0])] + Tasks(messages[1..]))
          == l.queue + [SendTask(messages[0])] + Tasks(messages[1..]);
    }
  }

  lemma QueuedSendRuns(l: Link, message: bytes)
    requires Sound(l) && l.state == Connected
    ensures var m := SendInLoop(l, message, WouldBlock, NO_CALLS);
            && m.state == Connected && m.queue == l.queue && m.fins == l.fins
            && Wire(m) == Wire(l) + message && m.submitted == l.submitted + message
  {
    QueuedSend(l, message);
    var a := ActSend(message, WouldBlock, NO_CALLS);
    assert DoAct(l, a) == Send(l, message, WouldBlock, NO_CALLS) == SendInLoop(l, message, WouldBlock, NO_CALLS);
  }

  lemma OldestSendRuns(l: Link, message: bytes)
    requires Sound(l) && l.state == Connected && l.queue != [] && l.queue[0] == SendTask(message)
    ensures var m := Step(l, RunOldest(WouldBlock, NO_CALLS));
            && m.state == Connected && m.queue == l.queue[1..]
            && Wire(m) == Wire(l) + message && m.submitted == l.submitted + message
  {
    PoppedKeeps(l);
    QueuedSendRuns(Popped(l), message);
    hide SendInLoop, Sound, Forward, Wire;
  }

  lemma {:induction false} SendsRun(l: Link, messages: seq<bytes>)
    requires Sound(l) && l.state == Connected && l.queue == Tasks(messages)
    ensures LegalRun(l, RunQueued(|messages|))
    ensures var m := Run(l, RunQueued(|messages|));
            && Wire(m) == Wire(l) + Concat(messages) && m.submitted == l.submitted + Concat(messages)
            && m.state == Connected && m.queue == []
    decreases |messages|
  {
    if messages == [] {
      NothingMore(Wire(l));
      NothingMore(l.submitted);
    } else {
      var e := RunOldest(WouldBlock, NO_CALLS);
      OldestSendRuns(l, messages[0]);
      assert Legal(l, e);
      var m := Step(l, e);
      var rest := messages[1..];
      assert l.queue[1..] == Tasks(rest);
      assert RunQueued(|messages|) == [e] + RunQueued(|rest|) && Concat(messages) == messages[0] + Concat(rest);
      hide Step, Sound, Forward, Wire, LegalRun, Run, Legal, Tasks, RunQueued, Concat;
      SendsRun(m, rest);
      RunCons(l, e, RunQueued(|rest|));
      Assoc(Wire(l), messages[0], Concat(rest));
      Assoc(l.submitted, messages[0], Concat(rest));
    }
  }

  /** Sends from another thread go out in the order of the calls. */
  lemma OffLoopInOrder(l: Link, messages: seq<bytes>)
    requires Sound(l) && l.state == Connected && l.queue == []
    ensures var es := OffLoopSends(messages) + RunQueued(|messages|);
            LegalRun(l, es) && Wire(Run(l, es)) == Wire(l) + Concat(messages)
  {
    SendsQueued(l, messages);
    var m := Run(l, OffLoopSends(messages));
    assert [] + Tasks(messages) == Tasks(messages);
    RunKeeps(l, OffLoopSends(messages));
    SendsRun(m, messages);
    hide Run, LegalRun, Sound, Forward, Wire;
    RunAppend(l, OffLoopSends(messages), RunQueued(|messages|));
  }
}
