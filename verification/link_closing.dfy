/** How often a connection half-closes, and what it had written by then: for all runs, and for
    runs in which every call is made on the loop thread. */
module LinkClosing {
  import opened Bytes
  import opened Pollers
  import opened LinkProtocol
  import opened LinkOrder
  import opened LinkRuns

  // ----- What calls do to the queue -----

  /** The owner's calls on the loop thread queue nothing but the second half of a `forceClose`. */
  predicate QueueKept(l: Link, m: Link) {
    m.queue == l.queue || (m.queue == l.queue + [ForceCloseTask] && m.state != Connected)
  }

  lemma {:induction false} SendQueue(l: Link, message: bytes, w: WriteResult, calls: Calls)
    ensures QueueKept(l, SendInLoop(l, message, w, calls))
    decreases calls, 1
  {
    var g := Given(l, message, w);
    assert g.queue == l.queue && g.state == l.state;
    SameQueue(Called(l, message, w, calls.high), Rest(l, message, w));
    hide Given, DoActs, Enqueue, Dropped, Completes, Rest, HighWater;
    if Completes(l, message, w) {
      ActsQueue(g, calls.done);
    } else {
      ActsQueue(g, calls.high);
    }
  }

  lemma SameQueue(l: Link, rest: bytes)
    ensures Enqueue(l, rest).queue == l.queue && Enqueue(l, rest).state == l.state
  {
  }

  lemma {:induction false} ActQueue(l: Link, a: Act)
    ensures QueueKept(l, DoAct(l, a))
    decreases a, 3
  {
    if a.ActSend? {
      SendQueue(l, a.message, a.w, a.calls);
    }
    hide SendInLoop;
  }

  lemma {:induction false} ActsQueue(l: Link, acts: seq<Act>)
    ensures QueueKept(l, DoActs(l, acts))
    decreases acts, 0
  {
    if acts != [] {
      var m := DoAct(l, acts[0]);
      ActQueue(l, acts[0]);
      if m.state != Connected {
        ActsRefused(m, acts[1..]);
      } else {
        ActsQueue(m, acts[1..]);
      }
      hide DoAct;
    }
  }

  lemma WriteQueue(l: Link, w: WriteResult, done: seq<Act>)
    ensures QueueKept(l, HandleWrite(l, w, done))
  {
    ActsQueue(Emptied(l), done);
    hide DoActs;
  }

  lemma ReadQueue(l: Link, e: Event)
    requires Sound(l) && Legal(l, e) && e.Dispatch?
    ensures QueueKept(l, BeforeOut(l, e))
  {
    var l0 := BeforeRead(l, e.revents);
    assert l0.queue == l.queue;
    if e.read.Data? {
      ActsQueue(l0, e.read.acts);
      if l.state != Connected {
        assert l0.state != Connected;
        ActsRefused(l0, e.read.acts);
      }
    }
    hide DoActs, Sound, Forward, BeforeRead, Reads, Reported;
  }

  // ----- How often, in all runs -----

  /** Whether a shutdown takes effect in this step with nothing queued: a call on the loop
      thread, from whatever callback, or the queued half of a call from another thread. */
  ghost predicate ShutsDownStep(l: Link, e: Event)
    requires Sound(l) && Legal(l, e)
  {
    match e
    case OnLoop(act) => ShutsDownNow(l, act)
    case OffLoop(_) => false
    case RunOldest(w, calls) =>
      (match l.queue[0]
       case SendTask(message) => SendShutsDown(Popped(l), message, w, calls)
       case ShutdownTask => !Writing(l)
       case ForceCloseTask => false)
    case Dispatch(revents, read, w, done) =>
      var l1 := BeforeOut(l, e);
      || (Reads(revents) && read.Data? && ShutsDown(BeforeRead(l, revents), read.acts))
      || (OUT in revents && Drains(l1, w) && ShutsDown(Emptied(l1), done))
  }

  /** Whether a write empties the backlog of a connection that is no longer up once the callback
      is done, and then has nothing queued. */
  predicate Finishes(l: Link, w: WriteResult, done: seq<Act>) {
    Drains(l, w) && var a := DoActs(Emptied(l), done); a.state == Disconnecting && a.out == []
  }

  ghost predicate FinishesStep(l: Link, e: Event)
    requires Sound(l) && Legal(l, e)
  {
    e.Dispatch? && OUT in e.revents && Finishes(BeforeOut(l, e), e.dw, e.ddone)
  }

  function One(b: bool): nat {
    if b then 1 else 0
  }

  ghost function Shutdowns(l: Link, es: seq<Event>): nat
    requires Sound(l) && LegalRun(l, es)
    decreases |es|
  {
    if es == [] then 0 else One(ShutsDownStep(l, es[0])) + Shutdowns(Step(l, es[0]), es[1..])
  }

  ghost function Finished(l: Link, es: seq<Event>): nat
    requires Sound(l) && LegalRun(l, es)
    decreases |es|
  {
    if es == [] then 0 else One(FinishesStep(l, es[0])) + Finished(Step(l, es[0]), es[1..])
  }

  lemma AddedCount(l: Link, m: Link, shutsDown: bool, cutOff: bool)
    requires Sound(l) && FinsAdded(l, m, shutsDown, cutOff)
    ensures |m.fins| == |l.fins| + One(shutsDown)
    ensures shutsDown ==> l.state == Connected && m.state != Connected
  {
  }

  lemma WriteCount(l: Link, w: WriteResult, done: seq<Act>)
    requires Sound(l)
    ensures |HandleWrite(l, w, done).fins|
            == |l.fins| + One(Drains(l, w) && ShutsDown(Emptied(l), done)) + One(Finishes(l, w, done))
  {
    if Drains(l, w) {
      EmptiedKeeps(l);
      var e := Emptied(l);
      var a := DoActs(e, done);
      assert e.fins == l.fins;
      ActsHalfClose(e, done);
      AddedCount(e, a, ShutsDown(e, done), CutsOff(e, done));
      DoActsKeeps(e, done);
      WritingIsBacklog(a);
      hide Emptied, DoActs, ShutsDown, CutsOff, Sound, Forward, FinsAdded;
    } else {
      WritingIsBacklog(l);
    }
  }

  lemma ReadCount(l: Link, e: Event)
    requires Sound(l) && Legal(l, e) && e.Dispatch?
    ensures var shut := Reads(e.revents) && e.read.Data? && ShutsDown(BeforeRead(l, e.revents), e.read.acts);
            && |BeforeOut(l, e).fins| == |l.fins| + One(shut)
            && (shut ==> l.state == Connected && BeforeOut(l, e).state != Connected)
            && (l.state != Connected ==> BeforeOut(l, e).state != Connected && BeforeOut(l, e).out == l.out)
  {
    BeforeReadKeeps(l, e.revents);
    var l0 := BeforeRead(l, e.revents);
    if e.read.Data? {
      ActsHalfClose(l0, e.read.acts);
      AddedCount(l0, DoActs(l0, e.read.acts), ShutsDown(l0, e.read.acts), CutsOff(l0, e.read.acts));
      if l0.state != Connected {
        ActsRefused(l0, e.read.acts);
      }
    }
    assert l.state != Connected ==> l0.state != Connected;
    assert l0.state == Connected ==> l.state == Connected;
    hide DoActs, ShutsDown, CutsOff, Sound, Forward, FinsAdded, BeforeRead, Reads, Reported;
  }

  lemma StepCount(l: Link, e: Event)
    requires Sound(l) && Legal(l, e)
    ensures |Step(l, e).fins| == |l.fins| + One(ShutsDownStep(l, e)) + One(FinishesStep(l, e))
  {
    match e
    case OnLoop(act) =>
      ActHalfCloses(l, act);
      AddedCount(l, Step(l, e), ShutsDownNow(l, act), CutsOffNow(l, act));
      hide Sound, Forward, DoAct, ShutsDownNow, CutsOffNow, FinsAdded;
    case OffLoop(task) =>
      hide Sound, Forward;
    case RunOldest(w, calls) => TaskCount(l, w, calls);
    case Dispatch(_, _, _, _) => DispatchCount(l, e);
  }

  lemma TaskCount(l: Link, w: WriteResult, calls: Calls)
    requires Sound(l) && l.queue != []
    ensures var e := RunOldest(w, calls); |Step(l, e).fins| == |l.fins| + One(ShutsDownStep(l, e))
  {
    var p, task := Popped(l), l.queue[0];
    PoppedKeeps(l);
    var m := Step(l, RunOldest(w, calls));
    if task.SendTask? {
      SendHalfCloses(p, task.message, w, calls);
      AddedCount(p, m, SendShutsDown(p, task.message, w, calls), SendCutsOff(p, task.message, w, calls));
    }
    hide SendInLoop, SendShutsDown, SendCutsOff, Sound, Forward, FinsAdded;
  }

  lemma DispatchCount(l: Link, e: Event)
    requires Sound(l) && Legal(l, e) && e.Dispatch?
    ensures |Step(l, e).fins| == |l.fins| + One(ShutsDownStep(l, e)) + One(FinishesStep(l, e))
  {
    var l1 := BeforeOut(l, e);
    ReadCount(l, e);
    WriteCount(l1, e.dw, e.ddone);
    assert l1.state != Connected ==> !ShutsDown(Emptied(l1), e.ddone);
    assert Step(l, e) == if OUT in e.revents then HandleWrite(l1, e.dw, e.ddone) else l1;
    hide Sound, Forward, HandleWrite, BeforeWrite, BeforeOut, Step, Reads, Drains, BeforeRead, Emptied, Finishes;
    hide ShutsDown, Legal;
  }

  lemma {:induction false} RunCount(l: Link, es: seq<Event>)
    requires Sound(l) && LegalRun(l, es)
    ensures |Run(l, es).fins| == |l.fins| + Shutdowns(l, es) + Finished(l, es)
    decreases |es|
  {
    if es != [] {
      StepCount(l, es[0]);
      hide Step, Legal, Sound, Forward, ShutsDownStep, FinishesStep;
      RunCount(Step(l, es[0]), es[1..]);
    }
  }

  /** The shutdowns that can still take effect: one while the connection is up, then those queued. */
  function ShutdownsLeft(l: Link): nat {
    if l.state == Connected then 1 else multiset(l.queue)[ShutdownTask]
  }

  lemma QueueShutdowns(l: Link, m: Link)
    requires Sound(l) && QueueKept(l, m) && Rank(l.state) <= Rank(m.state)
    ensures ShutdownsLeft(m) <= ShutdownsLeft(l)
    ensures l.state == Connected && m.state != Connected ==> ShutdownsLeft(m) == 0
  {
    assert l.state == Connected ==> ShutdownTask !in l.queue;
  }

  lemma StepShutdowns(l: Link, e: Event)
    requires Sound(l) && Legal(l, e)
    ensures One(ShutsDownStep(l, e)) + ShutdownsLeft(Step(l, e)) <= ShutdownsLeft(l)
  {
    match e
    case OnLoop(act) => ActShutdowns(l, act);
    case OffLoop(task) => OffLoopShutdowns(l, task);
    case RunOldest(w, calls) => TaskShutdowns(l, w, calls);
    case Dispatch(_, _, _, _) => DispatchShutdowns(l, e);
    hide Step, Sound, Forward, ShutdownsLeft, ShutsDownStep;
  }

  lemma ActShutdowns(l: Link, act: Act)
    requires Sound(l)
    ensures One(ShutsDownStep(l, OnLoop(act))) + ShutdownsLeft(Step(l, OnLoop(act))) <= ShutdownsLeft(l)
  {
    ActQueue(l, act);
    QueueShutdowns(l, Step(l, OnLoop(act)));
    ActHalfCloses(l, act);
    hide DoAct, Sound, Forward, ShutsDownNow, CutsOffNow, QueueKept;
  }

  lemma OffLoopShutdowns(l: Link, task: Task)
    requires Sound(l)
    ensures One(ShutsDownStep(l, OffLoop(task))) + ShutdownsLeft(Step(l, OffLoop(task))) <= ShutdownsLeft(l)
  {
    assert l.state == Connected ==> ShutdownTask !in l.queue;
    hide Sound, Forward;
  }

  lemma DispatchShutdowns(l: Link, e: Event)
    requires Sound(l) && Legal(l, e) && e.Dispatch?
    ensures One(ShutsDownStep(l, e)) + ShutdownsLeft(Step(l, e)) <= ShutdownsLeft(l)
  {
    var l1, m := BeforeOut(l, e), Step(l, e);
    var h := HandleWrite(l1, e.dw, e.ddone);
    ReadQueue(l, e);
    ReadCount(l, e);
    QueueShutdowns(l, l1);
    WriteQueue(l1, e.dw, e.ddone);
    WriteShutsDown(l1, e.dw, e.ddone);
    HandleWriteKeeps(l1, e.dw, e.ddone);
    assert Rank(l1.state) <= Rank(h.state);
    assert m == if OUT in e.revents then h else l1;
    hide Sound, HandleWrite, BeforeWrite, BeforeOut, Step, Reads, Drains, BeforeRead, Emptied, QueueKept;
    hide ShutsDown, ShutdownsLeft, Forward, Legal;
    QueueShutdowns(l1, h);
  }

  lemma WriteShutsDown(l: Link, w: WriteResult, done: seq<Act>)
    requires Sound(l)
    ensures Drains(l, w) && ShutsDown(Emptied(l), done)
            ==> l.state == Connected && HandleWrite(l, w, done).state != Connected
  {
    if Drains(l, w) {
      EmptiedKeeps(l);
      ActsHalfClose(Emptied(l), done);
      hide DoActs, Sound, ShutsDown, CutsOff;
    }
  }

  lemma PoppedShutdowns(l: Link)
    requires l.queue != []
    ensures multiset(Popped(l).queue)[ShutdownTask] + One(l.queue[0].ShutdownTask?) == multiset(l.queue)[ShutdownTask]
  {
    assert l.queue == [l.queue[0]] + l.queue[1..];
  }

  lemma TaskShutdowns(l: Link, w: WriteResult, calls: Calls)
    requires Sound(l) && l.queue != []
    ensures var e := RunOldest(w, calls);
            One(ShutsDownStep(l, e)) + ShutdownsLeft(Step(l, e)) <= ShutdownsLeft(l)
  {
    if l.queue[0].SendTask? {
      PoppedKeeps(l);
      SendShutdowns(Popped(l), l.queue[0].message, w, calls);
      SendLeaves(l);
      hide SendInLoop, Sound, SendShutsDown, Forward, ShutdownsLeft;
    } else {
      PoppedShutdowns(l);
      hide SendInLoop, Sound, Forward;
      assert l.state != Connected ==> ShutdownsLeft(l) == multiset(l.queue)[ShutdownTask];
    }
  }

  lemma SendLeaves(l: Link)
    requires l.queue != [] && l.queue[0].SendTask?
    ensures ShutdownsLeft(Popped(l)) == ShutdownsLeft(l)
  {
    PoppedShutdowns(l);
  }

  lemma SendShutdowns(l: Link, message: bytes, w: WriteResult, calls: Calls)
    requires Sound(l)
    ensures One(SendShutsDown(l, message, w, calls)) + ShutdownsLeft(SendInLoop(l, message, w, calls))
            <= ShutdownsLeft(l)
  {
    var m := SendInLoop(l, message, w, calls);
    SendInLoopKeeps(l, message, w, calls);
    SendQueue(l, message, w, calls);
    SendHalfCloses(l, message, w, calls);
    QueueShutdowns(l, m);
    hide SendInLoop, Sound, Forward, SendShutsDown, SendCutsOff, QueueKept;
  }

  lemma {:induction false} RunShutdowns(l: Link, es: seq<Event>)
    requires Sound(l) && LegalRun(l, es)
    ensures Shutdowns(l, es) <= ShutdownsLeft(l)
    decreases |es|
  {
    if es != [] {
      StepShutdowns(l, es[0]);
      hide Step, Legal, Sound, Forward, ShutsDownStep, ShutdownsLeft;
      RunShutdowns(Step(l, es[0]), es[1..]);
    }
  }

  /** The sends queued from other threads. */
  function QueuedSends(queue: seq<Task>): nat {
    if queue == [] then 0 else One(queue[0].SendTask?) + QueuedSends(queue[1..])
  }

  lemma {:induction false} QueuedSendsAppend(queue: seq<Task>, task: Task)
    ensures QueuedSends(queue + [task]) == QueuedSends(queue) + One(task.SendTask?)
    decreases |queue|
  {
    if queue == [] {
      assert queue + [task] == [task];
    } else {
      QueuedSendsAppend(queue[1..], task);
      assert (queue + [task])[0] == queue[0] && (queue + [task])[1..] == queue[1..] + [task];
    }
  }

  /** The backlogs there can still be: one while the connection is up, or the present one, and
      one for each send that is queued. */
  function BacklogsLeft(l: Link): nat {
    One(l.state == Connected || l.out != []) + QueuedSends(l.queue)
  }

  lemma KeptSends(l: Link, m: Link)
    requires QueueKept(l, m)
    ensures QueuedSends(m.queue) == QueuedSends(l.queue)
  {
    QueuedSendsAppend(l.queue, ForceCloseTask);
  }

  lemma StepBacklogs(l: Link, e: Event)
    requires Sound(l) && Legal(l, e)
    ensures One(FinishesStep(l, e)) + BacklogsLeft(Step(l, e))
            <= BacklogsLeft(l) + One(e.OffLoop? && e.task.SendTask?)
  {
    match e
    case OnLoop(act) => ActBacklogs(l, act);
    case OffLoop(task) => OffLoopBacklogs(l, task);
    case RunOldest(w, calls) => TaskBacklogs(l, w, calls);
    case Dispatch(_, _, _, _) => DispatchBacklogs(l, e);
    hide Step, Sound, Forward, BacklogsLeft;
  }

  lemma ActBacklogs(l: Link, act: Act)
    requires Sound(l)
    ensures BacklogsLeft(Step(l, OnLoop(act))) <= BacklogsLeft(l)
  {
    ActQueue(l, act);
    if l.state != Connected {
      ActRefused(l, act);
    }
    hide DoAct, Sound, Forward, QueuedSends;
    KeptSends(l, Step(l, OnLoop(act)));
  }

  lemma OffLoopBacklogs(l: Link, task: Task)
    requires Sound(l)
    ensures BacklogsLeft(Step(l, OffLoop(task))) <= BacklogsLeft(l) + One(task.SendTask?)
  {
    QueuedSendsAppend(l.queue, task);
    hide QueuedSends, Sound, Forward;
  }

  lemma TaskBacklogs(l: Link, w: WriteResult, calls: Calls)
    requires Sound(l) && l.queue != []
    ensures BacklogsLeft(Step(l, RunOldest(w, calls))) <= BacklogsLeft(l)
  {
    var p, task := Popped(l), l.queue[0];
    PoppedKeeps(l);
    var m := Step(l, RunOldest(w, calls));
    assert QueuedSends(l.queue) == One(task.SendTask?) + QueuedSends(p.queue);
    if task.SendTask? {
      SendQueue(p, task.message, w, calls);
      hide SendInLoop, Sound, Forward, QueueKept, QueuedSends;
      KeptSends(p, m);
    } else {
      assert m.queue == p.queue && m.state == p.state && m.out == p.out;
      hide SendInLoop, Sound, Forward, QueuedSends, Step;
    }
  }

  lemma DispatchBacklogs(l: Link, e: Event)
    requires Sound(l) && Legal(l, e) && e.Dispatch?
    ensures One(FinishesStep(l, e)) + BacklogsLeft(Step(l, e)) <= BacklogsLeft(l)
  {
    var l1, m := BeforeOut(l, e), Step(l, e);
    var h := HandleWrite(l1, e.dw, e.ddone);
    ReadQueue(l, e);
    ReadCount(l, e);
    KeptSends(l, l1);
    WriteQueue(l1, e.dw, e.ddone);
    KeptSends(l1, h);
    WriteBacklog(l1, e.dw, e.ddone);
    assert m == if OUT in e.revents then h else l1;
    hide Sound, HandleWrite, BeforeWrite, BeforeOut, Step, Reads, BeforeRead, QueueKept, QueuedSends, Finishes;
    hide ShutsDown, Forward, Legal;
  }

  lemma WriteBacklog(l: Link, w: WriteResult, done: seq<Act>)
    requires Sound(l)
    ensures var m := HandleWrite(l, w, done);
            && (l.state != Connected ==> m.state != Connected && (m.out != [] ==> l.out != []))
            && (Finishes(l, w, done) ==> l.out != [] && m.state != Connected && m.out == [])
  {
    if Writing(l) && l.state != Connected {
      ActsRefused(Emptied(l), done);
    }
    hide DoActs;
  }

  lemma {:induction false} RunBacklogs(l: Link, es: seq<Event>)
    requires Sound(l) && LegalRun(l, es)
    ensures Finished(l, es) <= BacklogsLeft(l) + SendsOffLoop(es)
    decreases |es|
  {
    if es != [] {
      StepBacklogs(l, es[0]);
      hide Step, Legal, Sound, Forward, FinishesStep, BacklogsLeft;
      RunBacklogs(Step(l, es[0]), es[1..]);
    }
  }

  function SendsOffLoop(es: seq<Event>): nat {
    if es == [] then 0 else One(es[0].OffLoop? && es[0].task.SendTask?) + SendsOffLoop(es[1..])
  }

  /** In every run the connection half-closes once for the shutdown that takes effect with nothing
      queued, of which there is one at most, and once for every backlog that is emptied with the
      connection no longer up, of which there is one, and one for each send from another thread,
      at most. */
  lemma HalfCloseCount(mark: nat, es: seq<Event>)
    requires LegalRun(Initial(mark), es)
    ensures var l := Initial(mark);
            && |Run(l, es).fins| == Shutdowns(l, es) + Finished(l, es)
            && Shutdowns(l, es) <= 1 && Finished(l, es) <= 1 + SendsOffLoop(es)
  {
    RunCount(Initial(mark), es);
    RunShutdowns(Initial(mark), es);
    RunBacklogs(Initial(mark), es);
    hide Run, LegalRun, Shutdowns, Finished, SendsOffLoop;
  }

  // ----- With all calls on the loop thread -----

  /** Every half-close found everything accepted, and nothing was given or written since. */
  ghost predicate ClosedCleanly(l: Link) {
    && |l.fins| <= 2 && (l.fins != [] ==> l.out == [])
    && forall i :: 0 <= i < |l.fins| ==> l.fins[i] == Fin(l.accepted, l.submitted, Disconnecting)
  }

  /** The first half-close cut a message off; the second comes when that is written. */
  ghost predicate CutShort(l: Link) {
    l.state != Connected && |l.fins| == (if l.out == [] then 2 else 1) && Gap(l.fins[0]) > 0
  }

  lemma ActsCloseCleanly(l: Link, acts: seq<Act>)
    requires Sound(l) && ClosedCleanly(l) && Missing(l) == 0
    ensures var m := DoActs(l, acts);
            if CutsOff(l, acts) then CutShort(m) && m.out != []
            else ClosedCleanly(m) && |m.fins| == |l.fins| + One(ShutsDown(l, acts))
                 && (ShutsDown(l, acts) ==> l.fins == [] && m.state == Disconnecting && m.out == [])
  {
    ActsHalfClose(l, acts);
    if l.state != Connected {
      ActsRefused(l, acts);
    }
    hide DoActs, ShutsDown, CutsOff;
  }

  /** Whether a write empties the backlog and its callback shuts down, with nothing queued then. */
  predicate CallbackShutsDown(l: Link, w: WriteResult, done: seq<Act>) {
    Drains(l, w) && ShutsDown(Emptied(l), done) && !CutsOff(Emptied(l), done)
  }

  lemma WriteClosesCleanly(l: Link, w: WriteResult, done: seq<Act>)
    requires Sound(l) && ClosedCleanly(l) && Missing(l) == 0
    ensures var m := HandleWrite(l, w, done);
            if Drains(l, w) && CutsOff(Emptied(l), done) then CutShort(m)
            else ClosedCleanly(m) && (|m.fins| == 2 <==> |l.fins| == 2 || CallbackShutsDown(l, w, done))
  {
    WritingIsBacklog(l);
    if Drains(l, w) {
      EmptiedKeeps(l);
      var e := Emptied(l);
      assert l.fins == [] == e.fins;
      ActsCloseCleanly(e, done);
      var a := DoActs(e, done);
      DoActsKeeps(e, done);
      WritingIsBacklog(a);
      assert HandleWrite(l, w, done) == if a.state == Disconnecting then ShutdownInLoop(a) else a;
      LastShutdownClean(a);
      hide Emptied, DoActs, ShutsDown, CutsOff, Sound, Forward, ClosedCleanly, HandleWrite, Drains;
    } else {
      WritesPart(l, w, done);
    }
  }

  lemma WritesPart(l: Link, w: WriteResult, done: seq<Act>)
    requires Sound(l) && ClosedCleanly(l) && !Drains(l, w)
    ensures ClosedCleanly(HandleWrite(l, w, done)) && HandleWrite(l, w, done).fins == l.fins
  {
    WritingIsBacklog(l);
  }

  lemma LastShutdownClean(l: Link)
    requires Sound(l)
    ensures ClosedCleanly(l) && |l.fins| <= 1 && l.state == Disconnecting && l.out == []
            ==> ClosedCleanly(ShutdownInLoop(l)) && |ShutdownInLoop(l).fins| == |l.fins| + 1
    ensures l.state == Disconnecting && l.out != [] ==> ShutdownInLoop(l) == l
  {
    WritingIsBacklog(l);
  }

  lemma WriteCutShort(l: Link, w: WriteResult, done: seq<Act>)
    requires Sound(l) && CutShort(l)
    ensures CutShort(HandleWrite(l, w, done)) && (Drains(l, w) ==> !ShutsDown(Emptied(l), done))
  {
    WritingIsBacklog(l);
    if Drains(l, w) {
      EmptiedKeeps(l);
      ActsRefused(Emptied(l), done);
      hide DoActs;
    }
  }

  lemma ReadClosesCleanly(l: Link, e: Event)
    requires Sound(l) && Legal(l, e) && e.Dispatch? && ClosedCleanly(l) && Missing(l) == 0
    ensures var m := BeforeOut(l, e);
            if Reads(e.revents) && e.read.Data? && CutsOff(BeforeRead(l, e.revents), e.read.acts) then CutShort(m)
            else ClosedCleanly(m) && (|m.fins| == 2 <==> |l.fins| == 2)
  {
    BeforeReadKeeps(l, e.revents);
    var l0 := BeforeRead(l, e.revents);
    assert ClosedCleanly(l0) && Missing(l0) == 0;
    if e.read.Data? {
      ActsCloseCleanly(l0, e.read.acts);
    }
    hide Sound, Forward, DoActs, CutsOff, ShutsDown, BeforeRead, Reads, Reported, Missing;
  }

  lemma ReadCutShort(l: Link, e: Event)
    requires Sound(l) && Legal(l, e) && e.Dispatch? && CutShort(l)
    ensures CutShort(BeforeOut(l, e))
    ensures e.read.Data? ==> !CutsOff(BeforeRead(l, e.revents), e.read.acts)
  {
    BeforeReadKeeps(l, e.revents);
    var l0 := BeforeRead(l, e.revents);
    assert CutShort(l0);
    if e.read.Data? {
      ActsRefused(l0, e.read.acts);
    }
    hide Sound, Forward, DoActs, BeforeRead, Reads, Reported;
  }

  /** Whether this step makes a write-complete callback from `handleWrite` that does so. */
  ghost predicate CallbackStep(l: Link, e: Event)
    requires Sound(l) && Legal(l, e)
  {
    e.Dispatch? && OUT in e.revents && CallbackShutsDown(BeforeOut(l, e), e.dw, e.ddone)
  }

  ghost predicate CallbackRun(l: Link, es: seq<Event>)
    requires Sound(l) && LegalRun(l, es)
    decreases |es|
  {
    es != [] && (CallbackStep(l, es[0]) || CallbackRun(Step(l, es[0]), es[1..]))
  }

  predicate OwnThread(l: Link) {
    forall i :: 0 <= i < |l.queue| ==> l.queue[i] == ForceCloseTask
  }

  lemma OwnThreadStep(l: Link, e: Event)
    requires Sound(l) && Legal(l, e) && OwnThread(l) && !e.OffLoop?
    ensures OwnThread(Step(l, e))
  {
    match e
    case OnLoop(act) =>
      ActQueue(l, act);
      hide DoAct, Sound, Forward;
    case RunOldest(w, calls) =>
      assert l.queue[0] == ForceCloseTask;
      hide Sound, Forward;
    case Dispatch(revents, read, w, done) =>
      var l1 := BeforeOut(l, e);
      ReadQueue(l, e);
      WriteQueue(l1, w, done);
      assert Step(l, e) == if OUT in revents then HandleWrite(l1, w, done) else l1;
      hide BeforeOut, BeforeWrite, HandleWrite, Step, Sound, Forward, Legal;
      KeptOwn(l, l1);
      if OUT in revents {
        KeptOwn(l1, Step(l, e));
      }
  }

  lemma KeptOwn(l: Link, m: Link)
    requires OwnThread(l) && QueueKept(l, m)
    ensures OwnThread(m)
  {
  }

  lemma CleanStep(l: Link, e: Event)
    requires Sound(l) && Legal(l, e) && OwnThread(l) && !e.OffLoop? && ClosedCleanly(l) && Missing(l) == 0
    ensures var m := Step(l, e);
            if CutsOffStep(l, e) then CutShort(m) && !CallbackStep(l, e)
            else ClosedCleanly(m) && (|m.fins| == 2 <==> |l.fins| == 2 || CallbackStep(l, e))
  {
    match e
    case OnLoop(act) =>
      ActsCloseCleanly(l, [act]);
      OneAct(l, act);
      assert [act][1..] == [];
      assert CutsOff(l, [act]) == CutsOffNow(l, act);
      assert Step(l, e) == DoActs(l, [act]);
      hide DoActs, DoAct, CutsOffNow, ShutsDownNow, ShutsDown;
    case RunOldest(w, calls) => assert l.queue[0] == ForceCloseTask;
    case Dispatch(revents, read, w, done) =>
      var l1 := BeforeOut(l, e);
      ReadClosesCleanly(l, e);
      if CutShort(l1) {
        WriteCutShort(l1, w, done);
      }
      if ClosedCleanly(l1) {
        WriteClosesCleanly(l1, w, done);
      }
      assert Missing(l1) == 0;
      assert Step(l, e) == if OUT in revents then HandleWrite(l1, w, done) else l1;
      hide BeforeOut, HandleWrite, Step, Sound, Forward, Reads, BeforeRead, CutShort, ClosedCleanly, CutsOff, ShutsDown;
      hide Drains, Emptied, Missing;
  }

  lemma CutShortStep(l: Link, e: Event)
    requires Sound(l) && Legal(l, e) && OwnThread(l) && !e.OffLoop? && CutShort(l)
    ensures CutShort(Step(l, e)) && !CallbackStep(l, e)
  {
    match e
    case OnLoop(act) => ActRefused(l, act);
    case RunOldest(w, calls) => assert l.queue[0] == ForceCloseTask;
    case Dispatch(revents, read, w, done) =>
      var l1 := BeforeOut(l, e);
      ReadCutShort(l, e);
      WriteCutShort(l1, w, done);
      assert Step(l, e) == if OUT in revents then HandleWrite(l1, w, done) else l1;
      hide BeforeOut, HandleWrite, Step, Sound, Forward, CutShort, Drains, ShutsDown, Emptied;
  }

  predicate LoopOnly(es: seq<Event>) {
    forall i :: 0 <= i < |es| ==> !es[i].OffLoop?
  }

  lemma {:induction false} CutShortRun(l: Link, es: seq<Event>)
    requires Sound(l) && LegalRun(l, es) && OwnThread(l) && LoopOnly(es) && CutShort(l)
    ensures CutShort(Run(l, es)) && !CallbackRun(l, es)
    decreases |es|
  {
    if es != [] {
      CutShortStep(l, es[0]);
      OwnThreadStep(l, es[0]);
      hide Step, Legal, Sound, Forward, OwnThread, CallbackStep, CutShort;
      CutShortRun(Step(l, es[0]), es[1..]);
    }
  }

  /** A callback that shuts down leaves nothing for a later one to cut off. */
  lemma NotBoth(l: Link, e: Event)
    requires Sound(l) && Legal(l, e) && CallbackStep(l, e)
    ensures Step(l, e).state != Connected
  {
    WriteShutsDown(BeforeOut(l, e), e.dw, e.ddone);
    hide BeforeOut, BeforeWrite, HandleWrite, ShutsDown, CutsOff, Emptied, Drains, Sound, Forward;
    assert Step(l, e) == HandleWrite(BeforeOut(l, e), e.dw, e.ddone) by {
      assert BeforeOut(l, e) == BeforeWrite(l, e.revents, e.read);
    }
  }

  lemma {:induction false} CutsOffNothing(l: Link, es: seq<Event>)
    requires Sound(l) && LegalRun(l, es) && OwnThread(l) && LoopOnly(es) && l.state != Connected
    ensures !CutsOffRun(l, es)
    decreases |es|
  {
    if es != [] {
      NothingToCutOff(l, es[0]);
      OwnThreadStep(l, es[0]);
      var m := Step(l, es[0]);
      assert m.state != Connected;
      hide Step, Legal, Sound, Forward, OwnThread, CutsOffStep;
      CutsOffNothing(m, es[1..]);
    }
  }

  lemma NothingToCutOff(l: Link, e: Event)
    requires Sound(l) && Legal(l, e) && OwnThread(l) && !e.OffLoop? && l.state != Connected
    ensures !CutsOffStep(l, e)
  {
    if e.Dispatch? {
      ReadCount(l, e);
      BeforeReadKeeps(l, e.revents);
      var l0, l1 := BeforeRead(l, e.revents), BeforeOut(l, e);
      assert l0.state != Connected && Emptied(l1).state == l1.state;
      assert e.read.Data? ==> !CutsOff(l0, e.read.acts);
      assert !CutsOff(Emptied(l1), e.ddone);
      hide BeforeOut, BeforeRead, Sound, Forward, Emptied, CutsOff;
    }
  }

  lemma {:induction false} CleanRun(l: Link, es: seq<Event>)
    requires Sound(l) && LegalRun(l, es) && OwnThread(l) && LoopOnly(es) && ClosedCleanly(l) && Missing(l) == 0
    ensures var m := Run(l, es);
            if CutsOffRun(l, es) then CutShort(m) && !CallbackRun(l, es)
            else ClosedCleanly(m) && (|m.fins| == 2 <==> |l.fins| == 2 || CallbackRun(l, es))
    decreases |es|
  {
    if es != [] {
      var e, m := es[0], Step(l, es[0]);
      CleanStep(l, e);
      OwnThreadStep(l, e);
      assert Missing(m) == 0;
      if CutsOffStep(l, e) {
        CutShortRun(m, es[1..]);
      } else {
        if CallbackStep(l, e) {
          NotBoth(l, e);
          CutsOffNothing(m, es[1..]);
        }
        CleanRun(m, es[1..]);
      }
      hide Step, Legal, Sound, Forward, OwnThread, CallbackStep, CutsOffStep, CutShort, ClosedCleanly, Missing;
    }
  }

  /** With all calls on the loop thread the connection half-closes twice at most: exactly if the
      write-complete callback made by `handleWrite` shuts it down, or a high-water callback did
      and the message that was cut off has been written since. Every half-close finds everything
      accepted, and nothing is written after the first, exactly if no high-water callback shuts
      it down. */
  lemma LoopOnlyHalfClose(mark: nat, es: seq<Event>)
    requires LegalRun(Initial(mark), es) && LoopOnly(es)
    ensures var l, m := Initial(mark), Run(Initial(mark), es);
            && |m.fins| <= 2
            && (|m.fins| == 2 <==> CallbackRun(l, es) || (CutsOffRun(l, es) && m.out == []))
            && (CutsOffRun(l, es) ==> m.fins != [] && |m.fins[0].accepted| < |m.fins[0].submitted|)
            && (!CutsOffRun(l, es) ==>
                  && (m.fins != [] ==> |m.accepted| == |m.submitted|)
                  && forall i :: 0 <= i < |m.fins| ==> m.fins[i] == Fin(m.accepted, m.submitted, Disconnecting))
            && (OrderlyRun(l, es) && !CutsOffRun(l, es) && m.fins != [] ==> m.accepted == m.submitted)
  {
    var l, m := Initial(mark), Run(Initial(mark), es);
    CleanRun(l, es);
    RunKeeps(l, es);
    OrderIff(mark, es);
    assert m.out == [] ==> Wire(m) == m.accepted by {
      NothingMore(m.accepted);
    }
    assert Missing(m) == 0;
    hide Run, LegalRun, CutsOffRun, OrderlyRun, CallbackRun, Sound;
  }

  // ----- Where the half-closes come from -----

  /** A shutdown made with a backlog half-closes in the `handleWrite` that empties it, and in
      no earlier one, whatever the callback does. */
  lemma HalfCloseWhenDrained(l: Link, w: WriteResult, done: seq<Act>)
    requires Sound(l) && l.state == Disconnecting && l.out != []
    ensures var m := HandleWrite(l, w, done);
            && (|m.fins| > |l.fins| <==> Taken(w, |l.out|) == |l.out|)
            && (|m.fins| > |l.fins| ==> m.fins == l.fins + [Fin(Wire(l), l.submitted, Disconnecting)] && m.out == [])
  {
    WritingIsBacklog(l);
    EmptiedKeeps(l);
    ActsRefused(Emptied(l), done);
    hide DoActs;
  }

  /** A `forceClose` in the callback of a write that empties the backlog half-closes as well. */
  lemma ForceCloseInCallback(l: Link, w: WriteResult)
    requires Sound(l) && l.state == Connected && Drains(l, w)
    ensures HandleWrite(l, w, [ActForceClose]).fins == [Fin(Wire(l), l.submitted, Disconnecting)]
  {
    EmptiedKeeps(l);
    OneAct(Emptied(l), ActForceClose);
    hide DoActs;
  }

  /** POLLOUT, and a kernel that takes all that is queued. */
  function DrainEvent(l: Link, done: seq<Act>): Event {
    Dispatch({OUT}, ReadError, Wrote(|l.out|), done)
  }

  lemma DrainStep(l: Link, done: seq<Act>)
    requires Sound(l) && l.state != Disconnected && l.out != []
    ensures var e := DrainEvent(l, done);
            Legal(l, e) && Step(l, e) == AfterDrain(Emptied(l), done) && !Writing(Emptied(l))
  {
    WritingIsBacklog(l);
    EmptiedKeeps(l);
    assert OUT in l.reg.events;
    assert {OUT} * {IN, PRI, RDHUP} == {};
  }

  /** A first message of which the kernel takes nothing yet. */
  lemma FirstQueued(mark: nat, message: bytes)
    ensures var l := Step(Initial(mark), OnLoop(ActSend(message, WouldBlock, NO_CALLS)));
            && l.state == Connected && l.out == message == l.submitted && l.accepted == []
            && l.fins == [] && l.queue == []
  {
    QueuedSend(Initial(mark), message);
    NothingMore(message);
    hide DoAct;
  }

  lemma ShutdownAgain(l: Link)
    requires Sound(l) && l.state == Connected && !Writing(l)
    ensures AfterDrain(l, [ActShutdown]).fins
            == [Fin(l.accepted, l.submitted, Disconnecting), Fin(l.accepted, l.submitted, Disconnecting)]
  {
    OneAct(l, ActShutdown);
    hide DoActs;
  }

  /** Two half-closes: a message the kernel does not take at once, and a write-complete callback
      that shuts down. */
  lemma TwoHalfCloses(mark: nat, message: bytes)
    requires message != []
    ensures var es := [OnLoop(ActSend(message, WouldBlock, NO_CALLS)),
                       Dispatch({OUT}, ReadError, Wrote(|message|), [ActShutdown])];
            var fin := Fin(message, message, Disconnecting);
            LegalRun(Initial(mark), es) && Run(Initial(mark), es).fins == [fin, fin]
  {
    var l, a := Initial(mark), OnLoop(ActSend(message, WouldBlock, NO_CALLS));
    FirstQueued(mark, message);
    var m := Step(l, a);
    var b := DrainEvent(m, [ActShutdown]);
    DrainStep(m, [ActShutdown]);
    EmptiedKeeps(m);
    NothingMore(message);
    assert Emptied(m).accepted == message;
    ShutdownAgain(Emptied(m));
    hide Step, Legal, Sound, Forward, Emptied, AfterDrain;
    RunOneEvent(m, b);
    RunCons(l, a, [b]);
    assert [a] + [b] == [a, b];
  }

  /** Two more: a high-water callback that shuts down, and the write of the message it cut off. */
  lemma HighWaterTwoHalfCloses(mark: nat, message: bytes)
    requires 0 < mark <= |message|
    ensures var es := [OnLoop(ActSend(message, WouldBlock, Calls([], [ActShutdown]))),
                       Dispatch({OUT}, ReadError, Wrote(|message|), [])];
            && LegalRun(Initial(mark), es)
            && Run(Initial(mark), es).fins == [Fin([], message, Disconnecting), Fin(message, message, Disconnecting)]
  {
    var calls := Calls([], [ActShutdown]);
    var l, act := Initial(mark), ActSend(message, WouldBlock, calls);
    HighWaterShutdown(mark, message);
    assert DoAct(l, act) == Send(l, message, WouldBlock, calls) == SendInLoop(l, message, WouldBlock, calls);
    var a := OnLoop(act);
    var m := Step(l, a);
    assert m.submitted == message by {
      CrossesAtOnce(mark, message, calls);
      OneAct(l.(submitted := message), ActShutdown);
      hide DoActs;
    }
    hide SendInLoop, DoActs;
    var b := DrainEvent(m, []);
    DrainStep(m, []);
    NoActs(Emptied(m));
    NothingMore(message);
    hide Step, Legal, Sound, Forward;
    RunOneEvent(m, b);
    RunCons(l, a, [b]);
    assert [a] + [b] == [a, b];
  }

  /** And two for a shutdown from another thread made with a backlog: `handleWrite` half-closes
      when the backlog is written, and the queued half of the shutdown once more. */
  lemma OffLoopTwoHalfCloses(mark: nat, message: bytes, w: WriteResult, calls: Calls)
    requires message != []
    ensures var es := [OnLoop(ActSend(message, WouldBlock, NO_CALLS)), OffLoop(ShutdownTask),
                       Dispatch({OUT}, ReadError, Wrote(|message|), []), RunOldest(w, calls)];
            var fin := Fin(message, message, Disconnecting);
            LegalRun(Initial(mark), es) && Run(Initial(mark), es).fins == [fin, fin]
  {
    var l, a, b := Initial(mark), OnLoop(ActSend(message, WouldBlock, NO_CALLS)), OffLoop(ShutdownTask);
    FirstQueued(mark, message);
    var l1 := Step(l, a);
    var l2 := Step(l1, b);
    assert l2 == l1.(state := Disconnecting, queue := [ShutdownTask]);
    var c, d := DrainEvent(l2, []), RunOldest(w, calls);
    DrainStep(l2, []);
    NoActs(Emptied(l2));
    EmptiedKeeps(l2);
    NothingMore(message);
    var l3 := Step(l2, c);
    assert l3 == ShutdownInLoop(Emptied(l2)) && l3.queue == [ShutdownTask];
    assert Step(l3, d).fins == l3.fins + [Fin(l3.accepted, l3.submitted, Disconnecting)];
    hide Step, Legal, Sound, Forward, Emptied, DoActs;
    RunThree(l1, b, c, d);
    RunCons(l, a, [b, c, d]);
    assert [a] + [b, c, d] == [a, b, c, d];
  }
}
