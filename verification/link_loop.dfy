/** The loop of one connection: calls on the loop thread and from others, queued functors and
    dispatches, carried out on the object as the runs of the protocol say. */
module LinkLoops {
  import opened Bytes
  import opened Buffers
  import opened Pollers
  import opened LinkProtocol
  import opened LinkRuns
  import opened LinkedSockets

  /** What `readv` returns; `chunk` is the data, if there is any. */
  function ReadOf(read: ReadOutcome, chunk: bytes): ReadResult {
    match read
    case Data(_) => ReadBytes(chunk)
    case Eof => ReadBytes([])
    case ReadError => ReadFailed(0)
  }

  /** `FdHandler::handleEvent`, with an owner that makes its calls on new data. */
  method HandleEvent(conn: LinkedSocket, revents: Mask, read: ReadOutcome, w: WriteResult, done: seq<Act>, chunk: bytes)
    requires conn.Valid() && DispatchSafe(conn.View(), revents, read)
    requires 0 < |chunk| <= conn.inputBuffer.ReadLimit()
    modifies conn, conn.handler`events, conn.handler`inPoll, conn.poller`fd2handler, conn.poller`kernel,
             conn.outputBuffer, conn.outputBuffer.store, conn.inputBuffer, conn.inputBuffer.store
    ensures conn.Valid() && conn.View() == LinkProtocol.HandleEvent(old(conn.View()), revents, read, w, done)
    ensures conn.outputBuffer.store == old(conn.outputBuffer.store) || fresh(conn.outputBuffer.store)
    ensures conn.inputBuffer.store == old(conn.inputBuffer.store) || fresh(conn.inputBuffer.store)
  {
    assert LinkProtocol.HandleEvent(conn.View(), revents, read, w, done)
        == if OUT in revents then HandleWrite(BeforeWrite(conn.View(), revents, read), w, done)
           else BeforeWrite(conn.View(), revents, read);
    hide LinkProtocol.HandleEvent, HandleWrite, BeforeWrite, DispatchSafe, LinkedSocket.Valid;
    CloseAndRead(conn, revents, read, chunk);
    if OUT in revents {
      conn.HandleWrite(w, done);
    }
  }

  /** The branches before POLLOUT. */
  method CloseAndRead(conn: LinkedSocket, revents: Mask, read: ReadOutcome, chunk: bytes)
    requires conn.Valid() && DispatchSafe(conn.View(), revents, read)
    requires 0 < |chunk| <= conn.inputBuffer.ReadLimit()
    modifies conn, conn.handler`events, conn.handler`inPoll, conn.poller`fd2handler, conn.poller`kernel,
             conn.outputBuffer, conn.outputBuffer.store, conn.inputBuffer, conn.inputBuffer.store
    ensures conn.Valid() && conn.View() == BeforeWrite(old(conn.View()), revents, read)
    ensures conn.outputBuffer.store == old(conn.outputBuffer.store) || fresh(conn.outputBuffer.store)
    ensures conn.inputBuffer.store == old(conn.inputBuffer.store) || fresh(conn.inputBuffer.store)
  {
    hide HandleRead, HandleClose, LinkedSocket.Valid, Reads;
    if ClosesOnHup(revents) {
      conn.HandleClose();
    }
    if Reads(revents) {
      ReadOnce(conn, read, chunk);
    }
  }

  method ReadOnce(conn: LinkedSocket, read: ReadOutcome, chunk: bytes)
    requires conn.Valid() && (read == Eof ==> conn.state != Disconnected)
    requires 0 < |chunk| <= conn.inputBuffer.ReadLimit()
    modifies conn, conn.handler`events, conn.handler`inPoll, conn.poller`fd2handler, conn.poller`kernel,
             conn.outputBuffer, conn.outputBuffer.store, conn.inputBuffer, conn.inputBuffer.store
    ensures conn.Valid() && conn.View() == HandleRead(old(conn.View()), read)
    ensures conn.outputBuffer.store == old(conn.outputBuffer.store) || fresh(conn.outputBuffer.store)
    ensures conn.inputBuffer.store == old(conn.inputBuffer.store) || fresh(conn.inputBuffer.store)
  {
    hide HandleClose, LinkedSocket.Valid, DoActs;
    var notify := conn.HandleRead(ReadOf(read, chunk));
    if notify {
      conn.Perform(read.acts);
    }
  }

  method CallFromOtherThread(conn: LinkedSocket, task: Task)
    requires conn.Valid()
    modifies conn, conn.handler`events, conn.handler`inPoll, conn.poller`fd2handler, conn.poller`kernel,
             conn.outputBuffer, conn.outputBuffer.store
    ensures conn.Valid() && conn.View() == CallOffLoop(old(conn.View()), task)
    ensures conn.outputBuffer.store == old(conn.outputBuffer.store) || fresh(conn.outputBuffer.store)
  {
    hide LinkedSocket.Valid;
    match task
    case SendTask(message) => conn.Send(message, false, WouldBlock, NO_CALLS);
    case ShutdownTask => conn.Shutdown(false);
    case ForceCloseTask => conn.ForceClose();
  }

  /** One event of a run takes the object through one step of the protocol. */
  method RunEvent(conn: LinkedSocket, e: Event, chunk: bytes)
    requires conn.Valid() && Legal(conn.View(), e) && 0 < |chunk| <= conn.inputBuffer.ReadLimit()
    modifies conn, conn.handler`events, conn.handler`inPoll, conn.poller`fd2handler, conn.poller`kernel,
             conn.outputBuffer, conn.outputBuffer.store, conn.inputBuffer, conn.inputBuffer.store
    ensures conn.Valid() && conn.View() == Step(old(conn.View()), e)
    ensures conn.outputBuffer.store == old(conn.outputBuffer.store) || fresh(conn.outputBuffer.store)
    ensures conn.inputBuffer.store == old(conn.inputBuffer.store) || fresh(conn.inputBuffer.store)
  {
    StepCases(conn.View(), e);
    hide Step, LinkedSocket.Valid, Sound, Legal, DispatchSafe, CallOffLoop, RunTask, DoActs, LinkProtocol.HandleEvent;
    match e
    case OnLoop(act) => conn.Perform([act]);
    case OffLoop(task) => CallFromOtherThread(conn, task);
    case RunOldest(w, calls) => conn.RunFunctor(w, calls);
    case Dispatch(revents, read, w, done) => HandleEvent(conn, revents, read, w, done, chunk);
  }

  lemma StepCases(l: Link, e: Event)
    requires Sound(l) && Legal(l, e)
    ensures e.OnLoop? ==> Step(l, e) == DoActs(l, [e.act])
    ensures e.OffLoop? ==> Step(l, e) == CallOffLoop(l, e.task)
    ensures e.RunOldest? ==> l.queue != [] && Step(l, e) == RunTask(Popped(l), l.queue[0], e.w, e.calls)
    ensures e.Dispatch? ==> DispatchSafe(l, e.revents, e.read)
    ensures e.Dispatch? ==> Step(l, e) == LinkProtocol.HandleEvent(l, e.revents, e.read, e.dw, e.ddone)
  {
    if e.OnLoop? {
      OneAct(l, e.act);
    } else if e.Dispatch? {
      DispatchAssertion(l, e.revents, e.read);
    }
    hide DoActs, DoAct, RunTask, LinkProtocol.HandleEvent, Sound, Forward;
  }

  /** Whether the first `n` events lead from `l` to `m`. */
  ghost predicate Ran(l: Link, es: seq<Event>, n: nat, m: Link) {
    Sound(l) && n <= |es| && LegalRun(l, es[..n]) && m == Run(l, es[..n])
  }

  /** The next event of a run; refused if the chunk is longer than the read offers. */
  method RunNext(conn: LinkedSocket, ghost l: Link, es: seq<Event>, n: nat, chunk: bytes) returns (ok: bool)
    requires conn.Valid() && Sound(l) && LegalRun(l, es) && n < |es| && Ran(l, es, n, conn.View()) && chunk != []
    modifies conn, conn.handler`events, conn.handler`inPoll, conn.poller`fd2handler, conn.poller`kernel,
             conn.outputBuffer, conn.outputBuffer.store, conn.inputBuffer, conn.inputBuffer.store
    ensures conn.Valid() && Ran(l, es, if ok then n + 1 else n, conn.View())
    ensures !ok ==> |chunk| > conn.inputBuffer.ReadLimit()
    ensures conn.outputBuffer.store == old(conn.outputBuffer.store) || fresh(conn.outputBuffer.store)
    ensures conn.inputBuffer.store == old(conn.inputBuffer.store) || fresh(conn.inputBuffer.store)
  {
    RunSnoc(l, es, n);
    hide Step, Legal, LegalRun, Run, LinkedSocket.Valid, Sound, Forward;
    ok := |chunk| <= conn.inputBuffer.ReadLimit();
    if ok {
      RunEvent(conn, es[n], chunk);
    }
  }

  /** The events one after the other: the object goes through the states of the run, so everything
      proved of runs holds of it. It stops early only at a chunk longer than the read offers,
      which the kernel cannot deliver. */
  method RunEvents(conn: LinkedSocket, es: seq<Event>, chunks: seq<bytes>) returns (n: nat)
    requires conn.Valid() && LegalRun(conn.View(), es)
    requires |chunks| == |es| && forall i :: 0 <= i < |chunks| ==> |chunks[i]| > 0
    modifies conn, conn.handler`events, conn.handler`inPoll, conn.poller`fd2handler, conn.poller`kernel,
             conn.outputBuffer, conn.outputBuffer.store, conn.inputBuffer, conn.inputBuffer.store
    ensures conn.Valid() && n <= |es| && Ran(old(conn.View()), es, n, conn.View())
    ensures n < |es| ==> |chunks[n]| > conn.inputBuffer.ReadLimit()
  {
    ghost var l := conn.View();
    n := 0;
    NoEvents(l, es);
    hide Ran;
    while n < |es|
      invariant n <= |es| && conn.Valid() && Ran(l, es, n, conn.View())
      invariant conn.outputBuffer.store == old(conn.outputBuffer.store) || fresh(conn.outputBuffer.store)
      invariant conn.inputBuffer.store == old(conn.inputBuffer.store) || fresh(conn.inputBuffer.store)
    {
      var ok := RunNext(conn, l, es, n, chunks[n]);
      if !ok {
        return;
      }
      n := n + 1;
    }
  }

  lemma NoEvents(l: Link, es: seq<Event>)
    requires Sound(l)
    ensures Ran(l, es, 0, l)
  {
    assert es[..0] == [];
  }

  /** A run is a shorter run and a last step. */
  lemma {:induction false} RunSnoc(l: Link, es: seq<Event>, i: nat)
    requires Sound(l) && LegalRun(l, es) && i < |es|
    ensures LegalRun(l, es[..i]) && LegalRun(l, es[..i + 1])
    ensures Sound(Run(l, es[..i])) && Legal(Run(l, es[..i]), es[i])
    ensures Run(l, es[..i + 1]) == Step(Run(l, es[..i]), es[i])
    decreases i
  {
    hide Step, Legal, Sound, Forward;
    var m := Step(l, es[0]);
    assert es[..i + 1][1..] == es[1..][..i] && es[..i + 1][0] == es[0];
    if i == 0 {
      NoEvents(l, es);
      NoEvents(m, es[1..]);
    } else {
      RunSnoc(m, es[1..], i - 1);
      assert es[..i][1..] == es[1..][..i - 1] && es[..i][0] == es[0];
    }
  }
}
