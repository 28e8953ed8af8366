/** The output and closing protocol of one connection, as a step machine: what the kernel
    accepted, what waits in the output buffer, the write interest, and the queued functors. */
module LinkProtocol {
  import opened Bytes
  import opened Pollers

  datatype LinkState = Connected | Disconnecting | Disconnected

  /** What `::write` does: it takes a prefix, would block, finds the peer gone
      (EPIPE, ECONNRESET), or fails otherwise. */
  datatype WriteResult = Wrote(most: nat) | WouldBlock | Fault | OtherError

  /** How many of `len` bytes the kernel takes. */
  function Taken(w: WriteResult, len: nat): (n: nat)
    ensures n <= len
  {
    if w.Wrote? then (if w.most < len then w.most else len) else 0
  }

  /** One call of `shutdownWrite`: what the kernel had accepted, and had been given, by then. */
  datatype Fin = Fin(accepted: bytes, submitted: bytes, state: LinkState)

  /** A functor queued for the loop thread. */
  datatype Task = SendTask(message: bytes) | ShutdownTask | ForceCloseTask

  /** `mark` is the high-water mark, and `queue` the connection's functors in the queue of its
      loop. `submitted` is every message that reached `sendInLoop` before disconnection, except
      those whose direct write found the peer gone; `fins` and `closes` log the calls of
      `shutdownWrite` and of `handleClose`. */
  datatype Link = Link(
    state: LinkState,
    reg: Registration,
    mark: nat,
    queue: seq<Task>,
    out: bytes,
    accepted: bytes,
    submitted: bytes,
    fins: seq<Fin>,
    closes: nat)

  /** A connection after `prepare`; the source leaves the mark uninitialised. */
  function Prepared(mark: nat): Link {
    Link(Connected, Registration(Added, true, Some(READ_EVENT), READ_EVENT), mark, [], [], [], [], [], 0)
  }

  /** What the owner does with the connection from a callback, on the loop thread. */
  datatype Act =
    | ActSend(message: bytes, w: WriteResult, calls: Calls)
    | ActShutdown
    | ActForceClose

  /** What the owner does in the callbacks of one send: the write-complete callback, made when
      the direct write takes the whole message, and the high-water callback. Both may send
      again, with callbacks of their own. */
  datatype Calls = Calls(done: seq<Act>, high: seq<Act>)

  const NO_CALLS: Calls := Calls([], [])

  function Writing(l: Link): bool {
    IsWriting(l.reg.events)
  }

  /** What was handed over so far, in the order the peer gets it. */
  function Wire(l: Link): bytes {
    l.accepted + l.out
  }

  /** A new interest mask, passed on by `updateInPoll(ModEvent)`. */
  function WithEvents(l: Link, events: Mask): Link {
    l.(reg := AfterUpdateInPoll(l.reg.(events := events), ModEvent))
  }

  predicate WritesDirectly(l: Link) {
    !Writing(l) && l.out == []
  }

  /** Whether a message that reaches `sendInLoop` is dropped there. */
  predicate Dropped(l: Link, w: WriteResult) {
    l.state == Disconnected || (WritesDirectly(l) && w == Fault)
  }

  /** Whether the direct write takes all of the message, so that the callback is made. */
  predicate Completes(l: Link, message: bytes, w: WriteResult) {
    WritesDirectly(l) && w.Wrote? && w.most >= |message|
  }

  /** How much of the message the direct write takes. */
  function TakenNow(l: Link, message: bytes, w: WriteResult): (n: nat)
    ensures n <= |message|
  {
    if WritesDirectly(l) then Taken(w, |message|) else 0
  }

  /** What the direct write leaves. */
  function Rest(l: Link, message: bytes, w: WriteResult): bytes {
    message[TakenNow(l, message, w)..]
  }

  function Given(l: Link, message: bytes, w: WriteResult): Link {
    l.(accepted := l.accepted + message[..TakenNow(l, message, w)], submitted := l.submitted + message)
  }

  /** The argument of the high-water callback, made when the backlog crosses the mark upwards. */
  function HighWater(l: Link, message: bytes, w: WriteResult): Option<nat> {
    var after := |l.out| + |Rest(l, message, w)|;
    if !Dropped(l, w) && |l.out| < l.mark <= after then Some(after) else None
  }

  function Enqueue(l: Link, rest: bytes): Link {
    var l1 := l.(out := l.out + rest);
    if rest == [] || Writing(l) then l1 else WithEvents(l1, l.reg.events + WRITE_EVENT)
  }

  lemma EnqueueNothing(l: Link)
    ensures Enqueue(l, []) == l
  {
  }

  /** After the direct write, and after the high-water callback if it is made. */
  function Called(l: Link, message: bytes, w: WriteResult, high: seq<Act>): Link
    decreases high, 1
  {
    if HighWater(l, message, w).Some? then DoActs(Given(l, message, w), high) else Given(l, message, w)
  }

  /** The high-water callback comes after the direct write and before the rest is queued. */
  function SendInLoop(l: Link, message: bytes, w: WriteResult, calls: Calls): Link
    decreases calls, 1
  {
    if Dropped(l, w) then l
    else if Completes(l, message, w) then DoActs(Given(l, message, w), calls.done)
    else Enqueue(Called(l, message, w, calls.high), Rest(l, message, w))
  }

  lemma SendCases(l: Link, message: bytes, w: WriteResult, calls: Calls)
    ensures SendInLoop(l, message, w, calls) ==
            if Dropped(l, w) then l
            else if Completes(l, message, w) then DoActs(Given(l, message, w), calls.done)
            else Enqueue(Called(l, message, w, calls.high), Rest(l, message, w))
    ensures Dropped(l, w) || Completes(l, message, w) ==> HighWater(l, message, w) == None
  {
  }

  function Send(l: Link, message: bytes, w: WriteResult, calls: Calls): Link
    decreases calls, 2
  {
    if l.state == Connected then SendInLoop(l, message, w, calls) else l
  }

  function DoAct(l: Link, a: Act): Link
    decreases a, 3
  {
    match a
    case ActSend(message, w, calls) => Send(l, message, w, calls)
    case ActShutdown => Shutdown(l)
    case ActForceClose => ForceClose(l)
  }

  function DoActs(l: Link, acts: seq<Act>): Link
    decreases acts, 0
  {
    if acts == [] then l else DoActs(DoAct(l, acts[0]), acts[1..])
  }

  function ShutdownInLoop(l: Link): Link {
    if Writing(l) then l else l.(fins := l.fins + [Fin(l.accepted, l.submitted, l.state)])
  }

  function Shutdown(l: Link): Link {
    if l.state == Connected then ShutdownInLoop(l.(state := Disconnecting)) else l
  }

  /** The second half is always queued, also from the loop thread. */
  function ForceClose(l: Link): Link {
    if l.state == Connected then l.(state := Disconnecting, queue := l.queue + [ForceCloseTask]) else l
  }

  /** A call from another thread: the state changes at once and the rest is queued. */
  function CallOffLoop(l: Link, task: Task): Link {
    if l.state != Connected then l
    else
      match task
      case SendTask(_) => l.(queue := l.queue + [task])
      case ShutdownTask => l.(state := Disconnecting, queue := l.queue + [task])
      case ForceCloseTask => ForceClose(l)
  }

  /** The queued halves: a send checks for `kDisconnected` only, and `forceCloseInLoop` finds
      the state it tests for already gone. */
  function RunTask(l: Link, task: Task, w: WriteResult, calls: Calls): Link {
    match task
    case SendTask(message) => SendInLoop(l, message, w, calls)
    case ShutdownTask => ShutdownInLoop(l)
    case ForceCloseTask => if l.state == Connected then HandleClose(l) else l
  }

  /** The queue without its oldest functor. */
  function Popped(l: Link): Link
    requires l.queue != []
  {
    l.(queue := l.queue[1..])
  }

  /** Whether a write takes all that is queued. */
  predicate Drains(l: Link, w: WriteResult) {
    Writing(l) && l.out != [] && Taken(w, |l.out|) == |l.out|
  }

  /** The backlog is gone and writability no longer watched: the state in which the
      write-complete callback finds the connection. */
  function Emptied(l: Link): Link {
    WithEvents(l.(accepted := l.accepted + l.out, out := []), l.reg.events - WRITE_EVENT)
  }

  /** The callback comes before the test that half-closes for a shutdown made earlier. */
  function AfterDrain(l: Link, done: seq<Act>): Link {
    var l1 := DoActs(l, done);
    if l1.state == Disconnecting then ShutdownInLoop(l1) else l1
  }

  function HandleWrite(l: Link, w: WriteResult, done: seq<Act>): Link {
    var n := Taken(w, |l.out|);
    if !Writing(l) || n == 0 then l
    else if n < |l.out| then l.(accepted := l.accepted + l.out[..n], out := l.out[n..])
    else AfterDrain(Emptied(l), done)
  }

  /** The source asserts that the connection is not closed yet. */
  function HandleClose(l: Link): Link
    requires l.state != Disconnected
  {
    WithEvents(l.(state := Disconnected, closes := l.closes + 1), {})
  }

  datatype ReadOutcome = Data(acts: seq<Act>) | Eof | ReadError

  function HandleRead(l: Link, read: ReadOutcome): Link
    requires read == Eof ==> l.state != Disconnected
  {
    match read
    case Data(acts) => DoActs(l, acts)
    case Eof => HandleClose(l)
    case ReadError => l
  }

  predicate ClosesOnHup(revents: Mask) {
    HUP in revents && IN !in revents
  }

  predicate Reads(revents: Mask) {
    revents * {IN, PRI, RDHUP} != {}
  }

  /** Whether one dispatch keeps the assertion of `handleClose`. */
  predicate DispatchSafe(l: Link, revents: Mask, read: ReadOutcome) {
    && (ClosesOnHup(revents) ==> l.state != Disconnected)
    && (Reads(revents) && read == Eof ==> l.state != Disconnected && !ClosesOnHup(revents))
  }

  function BeforeRead(l: Link, revents: Mask): Link
    requires ClosesOnHup(revents) ==> l.state != Disconnected
  {
    if ClosesOnHup(revents) then HandleClose(l) else l
  }

  function BeforeWrite(l: Link, revents: Mask, read: ReadOutcome): Link
    requires DispatchSafe(l, revents, read)
  {
    if Reads(revents) then HandleRead(BeforeRead(l, revents), read) else BeforeRead(l, revents)
  }

  /** `FdHandler::handleEvent`; the error branch only logs. */
  function HandleEvent(l: Link, revents: Mask, read: ReadOutcome, w: WriteResult, done: seq<Act>): Link
    requires DispatchSafe(l, revents, read)
  {
    var l1 := BeforeWrite(l, revents, read);
    if OUT in revents then HandleWrite(l1, w, done) else l1
  }

  /** What epoll reports: watched bits, and ERR and HUP unasked. */
  predicate Reported(l: Link, revents: Mask) {
    l.reg.kernel.Some? && revents <= l.reg.kernel.value + {ERR, HUP}
  }

  // ----- What holds whatever the callbacks do -----

  /** The registration and the write interest fit the state and the backlog, also in the middle
      of a call; only sends are queued while the connection is up. */
  ghost predicate Sound(l: Link) {
    && Coherent(l.reg) && Synced(l.reg)
    && (l.state != Disconnected ==>
          l.reg.inPoll == Added && l.reg.events == READ_EVENT + (if l.out == [] then {} else WRITE_EVENT))
    && (l.state == Disconnected ==> l.reg.inPoll == Deleted && l.reg.events == {})
    && l.closes == (if l.state == Disconnected then 1 else 0)
    && (l.state == Connected ==> l.fins == [] && forall i :: 0 <= i < |l.queue| ==> l.queue[i].SendTask?)
  }

  function Rank(s: LinkState): nat {
    match s
    case Connected => 0
    case Disconnecting => 1
    case Disconnected => 2
  }

  /** What a call may do: move the state forward, and append to what was accepted, handed over
      and submitted. No byte is lost or made up: what is handed over is what is submitted,
      perhaps in another order. */
  ghost predicate Forward(l: Link, m: Link) {
    && Rank(l.state) <= Rank(m.state) && l.mark == m.mark
    && l.accepted <= m.accepted && l.submitted <= m.submitted && Wire(l) <= Wire(m) && l.fins <= m.fins
    && |Wire(m)| + |l.submitted| == |Wire(l)| + |m.submitted|
    && multiset(Wire(m)) + multiset(l.submitted) == multiset(Wire(l)) + multiset(m.submitted)
  }

  lemma WritingIsBacklog(l: Link)
    requires Sound(l)
    ensures l.state != Disconnected ==> (Writing(l) <==> l.out != [])
    ensures l.state == Disconnected ==> !Writing(l)
  {
  }

  lemma EventsAlgebra()
    ensures READ_EVENT + {} + WRITE_EVENT == READ_EVENT + WRITE_EVENT
    ensures READ_EVENT + WRITE_EVENT - WRITE_EVENT == READ_EVENT + {}
    ensures READ_EVENT + {} != {} && READ_EVENT + WRITE_EVENT != {}
  {
  }

  lemma ForwardRefl(l: Link)
    ensures Forward(l, l)
  {
  }

  lemma ForwardTrans(l: Link, m: Link, n: Link)
    requires Forward(l, m) && Forward(m, n)
    ensures Forward(l, n)
  {
    hide Wire;
    var wl, wm, wn := multiset(Wire(l)), multiset(Wire(m)), multiset(Wire(n));
    var sl, sm, sn := multiset(l.submitted), multiset(m.submitted), multiset(n.submitted);
    assert wn + sl == wl + sn by {
      forall c: byte ensures (wn + sl)[c] == (wl + sn)[c] {
        assert (wm + sl)[c] == (wl + sm)[c] && (wn + sm)[c] == (wm + sn)[c];
      }
    }
  }

  /** The direct write adds its part to what is handed over. */
  lemma GivenBytes(l: Link, message: bytes, w: WriteResult)
    requires Sound(l) && !Dropped(l, w)
    ensures var g, rest := Given(l, message, w), Rest(l, message, w);
            var taken := message[..TakenNow(l, message, w)];
            && Sound(g) && g.state == l.state && g.fins == l.fins && message == taken + rest
            && Wire(g) == Wire(l) + taken && g.submitted == l.submitted + message
    ensures Completes(l, message, w) ==> Rest(l, message, w) == []
  {
    var taken := message[..TakenNow(l, message, w)];
    assert message == taken + Rest(l, message, w);
    NothingMore(l.accepted + taken);
    NothingMore(l.accepted);
    NothingMore(l.accepted + l.out);
  }

  /** A message the direct write takes whole leaves no backlog behind. */
  lemma GivenWhole(l: Link, message: bytes, w: WriteResult)
    requires Sound(l) && !Dropped(l, w) && Completes(l, message, w)
    ensures Sound(Given(l, message, w)) && Forward(l, Given(l, message, w)) && Given(l, message, w).out == []
  {
    GivenBytes(l, message, w);
    assert message[..|message|] == message;
  }

  lemma EnqueueSound(l: Link, rest: bytes)
    requires Sound(l) && l.state != Disconnected
    ensures var m := Enqueue(l, rest);
            && Sound(m) && Wire(m) == Wire(l) + rest && m.out == l.out + rest
            && m == l.(out := m.out, reg := m.reg)
  {
    WritingIsBacklog(l);
    EventsAlgebra();
    Assoc(l.accepted, l.out, rest);
    NothingMore(l.out);
    NothingMore(Wire(l));
  }

  /** The part before and the part after the callback make up one message. */
  lemma MessageForward(l: Link, g: Link, c: Link, m: Link, taken: bytes, rest: bytes)
    requires Wire(g) == Wire(l) + taken && g.submitted == l.submitted + (taken + rest) && Forward(g, c)
    requires g.state == l.state && g.mark == l.mark && g.fins == l.fins && l.accepted <= g.accepted
    requires m.state == c.state && m.mark == c.mark && m.fins == c.fins && m.accepted == c.accepted
    requires Wire(m) == Wire(c) + rest && m.submitted == c.submitted
    ensures Forward(l, m)
  {
    hide Wire;
    assert Wire(l) <= Wire(g) <= Wire(c) <= Wire(m);
    assert l.submitted <= g.submitted <= m.submitted;
    assert multiset(Wire(m)) == multiset(Wire(c)) + multiset(rest);
    assert multiset(g.submitted) == multiset(l.submitted) + (multiset(taken) + multiset(rest));
    assert multiset(Wire(g)) == multiset(Wire(l)) + multiset(taken);
    var wc, wl, sl, sm := multiset(Wire(c)), multiset(Wire(l)), multiset(l.submitted), multiset(m.submitted);
    var t, r := multiset(taken), multiset(rest);
    assert (wc + r) + sl == wl + sm by {
      forall b: byte ensures ((wc + r) + sl)[b] == (wl + sm)[b] {
        assert (wc + (sl + (t + r)))[b] == ((wl + t) + sm)[b];
      }
    }
  }

  /** A callback does not disconnect. */
  ghost predicate Kept(l: Link, m: Link) {
    Sound(m) && Forward(l, m) && (m.state == Disconnected <==> l.state == Disconnected)
  }

  lemma {:induction false} CalledKeeps(l: Link, message: bytes, w: WriteResult, high: seq<Act>)
    requires Sound(l) && !Dropped(l, w)
    ensures Kept(Given(l, message, w), Called(l, message, w, high))
    decreases high, 1
  {
    hide Sound, Forward, Given, DoActs, Dropped, TakenNow;
    GivenBytes(l, message, w);
    ForwardRefl(Given(l, message, w));
    DoActsKeeps(Given(l, message, w), high);
  }

  lemma {:induction false} SendInLoopKeeps(l: Link, message: bytes, w: WriteResult, calls: Calls)
    requires Sound(l)
    ensures Kept(l, SendInLoop(l, message, w, calls))
    decreases calls, 1
  {
    if Dropped(l, w) {
      ForwardRefl(l);
    } else if Completes(l, message, w) {
      CompletedKeeps(l, message, w, calls.done);
    } else {
      QueuedKeeps(l, message, w, calls.high);
    }
    hide Kept, Given, Called, Enqueue, DoActs, Completes, Dropped, TakenNow;
  }

  lemma {:induction false} CompletedKeeps(l: Link, message: bytes, w: WriteResult, done: seq<Act>)
    requires Sound(l) && !Dropped(l, w) && Completes(l, message, w)
    ensures Kept(l, DoActs(Given(l, message, w), done))
    decreases done, 1
  {
    GivenWhole(l, message, w);
    var g := Given(l, message, w);
    DoActsKeeps(g, done);
    assert g.state == l.state;
    hide Sound, Forward, Given, DoActs, Dropped, Completes;
    ForwardTrans(l, g, DoActs(g, done));
  }

  /** What the kernel did not take goes behind whatever the callback left queued. */
  lemma {:induction false} QueuedKeeps(l: Link, message: bytes, w: WriteResult, high: seq<Act>)
    requires Sound(l) && !Dropped(l, w)
    ensures Kept(l, Enqueue(Called(l, message, w, high), Rest(l, message, w)))
    decreases high, 2
  {
    GivenBytes(l, message, w);
    CalledKeeps(l, message, w, high);
    var g, c, rest := Given(l, message, w), Called(l, message, w, high), Rest(l, message, w);
    assert l.state != Disconnected && g.mark == l.mark && l.accepted <= g.accepted;
    hide Sound, Forward, Given, Called, Dropped, TakenNow, Rest, Wire;
    EnqueueSound(c, rest);
    hide Enqueue;
    MessageForward(l, g, c, Enqueue(c, rest), message[..TakenNow(l, message, w)], rest);
  }

  lemma ShutdownKeeps(l: Link)
    requires Sound(l)
    ensures Kept(l, Shutdown(l))
    ensures var m := Shutdown(l);
            m.accepted == l.accepted && m.submitted == l.submitted && m.out == l.out && m.queue == l.queue
  {
  }

  lemma ForceCloseKeeps(l: Link)
    requires Sound(l)
    ensures Kept(l, ForceClose(l))
  {
  }

  lemma {:induction false} DoActKeeps(l: Link, a: Act)
    requires Sound(l)
    ensures Kept(l, DoAct(l, a))
    decreases a, 3
  {
    hide SendInLoop, Shutdown, ForceClose, Sound, Forward;
    match a
    case ActSend(message, w, calls) =>
      SendInLoopKeeps(l, message, w, calls);
      ForwardRefl(l);
    case ActShutdown => ShutdownKeeps(l);
    case ActForceClose => ForceCloseKeeps(l);
  }

  /** Whatever the owner does from its callbacks keeps the connection sound, loses no byte and
      only moves forward. */
  lemma {:induction false} DoActsKeeps(l: Link, acts: seq<Act>)
    requires Sound(l)
    ensures Kept(l, DoActs(l, acts))
    decreases acts, 0
  {
    hide Sound, DoAct, Forward;
    if acts == [] {
      ForwardRefl(l);
    } else {
      DoActKeeps(l, acts[0]);
      DoActsKeeps(DoAct(l, acts[0]), acts[1..]);
      ForwardTrans(l, DoAct(l, acts[0]), DoActs(l, acts));
    }
  }

  lemma ShutdownInLoopKeeps(l: Link)
    requires Sound(l) && l.state != Connected
    ensures Kept(l, ShutdownInLoop(l))
  {
  }

  lemma EmptiedKeeps(l: Link)
    requires Sound(l) && Writing(l)
    ensures Kept(l, Emptied(l)) && Emptied(l).state == l.state && !Writing(Emptied(l))
    ensures Emptied(l).submitted == l.submitted && Wire(Emptied(l)) == Wire(l)
  {
    WritingIsBacklog(l);
    EventsAlgebra();
    NothingMore(l.accepted + l.out);
  }

  lemma AfterDrainKeeps(l: Link, done: seq<Act>)
    requires Sound(l)
    ensures Kept(l, AfterDrain(l, done))
  {
    hide Sound, DoActs, Forward, ShutdownInLoop;
    DoActsKeeps(l, done);
    var m := DoActs(l, done);
    if m.state == Disconnecting {
      ShutdownInLoopKeeps(m);
      ForwardTrans(l, m, ShutdownInLoop(m));
    }
  }

  lemma PartialWriteKeeps(l: Link, n: nat)
    requires Sound(l) && Writing(l) && n < |l.out|
    ensures var m := l.(accepted := l.accepted + l.out[..n], out := l.out[n..]); Kept(l, m) && Wire(m) == Wire(l)
  {
    WritingIsBacklog(l);
    assert l.out == l.out[..n] + l.out[n..];
    Assoc(l.accepted, l.out[..n], l.out[n..]);
  }

  lemma HandleWriteKeeps(l: Link, w: WriteResult, done: seq<Act>)
    requires Sound(l)
    ensures Kept(l, HandleWrite(l, w, done))
  {
    hide Sound, AfterDrain, Emptied, Forward;
    ForwardRefl(l);
    var n := Taken(w, |l.out|);
    if Writing(l) && n < |l.out| {
      PartialWriteKeeps(l, n);
    } else if Writing(l) {
      EmptiedKeeps(l);
      AfterDrainKeeps(Emptied(l), done);
      ForwardTrans(l, Emptied(l), AfterDrain(Emptied(l), done));
    }
  }

  lemma HandleCloseKeeps(l: Link)
    requires Sound(l) && l.state != Disconnected
    ensures Sound(HandleClose(l)) && Forward(l, HandleClose(l))
    ensures var m := HandleClose(l); m == l.(state := Disconnected, reg := m.reg, closes := m.closes)
  {
  }

  lemma CallOffLoopKeeps(l: Link, task: Task)
    requires Sound(l)
    ensures Kept(l, CallOffLoop(l, task))
  {
  }

  lemma RunTaskKeeps(l: Link, task: Task, w: WriteResult, calls: Calls)
    requires Sound(l) && (task.SendTask? || l.state != Connected)
    ensures Kept(l, RunTask(l, task, w, calls))
  {
    hide Sound, SendInLoop, ShutdownInLoop, Forward;
    match task
    case SendTask(message) => SendInLoopKeeps(l, message, w, calls);
    case ShutdownTask => ShutdownInLoopKeeps(l);
    case ForceCloseTask => ForwardRefl(l);
  }

  /** A POLLOUT left over after a close in the same dispatch has no effect, nor has a send. */
  lemma NothingAfterClose(l: Link, message: bytes, w: WriteResult, calls: Calls)
    requires Sound(l) && l.state == Disconnected
    ensures HandleWrite(l, w, calls.done) == l && SendInLoop(l, message, w, calls) == l && Shutdown(l) == l
  {
  }

  lemma BeforeReadKeeps(l: Link, revents: Mask)
    requires Sound(l) && (ClosesOnHup(revents) ==> l.state != Disconnected)
    ensures Sound(BeforeRead(l, revents)) && Forward(l, BeforeRead(l, revents))
    ensures var m := BeforeRead(l, revents);
            m.fins == l.fins && m.out == l.out && m.accepted == l.accepted && m.submitted == l.submitted
  {
    ForwardRefl(l);
    if l.state != Disconnected {
      HandleCloseKeeps(l);
    }
    hide Sound, Forward, HandleClose;
  }

  lemma BeforeWriteKeeps(l: Link, revents: Mask, read: ReadOutcome)
    requires Sound(l) && DispatchSafe(l, revents, read)
    ensures Sound(BeforeWrite(l, revents, read)) && Forward(l, BeforeWrite(l, revents, read))
  {
    BeforeReadKeeps(l, revents);
    var l1 := BeforeRead(l, revents);
    if Reads(revents) {
      ReadKeeps(l1, read);
      hide Sound, Forward, HandleRead, BeforeRead;
      ForwardTrans(l, l1, HandleRead(l1, read));
    }
  }

  lemma ReadKeeps(l: Link, read: ReadOutcome)
    requires Sound(l) && (read == Eof ==> l.state != Disconnected)
    ensures Sound(HandleRead(l, read)) && Forward(l, HandleRead(l, read))
  {
    hide Sound, Forward, DoActs, HandleClose;
    match read
    case Data(acts) => DoActsKeeps(l, acts);
    case Eof => HandleCloseKeeps(l);
    case ReadError => ForwardRefl(l);
  }

  lemma HandleEventKeeps(l: Link, revents: Mask, read: ReadOutcome, w: WriteResult, done: seq<Act>)
    requires Sound(l) && DispatchSafe(l, revents, read)
    ensures Sound(HandleEvent(l, revents, read, w, done)) && Forward(l, HandleEvent(l, revents, read, w, done))
  {
    hide Sound, HandleWrite, BeforeWrite, DispatchSafe, Forward;
    BeforeWriteKeeps(l, revents, read);
    var l1 := BeforeWrite(l, revents, read);
    HandleWriteKeeps(l1, w, done);
    ForwardTrans(l, l1, HandleWrite(l1, w, done));
  }

  /** With a kernel that reports only what is watched, plus ERR and HUP, one dispatch breaks the
      assertion of `handleClose` exactly when HUP comes with PRI but without IN and the read
      then finds the end of the stream. */
  lemma DispatchAssertion(l: Link, revents: Mask, read: ReadOutcome)
    requires Sound(l) && Reported(l, revents)
    ensures !DispatchSafe(l, revents, read) <==> {HUP, PRI} <= revents && IN !in revents && read == Eof
  {
  }

  lemma PreparedSound(mark: nat)
    ensures Sound(Prepared(mark)) && Wire(Prepared(mark)) == []
  {
    assert READ_EVENT + {} == READ_EVENT;
  }

  /** Such a dispatch: a new connection, HUP and PRI, and nothing to read. */
  lemma CloseAssertionBreaks(mark: nat)
    ensures var l := Prepared(mark);
            Sound(l) && Reported(l, {HUP, PRI}) && !DispatchSafe(l, {HUP, PRI}, Eof)
  {
    PreparedSound(mark);
    assert PRI in {HUP, PRI} * {IN, PRI, RDHUP};
  }

  lemma ActRefused(l: Link, a: Act)
    requires l.state != Connected
    ensures DoAct(l, a) == l
  {
  }

  /** Once the connection is not up, nothing the owner does changes it. */
  lemma {:induction false} ActsRefused(l: Link, acts: seq<Act>)
    requires l.state != Connected
    ensures DoActs(l, acts) == l
    decreases |acts|
  {
    if acts != [] {
      ActRefused(l, acts[0]);
      ActsRefused(l, acts[1..]);
    }
  }

  lemma NoActs(l: Link)
    ensures DoActs(l, []) == l
  {
  }

  lemma OneAct(l: Link, a: Act)
    ensures DoActs(l, [a]) == DoAct(l, a)
  {
    hide DoAct;
    assert [a][1..] == [];
    NoActs(DoAct(l, a));
  }

  // ----- What a dispatch does, bit by bit -----

  /** What can be reported: input until the connection is closed, writability exactly while there
      is a backlog, and errors. */
  lemma ReportedBits(l: Link, revents: Mask)
    requires Sound(l)
    ensures Reported(l, revents) <==>
              l.state != Disconnected
              && revents <= {IN, PRI, ERR, HUP} + if l.out != [] then {OUT} else {}
  {
  }

  /** HUP without IN closes and does nothing else, whatever the other bits are. */
  lemma HangUpCloses(l: Link, revents: Mask, read: ReadOutcome, w: WriteResult, done: seq<Act>)
    requires Sound(l) && DispatchSafe(l, revents, read) && HUP in revents && IN !in revents
    ensures l.state != Disconnected && HandleEvent(l, revents, read, w, done) == HandleClose(l)
    ensures HandleEvent(l, revents, read, w, done).state == Disconnected
  {
    var m := HandleClose(l);
    HandleCloseKeeps(l);
    if read.Data? {
      ActsRefused(m, read.acts);
    }
    NothingAfterClose(m, [], w, Calls(done, []));
    hide DoActs, Sound, Forward, HandleWrite;
  }

  /** Any of IN, PRI and RDHUP reads once, also together with ERR, and IN also with HUP; then OUT
      writes. */
  lemma ReadableReads(l: Link, revents: Mask, read: ReadOutcome, w: WriteResult, done: seq<Act>)
    requires Sound(l) && DispatchSafe(l, revents, read) && (HUP in revents ==> IN in revents)
    requires IN in revents || PRI in revents || RDHUP in revents
    ensures var m := HandleEvent(l, revents, read, w, done);
            match read
            case Data(acts) => m == if OUT in revents then HandleWrite(DoActs(l, acts), w, done) else DoActs(l, acts)
            case Eof => l.state != Disconnected && m == HandleClose(l) && m.state == Disconnected
            case ReadError => m == if OUT in revents then HandleWrite(l, w, done) else l
  {
    var bits := revents * {IN, PRI, RDHUP};
    assert IN in bits || PRI in bits || RDHUP in bits;
    if read == Eof {
      HandleCloseKeeps(l);
      NothingAfterClose(HandleClose(l), [], w, Calls(done, []));
    }
    hide DoActs, Sound, Forward, HandleWrite;
  }

  /** Without any of those bits nothing is read or closed: OUT writes, and ERR does nothing. */
  lemma OnlyWrites(l: Link, revents: Mask, read: ReadOutcome, w: WriteResult, done: seq<Act>)
    requires DispatchSafe(l, revents, read) && revents <= {OUT, ERR, NVAL}
    ensures HandleEvent(l, revents, read, w, done) == if OUT in revents then HandleWrite(l, w, done) else l
  {
  }

  /** What epoll reports when the peer closes after the half-close: the connection ends. */
  lemma PeerClosed(l: Link, w: WriteResult, done: seq<Act>)
    requires Sound(l) && Reported(l, {IN, HUP})
    ensures DispatchSafe(l, {IN, HUP}, Eof) && HandleEvent(l, {IN, HUP}, Eof, w, done).state == Disconnected
  {
    DispatchAssertion(l, {IN, HUP}, Eof);
    ReadableReads(l, {IN, HUP}, Eof, w, done);
  }

  // ----- When the callbacks are made, and what the kernel takes -----

  /** The write-complete callback of a send is made exactly if nothing was queued and the kernel
      takes the whole message, be it empty; otherwise it makes no difference what it would do. */
  lemma WriteCompleteCallback(l: Link, message: bytes, w: WriteResult, calls: Calls)
    requires Sound(l) && l.state != Disconnected
    ensures if l.out == [] && w.Wrote? && w.most >= |message|
            then SendInLoop(l, message, w, calls)
                 == DoActs(l.(accepted := l.accepted + message, submitted := l.submitted + message), calls.done)
            else SendInLoop(l, message, w, calls) == SendInLoop(l, message, w, Calls([], calls.high))
  {
    WritingIsBacklog(l);
    assert message[..|message|] == message;
    hide DoActs;
  }

  /** The write-complete callback of `handleWrite` is made exactly if it empties the backlog. */
  lemma DrainCallback(l: Link, w: WriteResult, done: seq<Act>)
    requires Sound(l) && !(l.state != Disconnected && l.out != [] && w.Wrote? && w.most >= |l.out|)
    ensures HandleWrite(l, w, done) == HandleWrite(l, w, [])
  {
    WritingIsBacklog(l);
    hide DoActs;
  }

  /** The high-water callback is made exactly if the send takes the backlog from below the mark to
      the mark or above it, and its argument is the backlog that results. */
  lemma HighWaterIsCrossing(l: Link, message: bytes, w: WriteResult)
    requires Sound(l)
    ensures var m := SendInLoop(l, message, w, NO_CALLS);
            HighWater(l, message, w) == if |l.out| < l.mark <= |m.out| then Some(|m.out|) else None
  {
    if !Dropped(l, w) {
      GivenBytes(l, message, w);
      NoActs(Given(l, message, w));
      assert Given(l, message, w).out == l.out;
      if !Completes(l, message, w) {
        EnqueueSound(Given(l, message, w), Rest(l, message, w));
      }
    }
    hide DoActs, Sound, Given, Enqueue;
  }

  /** Without callbacks, a send has accepted what the kernel takes at once, if nothing was queued. */
  lemma SendTakes(l: Link, message: bytes, w: WriteResult)
    requires Sound(l)
    ensures var m := SendInLoop(l, message, w, NO_CALLS);
            var open := l.state != Disconnected && l.out == [] && w.Wrote?;
            |m.accepted| - |l.accepted| == if !open then 0 else if w.most < |message| then w.most else |message|
  {
    WritingIsBacklog(l);
    NoActs(Given(l, message, w));
    hide DoActs;
  }

  /** And so has `handleWrite`; a failed write changes nothing. */
  lemma WriteTakes(l: Link, w: WriteResult)
    requires Sound(l)
    ensures var m := HandleWrite(l, w, []);
            && (l.state == Disconnected || !w.Wrote? || w.most == 0 ==> m == l)
            && (l.state != Disconnected && w.Wrote? ==>
                  && |m.accepted| - |l.accepted| == (if w.most < |l.out| then w.most else |l.out|)
                  && Wire(m) == Wire(l) && m.state == l.state)
  {
    WritingIsBacklog(l);
    if Writing(l) {
      EmptiedKeeps(l);
      NoActs(Emptied(l));
      if Taken(w, |l.out|) < |l.out| {
        PartialWriteKeeps(l, Taken(w, |l.out|));
      }
    }
    hide DoActs;
  }
}
