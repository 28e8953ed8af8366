/** The two promises a callback can break, and exactly when it does: the peer gets the bytes in
    the order of the sends, and a half-close comes after everything submitted was accepted. */
module LinkOrder {
  import opened Bytes
  import opened Pollers
  import opened LinkProtocol

  /** Before disconnection, everything submitted was accepted by each half-close. */
  predicate Drained(fins: seq<Fin>) {
    forall i :: 0 <= i < |fins| ==> fins[i].state != Disconnected ==> fins[i].accepted == fins[i].submitted
  }

  /** The promises, between calls. */
  ghost predicate Inv(l: Link) {
    Sound(l) && Wire(l) == l.submitted && Drained(l.fins)
  }

  /** What `b` has beyond its prefix `a`. */
  function Beyond(a: bytes, b: bytes): bytes {
    if |a| <= |b| then b[|a|..] else []
  }

  /** What a call handed over, and what it submitted. */
  function Wired(l: Link, m: Link): bytes {
    Beyond(Wire(l), Wire(m))
  }

  function Sent(l: Link, m: Link): bytes {
    Beyond(l.submitted, m.submitted)
  }

  /** Whether what the high-water callback hands over may go before the rest of the message: the
      bytes are the same as with the rest first. Without a callback nothing is handed over. */
  predicate Commutes(l: Link, message: bytes, w: WriteResult, high: seq<Act>) {
    var g, c, rest := Given(l, message, w), Called(l, message, w, high), Rest(l, message, w);
    Wired(g, c) + rest == rest + Sent(g, c)
  }

  /** Whether a send keeps the order, its callbacks included. */
  predicate OrderlySend(l: Link, message: bytes, w: WriteResult, calls: Calls)
    decreases calls, 1
  {
    if Dropped(l, w) then true
    else if Completes(l, message, w) then OrderlyActs(Given(l, message, w), calls.done)
    else Commutes(l, message, w, calls.high)
  }

  predicate OrderlyAct(l: Link, a: Act)
    decreases a, 3
  {
    l.state == Connected && a.ActSend? ==> OrderlySend(l, a.message, a.w, a.calls)
  }

  predicate OrderlyActs(l: Link, acts: seq<Act>)
    decreases acts, 0
  {
    acts == [] || (OrderlyAct(l, acts[0]) && OrderlyActs(DoAct(l, acts[0]), acts[1..]))
  }

  /** Whether a callback of the send shuts down a connection that has nothing queued. */
  predicate SendShutsDown(l: Link, message: bytes, w: WriteResult, calls: Calls)
    decreases calls, 1
  {
    !Dropped(l, w) &&
    if Completes(l, message, w) then ShutsDown(Given(l, message, w), calls.done)
    else HighWater(l, message, w).Some? && ShutsDown(Given(l, message, w), calls.high)
  }

  predicate ShutsDownNow(l: Link, a: Act)
    decreases a, 3
  {
    l.state == Connected &&
    match a
    case ActSend(message, w, calls) => SendShutsDown(l, message, w, calls)
    case ActShutdown => !Writing(l)
    case ActForceClose => false
  }

  /** Whether one of the owner's calls shuts down a connection that is up and has nothing
      queued, itself or from a callback of its send. */
  predicate ShutsDown(l: Link, acts: seq<Act>)
    decreases acts, 0
  {
    l.state == Connected && acts != [] && (ShutsDownNow(l, acts[0]) || ShutsDown(DoAct(l, acts[0]), acts[1..]))
  }

  /** Whether that is done from a high-water callback, before the rest of the message is queued. */
  predicate SendCutsOff(l: Link, message: bytes, w: WriteResult, calls: Calls)
    decreases calls, 1
  {
    !Dropped(l, w) &&
    if Completes(l, message, w) then CutsOff(Given(l, message, w), calls.done)
    else HighWater(l, message, w).Some? && ShutsDown(Given(l, message, w), calls.high)
  }

  predicate CutsOffNow(l: Link, a: Act)
    decreases a, 3
  {
    l.state == Connected && a.ActSend? && SendCutsOff(l, a.message, a.w, a.calls)
  }

  predicate CutsOff(l: Link, acts: seq<Act>)
    decreases acts, 0
  {
    l.state == Connected && acts != [] && (CutsOffNow(l, acts[0]) || CutsOff(DoAct(l, acts[0]), acts[1..]))
  }

  // ----- The order of the bytes -----

  lemma BeyondPrefix(a: bytes, b: bytes)
    ensures Beyond(a, a + b) == b
  {
  }

  lemma BeyondJoin(a: bytes, b: bytes, c: bytes)
    requires a <= b <= c
    ensures Beyond(a, c) == Beyond(a, b) + Beyond(b, c) && |Beyond(a, b)| == |b| - |a| && a + Beyond(a, b) == b
  {
  }

  lemma SplitEqual(a: bytes, b: bytes, c: bytes, d: bytes)
    requires |a| == |c|
    ensures a + b == c + d <==> a == c && b == d
  {
    if a + b == c + d {
      assert (a + b)[..|a|] == a && (c + d)[..|a|] == c;
      assert (a + b)[|a|..] == b && (c + d)[|a|..] == d;
    }
  }

  /** Of two steps in a row, each must keep the order. */
  lemma OrderOfTwo(l: Link, m: Link, n: Link)
    requires Forward(l, m) && Forward(m, n)
    ensures Wired(l, n) == Sent(l, n) <==> Wired(l, m) == Sent(l, m) && Wired(m, n) == Sent(m, n)
  {
    hide Wire;
    BeyondJoin(Wire(l), Wire(m), Wire(n));
    BeyondJoin(l.submitted, m.submitted, n.submitted);
    hide Beyond;
    SplitEqual(Wired(l, m), Wired(m, n), Sent(l, m), Sent(m, n));
  }

  lemma {:induction false} CompletedOrder(l: Link, message: bytes, w: WriteResult, done: seq<Act>)
    requires Sound(l) && !Dropped(l, w) && Completes(l, message, w)
    ensures var m := DoActs(Given(l, message, w), done);
            OrderlyActs(Given(l, message, w), done) <==> Wired(l, m) == Sent(l, m)
    decreases done, 1
  {
    var g := Given(l, message, w);
    GivenBytes(l, message, w);
    GivenWhole(l, message, w);
    NothingMore(message[..TakenNow(l, message, w)]);
    hide Sound, Given, DoActs, OrderlyActs, Completes, Dropped, TakenNow, Rest, Wire;
    BeyondPrefix(Wire(l), message);
    BeyondPrefix(l.submitted, message);
    DoActsKeeps(g, done);
    ActsOrder(g, done);
    hide Forward, Beyond;
    OrderOfTwo(l, g, DoActs(g, done));
  }

  lemma QueuedBytes(front: bytes, taken: bytes, more: bytes, rest: bytes)
    ensures front + taken + more + rest == front + (taken + (more + rest))
    ensures front + (taken + rest) + more == front + (taken + (rest + more))
  {
  }

  /** What comes before, and what the direct write took, has no part in the order. */
  lemma FrontsAside(wire: bytes, submitted: bytes, taken: bytes, a: bytes, b: bytes, rest: bytes)
    ensures Beyond(wire, wire + taken + a + rest) == Beyond(submitted, submitted + (taken + rest) + b)
            <==> a + rest == rest + b
    ensures wire + taken + a + rest == wire + (taken + rest) + b <==> a + rest == rest + b
  {
    QueuedBytes(wire, taken, a, rest);
    QueuedBytes(wire, taken, b, rest);
    QueuedBytes(submitted, taken, b, rest);
    BeyondPrefix(wire, taken + (a + rest));
    BeyondPrefix(submitted, taken + (rest + b));
    hide Beyond;
    SplitEqual(wire, taken + (a + rest), wire, taken + (rest + b));
    SplitEqual(taken, a + rest, taken, rest + b);
  }

  /** Whatever the callback does, the order is kept exactly if it commutes with the rest. */
  lemma {:induction false} QueuedOrder(l: Link, message: bytes, w: WriteResult, high: seq<Act>)
    requires Sound(l) && !Dropped(l, w)
    ensures var m := Enqueue(Called(l, message, w, high), Rest(l, message, w));
            Commutes(l, message, w, high) <==> Wired(l, m) == Sent(l, m)
  {
    GivenBytes(l, message, w);
    CalledKeeps(l, message, w, high);
    var g, c, rest := Given(l, message, w), Called(l, message, w, high), Rest(l, message, w);
    assert l.state != Disconnected;
    EnqueueSound(c, rest);
    BytesCalled(g, c);
    FrontsAside(Wire(l), l.submitted, message[..TakenNow(l, message, w)], Wired(g, c), Sent(g, c), rest);
    assert Wired(l, Enqueue(c, rest)) == Beyond(Wire(l), Wire(Enqueue(c, rest)));
    assert Sent(l, Enqueue(c, rest)) == Beyond(l.submitted, c.submitted);
    hide Given, Called, Dropped, TakenNow, Rest, Wire, Enqueue, Sound, Forward, Beyond, Wired, Sent;
  }

  lemma BytesCalled(g: Link, c: Link)
    requires Forward(g, c)
    ensures Wire(c) == Wire(g) + Wired(g, c) && c.submitted == g.submitted + Sent(g, c)
    ensures |Wired(g, c)| == |Sent(g, c)|
  {
    hide Wire;
    BeyondJoin(Wire(g), Wire(g), Wire(c));
    BeyondJoin(g.submitted, g.submitted, c.submitted);
  }

  lemma {:induction false} SendOrder(l: Link, message: bytes, w: WriteResult, calls: Calls)
    requires Sound(l)
    ensures var m := SendInLoop(l, message, w, calls);
            OrderlySend(l, message, w, calls) <==> Wired(l, m) == Sent(l, m)
    decreases calls, 1
  {
    if Dropped(l, w) {
      assert Wired(l, l) == [] == Sent(l, l);
    } else if Completes(l, message, w) {
      CompletedOrder(l, message, w, calls.done);
    } else {
      QueuedOrder(l, message, w, calls.high);
    }
    hide Sound, Given, Called, Enqueue, DoActs, Completes, Dropped, OrderlyActs, Commutes, Wired, Sent, Rest;
  }

  lemma {:induction false} ActOrder(l: Link, a: Act)
    requires Sound(l)
    ensures OrderlyAct(l, a) <==> Wired(l, DoAct(l, a)) == Sent(l, DoAct(l, a))
    decreases a, 3
  {
    if a.ActSend? {
      SendOrder(l, a.message, a.w, a.calls);
    }
    if l.state != Connected {
      ActRefused(l, a);
    }
    assert Wired(l, l) == [] == Sent(l, l);
    hide Sound, SendInLoop, OrderlySend;
  }

  /** The owner's calls hand over what they submit in the order of the sends exactly if every
      high-water callback made on the way commutes with the rest it comes before. */
  lemma {:induction false} ActsOrder(l: Link, acts: seq<Act>)
    requires Sound(l)
    ensures OrderlyActs(l, acts) <==> Wired(l, DoActs(l, acts)) == Sent(l, DoActs(l, acts))
    decreases acts, 0
  {
    if acts == [] {
      assert Wired(l, l) == [] == Sent(l, l);
    } else {
      var m := DoAct(l, acts[0]);
      ActOrder(l, acts[0]);
      DoActKeeps(l, acts[0]);
      ActsOrder(m, acts[1..]);
      DoActsKeeps(m, acts[1..]);
      hide Sound, Forward, DoAct, OrderlyAct, Wired, Sent;
      OrderOfTwo(l, m, DoActs(l, acts));
    }
  }

  /** Order lost is never regained, order kept is kept on. */
  lemma InOrderAfter(l: Link, m: Link)
    requires Forward(l, m) && |Wire(l)| == |l.submitted|
    ensures Wire(m) == m.submitted <==> Wire(l) == l.submitted && Wired(l, m) == Sent(l, m)
  {
    hide Wire;
    BytesCalled(l, m);
    hide Wired, Sent, Forward;
    SplitEqual(Wire(l), Wired(l, m), l.submitted, Sent(l, m));
  }

  // ----- The half-close -----

  /** How many submitted bytes were not accepted at a half-close, or not handed over so far. */
  function Gap(f: Fin): int {
    |f.submitted| - |f.accepted|
  }

  function Missing(l: Link): int {
    |l.submitted| - |Wire(l)|
  }

  /** From `l` to `m` the connection half-closed once: with everything handed over accepted and
      nothing queued after it, or else before the rest of a message. */
  ghost predicate HalfClosed(l: Link, m: Link, cutOff: bool) {
    && l.state == Connected && m.state == Disconnecting && |m.fins| == 1 && m.fins[0].state == Disconnecting
    && m.fins[0].accepted <= m.accepted && m.fins[0].submitted <= m.submitted
    && if cutOff then m.out != [] && Gap(m.fins[0]) > Missing(l)
       else m.out == [] && m.fins[0] == Fin(m.accepted, m.submitted, Disconnecting)
  }

  /** The fins a call adds: none, or one as `HalfClosed` says. */
  ghost predicate FinsAdded(l: Link, m: Link, shutsDown: bool, cutOff: bool) {
    if shutsDown then HalfClosed(l, m, cutOff) else m.fins == l.fins && !cutOff
  }

  lemma {:induction false} SendHalfCloses(l: Link, message: bytes, w: WriteResult, calls: Calls)
    requires Sound(l)
    ensures FinsAdded(l, SendInLoop(l, message, w, calls), SendShutsDown(l, message, w, calls),
                      SendCutsOff(l, message, w, calls))
    decreases calls, 1
  {
    if Dropped(l, w) {
    } else if Completes(l, message, w) {
      var g := Given(l, message, w);
      GivenWhole(l, message, w);
      ActsHalfClose(g, calls.done);
      assert g.state == l.state && Missing(g) == Missing(l);
    } else {
      QueuedHalfCloses(l, message, w, calls.high);
    }
    hide Sound, Given, Called, Enqueue, DoActs, Completes, Dropped, ShutsDown, CutsOff, HighWater;
  }

  lemma {:induction false} QueuedHalfCloses(l: Link, message: bytes, w: WriteResult, high: seq<Act>)
    requires Sound(l) && !Dropped(l, w)
    ensures var cut := HighWater(l, message, w).Some? && ShutsDown(Given(l, message, w), high);
            FinsAdded(l, Enqueue(Called(l, message, w, high), Rest(l, message, w)), cut, cut)
    decreases high, 1
  {
    GivenBytes(l, message, w);
    CalledKeeps(l, message, w, high);
    var g, c, rest := Given(l, message, w), Called(l, message, w, high), Rest(l, message, w);
    assert l.state != Disconnected;
    assert HighWater(l, message, w).Some? ==> c == DoActs(g, high) && rest != [];
    assert HighWater(l, message, w).None? ==> c == g;
    assert Missing(g) == Missing(l) + |rest|;
    ActsHalfClose(g, high);
    EnqueueSound(c, rest);
    hide Sound, Given, Called, Enqueue, DoActs, Dropped, ShutsDown, CutsOff, HighWater, Rest;
  }

  lemma {:induction false} ActHalfCloses(l: Link, a: Act)
    requires Sound(l)
    ensures FinsAdded(l, DoAct(l, a), ShutsDownNow(l, a), CutsOffNow(l, a))
    decreases a, 3
  {
    if l.state == Connected {
      match a
      case ActSend(message, w, calls) => SendHalfCloses(l, message, w, calls);
      case ActShutdown => WritingIsBacklog(l);
      case ActForceClose =>
    }
    hide Sound, SendInLoop, SendShutsDown, SendCutsOff;
  }

  /** What the owner does from one callback half-closes once at most, and exactly if it shuts
      the connection down while nothing is queued; something submitted is then still missing
      exactly if it does so from a high-water callback. */
  lemma {:induction false} ActsHalfClose(l: Link, acts: seq<Act>)
    requires Sound(l)
    ensures FinsAdded(l, DoActs(l, acts), ShutsDown(l, acts), CutsOff(l, acts))
    decreases acts, 0
  {
    if l.state != Connected {
      ActsRefused(l, acts);
    } else if acts != [] {
      var m := DoAct(l, acts[0]);
      ActHalfCloses(l, acts[0]);
      DoActKeeps(l, acts[0]);
      if m.state != Connected {
        ActsRefused(m, acts[1..]);
      } else {
        ActsHalfClose(m, acts[1..]);
      }
      hide Sound, DoAct, ShutsDownNow, CutsOffNow;
    }
  }

  // ----- Both promises -----

  /** The owner's calls keep both promises exactly if every high-water callback on the way
      commutes with the rest it comes before, and none shuts the connection down. */
  lemma ActsKeepInv(l: Link, acts: seq<Act>)
    requires Inv(l)
    ensures Inv(DoActs(l, acts)) <==> OrderlyActs(l, acts) && !CutsOff(l, acts)
  {
    DoActsKeeps(l, acts);
    ActsOrder(l, acts);
    ActsHalfClose(l, acts);
    PromisesKept(l, DoActs(l, acts), ShutsDown(l, acts), CutsOff(l, acts));
    hide DoActs, OrderlyActs, ShutsDown, CutsOff, Sound, Forward, Inv;
  }

  lemma PromisesKept(l: Link, m: Link, shutsDown: bool, cutOff: bool)
    requires Inv(l) && Sound(m) && Forward(l, m) && FinsAdded(l, m, shutsDown, cutOff)
    ensures Inv(m) <==> Wired(l, m) == Sent(l, m) && !cutOff
  {
    InOrderAfter(l, m);
    FinsDrained(l, m, shutsDown, cutOff);
    hide Sound, Wired, Sent, Forward, Wire, FinsAdded, Drained;
  }

  lemma FinsDrained(l: Link, m: Link, shutsDown: bool, cutOff: bool)
    requires Wire(l) == l.submitted && Drained(l.fins) && FinsAdded(l, m, shutsDown, cutOff)
    ensures if cutOff then !Drained(m.fins) else Wire(m) == m.submitted ==> Drained(m.fins)
  {
    if shutsDown {
      NothingMore(m.accepted);
      assert cutOff ==> Gap(m.fins[0]) > 0;
    }
  }

  /** The same at one send, whatever the mark: calling back from the high-water callback, with
      any calls and whatever their own callbacks do, keeps the promises exactly if what is handed
      over commutes with the rest, and nothing shuts the connection down. */
  lemma HighWaterCallback(l: Link, message: bytes, w: WriteResult, acts: seq<Act>)
    requires Inv(l) && l.state == Connected && !Dropped(l, w) && Rest(l, message, w) != []
    ensures var g, rest := Given(l, message, w), Rest(l, message, w);
            var c := DoActs(g, acts);
            Inv(Enqueue(c, rest)) <==> !ShutsDown(g, acts) && Wired(g, c) + rest == rest + Sent(g, c)
  {
    var g, rest := Given(l, message, w), Rest(l, message, w);
    var c := DoActs(g, acts);
    GivenBytes(l, message, w);
    DoActsKeeps(g, acts);
    ActsHalfClose(g, acts);
    EnqueueSound(c, rest);
    assert Missing(g) == Missing(l) + |rest| == |rest|;
    BytesCommute(l, g, c, message[..TakenNow(l, message, w)], rest);
    hide DoActs, Given, Rest, Dropped, ShutsDown, CutsOff, Sound, Forward, Enqueue, Wired, Sent, TakenNow;
  }

  lemma BytesCommute(l: Link, g: Link, c: Link, taken: bytes, rest: bytes)
    requires Wire(l) == l.submitted && Wire(g) == Wire(l) + taken && g.submitted == l.submitted + (taken + rest)
    requires Forward(g, c)
    ensures Wire(c) + rest == c.submitted <==> Wired(g, c) + rest == rest + Sent(g, c)
  {
    BytesCalled(g, c);
    hide Wire, Wired, Sent, Forward;
    FrontsAside(Wire(l), l.submitted, taken, Wired(g, c), Sent(g, c), rest);
  }

  /** If the calls themselves are orderly, in particular if none of their sends crosses the mark
      again, the condition is that the messages they send commute with the rest. */
  lemma SentCommutes(l: Link, message: bytes, w: WriteResult, acts: seq<Act>)
    requires Inv(l) && l.state == Connected && !Dropped(l, w) && Rest(l, message, w) != []
    requires OrderlyActs(Given(l, message, w), acts)
    ensures var g, rest := Given(l, message, w), Rest(l, message, w);
            var sent := Sent(g, DoActs(g, acts));
            Inv(Enqueue(DoActs(g, acts), rest)) <==> !ShutsDown(g, acts) && sent + rest == rest + sent
  {
    GivenBytes(l, message, w);
    ActsOrder(Given(l, message, w), acts);
    HighWaterCallback(l, message, w, acts);
    hide DoActs, Given, Rest, Dropped, ShutsDown, Inv, Enqueue, Wired, Sent, OrderlyActs;
  }

  // ----- Callbacks that break nothing -----

  predicate AllForceClose(acts: seq<Act>) {
    forall i :: 0 <= i < |acts| ==> acts[i].ActForceClose?
  }

  /** High-water callbacks that neither send nor shut down, at any depth. */
  predicate Considerate(acts: seq<Act>)
    decreases acts, 0
  {
    acts == [] || (ConsiderateAct(acts[0]) && Considerate(acts[1..]))
  }

  predicate ConsiderateAct(a: Act)
    decreases a, 1
  {
    a.ActSend? ==> AllForceClose(a.calls.high) && Considerate(a.calls.done)
  }

  lemma {:induction false} ForceClosesOnly(l: Link, acts: seq<Act>)
    requires AllForceClose(acts)
    ensures var m := DoActs(l, acts);
            Wire(m) == Wire(l) && m.submitted == l.submitted && !ShutsDown(l, acts)
    decreases |acts|
  {
    if acts != [] {
      ForceClosesOnly(ForceClose(l), acts[1..]);
      assert DoAct(l, acts[0]) == ForceClose(l);
    }
  }

  lemma {:induction false} ConsiderateSend(l: Link, message: bytes, w: WriteResult, calls: Calls)
    requires AllForceClose(calls.high) && Considerate(calls.done)
    ensures OrderlySend(l, message, w, calls) && !SendCutsOff(l, message, w, calls)
    decreases calls, 1
  {
    var g, rest := Given(l, message, w), Rest(l, message, w);
    ConsiderateKeeps(g, calls.done);
    ForceClosesOnly(g, calls.high);
    NothingMore(rest);
    var c := Called(l, message, w, calls.high);
    assert Wire(c) == Wire(g) && c.submitted == g.submitted;
    assert Wired(g, c) == [] == Sent(g, c);
    hide Given, Rest, Called, DoActs, ShutsDown, CutsOff, OrderlyActs, Wired, Sent, HighWater;
  }

  /** An owner whose high-water callbacks neither send nor shut down breaks no promise. */
  lemma {:induction false} ConsiderateKeeps(l: Link, acts: seq<Act>)
    requires Considerate(acts)
    ensures OrderlyActs(l, acts) && !CutsOff(l, acts)
    decreases acts, 0
  {
    if acts != [] {
      if acts[0].ActSend? {
        ConsiderateSend(l, acts[0].message, acts[0].w, acts[0].calls);
      }
      ConsiderateKeeps(DoAct(l, acts[0]), acts[1..]);
      hide DoAct, OrderlySend, SendCutsOff;
    }
  }

  // ----- Callbacks that do -----

  /** A send the kernel takes nothing of goes to the end of the backlog. */
  lemma QueuedSend(l: Link, message: bytes)
    requires Sound(l) && l.state == Connected
    ensures var m := DoAct(l, ActSend(message, WouldBlock, NO_CALLS));
            && Sound(m) && m == l.(out := m.out, submitted := m.submitted, reg := m.reg)
            && Wire(m) == Wire(l) + message && m.out == l.out + message && m.submitted == l.submitted + message
  {
    var a := ActSend(message, WouldBlock, NO_CALLS);
    var g := Given(l, message, WouldBlock);
    assert message[0..] == message && message[..0] == [];
    NothingMore(l.accepted);
    assert g == l.(submitted := l.submitted + message);
    NoActs(g);
    assert Called(l, message, WouldBlock, []) == g;
    assert DoAct(l, a) == Send(l, message, WouldBlock, NO_CALLS);
    assert Send(l, message, WouldBlock, NO_CALLS) == SendInLoop(l, message, WouldBlock, NO_CALLS);
    assert Sound(g) && Wire(g) == Wire(l);
    EnqueueSound(g, message);
  }

  /** On a new connection whose kernel takes nothing, the callback is made with nothing queued. */
  lemma CrossesAtOnce(mark: nat, message: bytes, calls: Calls)
    requires 0 < mark <= |message|
    ensures var l := Prepared(mark);
            var g := l.(submitted := message);
            && Sound(g) && !Writing(g) && Wire(g) == []
            && SendInLoop(l, message, WouldBlock, calls) == Enqueue(DoActs(g, calls.high), message)
  {
    var l := Prepared(mark);
    PreparedSound(mark);
    WritingIsBacklog(l);
    assert message[0..] == message && message[..0] == [];
    NothingMore(message);
    assert Given(l, message, WouldBlock) == l.(submitted := message);
  }

  /** A shutdown there: the half-close comes before the message it was made for. */
  lemma HighWaterShutdown(mark: nat, message: bytes)
    requires 0 < mark <= |message|
    ensures var m := SendInLoop(Prepared(mark), message, WouldBlock, Calls([], [ActShutdown]));
            && m.state == Disconnecting && m.fins == [Fin([], message, Disconnecting)]
            && m.out == message && m.accepted == []
  {
    CrossesAtOnce(mark, message, Calls([], [ActShutdown]));
    OneAct(Prepared(mark).(submitted := message), ActShutdown);
    NothingMore(message);
    hide DoActs;
  }

  /** A send the kernel takes at once, with a write-complete callback that shuts down: the
      half-close comes between the two messages, and one of them is still to be written. */
  lemma HighWaterSendAndShutdown(mark: nat, message: bytes)
    requires 0 < mark <= |message|
    ensures var second := ActSend(message, Wrote(|message|), Calls([ActShutdown], []));
            var m := SendInLoop(Prepared(mark), message, WouldBlock, Calls([], [second]));
            && m.fins == [Fin(message, message + message, Disconnecting)]
            && m.accepted == message && m.out == message
  {
    var calls := Calls([ActShutdown], []);
    var second := ActSend(message, Wrote(|message|), calls);
    CrossesAtOnce(mark, message, Calls([], [second]));
    var g := Prepared(mark).(submitted := message);
    OneAct(g, second);
    assert message[..|message|] == message;
    NothingMore(message);
    var g2 := Given(g, message, Wrote(|message|));
    assert g2 == g.(accepted := message, submitted := message + message);
    OneAct(g2, ActShutdown);
    assert DoAct(g, second) == Send(g, message, Wrote(|message|), calls);
    assert Send(g, message, Wrote(|message|), calls) == SendInLoop(g, message, Wrote(|message|), calls);
    assert SendInLoop(g, message, Wrote(|message|), calls) == DoActs(g2, calls.done);
    hide DoActs, SendInLoop, Given;
  }

  /** A send there overtakes the rest. */
  lemma HighWaterOvertakes(mark: nat, first: bytes, second: bytes)
    requires 0 < mark <= |first|
    ensures var m := SendInLoop(Prepared(mark), first, WouldBlock, Calls([], [ActSend(second, WouldBlock, NO_CALLS)]));
            Sound(m) && Wire(m) == second + first && m.submitted == first + second && m.fins == []
  {
    var a := ActSend(second, WouldBlock, NO_CALLS);
    CrossesAtOnce(mark, first, Calls([], [a]));
    var g := Prepared(mark).(submitted := first);
    OneAct(g, a);
    QueuedSend(g, second);
    EnqueueSound(DoAct(g, a), first);
    NothingMore(second);
    hide DoActs, DoAct, SendInLoop, Enqueue, Sound;
  }

  /** The calls have to be taken together: of these two sends each alone breaks the order, and
      both in a row do not. */
  lemma CommuteTogether(x: byte, y: byte)
    requires x != y
    ensures var l, a, b := Prepared(1), ActSend([x], WouldBlock, NO_CALLS), ActSend([y], WouldBlock, NO_CALLS);
            && Inv(SendInLoop(l, [x, y], WouldBlock, Calls([], [a, b])))
            && !Inv(SendInLoop(l, [x, y], WouldBlock, Calls([], [a])))
            && !Inv(SendInLoop(l, [x, y], WouldBlock, Calls([], [b])))
  {
    HighWaterOvertakes(1, [x, y], [x]);
    HighWaterOvertakes(1, [x, y], [y]);
    assert ([x] + [x, y])[1] != ([x, y] + [x])[1];
    assert ([y] + [x, y])[0] != ([x, y] + [y])[0];
    hide SendInLoop, Sound;
    BothSends(x, y);
  }

  lemma BothSends(x: byte, y: byte)
    ensures var a, b := ActSend([x], WouldBlock, NO_CALLS), ActSend([y], WouldBlock, NO_CALLS);
            Inv(SendInLoop(Prepared(1), [x, y], WouldBlock, Calls([], [a, b])))
  {
    var a, b := ActSend([x], WouldBlock, NO_CALLS), ActSend([y], WouldBlock, NO_CALLS);
    var g := Prepared(1).(submitted := [x, y]);
    CrossesAtOnce(1, [x, y], Calls([], [a, b]));
    QueuedSend(g, [x]);
    var m := DoAct(g, a);
    QueuedSend(m, [y]);
    assert [a, b][1..] == [b];
    OneAct(m, b);
    assert DoActs(g, [a, b]) == DoActs(m, [b]);
    EnqueueSound(DoAct(m, b), [x, y]);
    assert [] + [x] + [y] + [x, y] == [x, y] + [x] + [y];
    hide DoActs, DoAct, SendInLoop, Enqueue, Sound;
  }
}
