/** `LinkedSocket`: one TCP connection over its buffers, its handler and the poller. Each
    method refines its counterpart in `LinkProtocol`; `w` and `r` are what the kernel does. */
module LinkedSockets {
  import opened Bytes
  import opened Buffers
  import opened Pollers
  import opened LinkProtocol

  class LinkedSocket {
    var state: LinkState
    /** The `FdHandler` part of the object. */
    const handler: FdHandler
    const poller: Epoll
    /** Never initialised by the source: any value. */
    const highWaterMark: nat
    const inputBuffer: Buffer
    const outputBuffer: Buffer
    /** This connection's functors in the queue of its loop, the oldest first. */
    var queued: seq<Task>
    ghost var accepted: bytes
    ghost var submitted: bytes
    ghost var fins: seq<Fin>
    ghost var closes: nat

    /** The parts are in place and do not overlap. */
    ghost predicate Assembled()
      reads this, handler, poller, poller.live, inputBuffer, outputBuffer
      ensures Assembled() ==> inputBuffer.Valid() && outputBuffer.Valid()
    {
      && poller.Valid() && handler in poller.live
      && inputBuffer.Valid() && outputBuffer.Valid()
      && inputBuffer != outputBuffer && inputBuffer.store != outputBuffer.store
    }

    ghost function View(): Link
      requires outputBuffer.Indexed()
      reads this, handler, poller, outputBuffer, outputBuffer.store
    {
      Link(state, poller.View(handler), highWaterMark, queued, outputBuffer.Contents(), accepted, submitted, fins,
           closes)
    }

    /** Holds also inside a call, where the owner's callbacks find the object. */
    ghost predicate Valid()
      reads this, handler, poller, poller.live, inputBuffer, outputBuffer, outputBuffer.store
      ensures Valid() ==> inputBuffer.Valid() && outputBuffer.Valid()
      ensures Valid() ==> inputBuffer != outputBuffer && inputBuffer.store != outputBuffer.store
    {
      Assembled() && Sound(View())
    }

    constructor (poller: Epoll, fd: int, highWaterMark: nat)
      requires poller.Valid() && forall h :: h in poller.live ==> h.fd != fd
      modifies poller`live
      ensures Assembled() && View() == Prepared(highWaterMark).(reg := Registration(New, false, None, {}))
      ensures this.poller == poller && this.highWaterMark == highWaterMark && handler.fd == fd && fresh(handler)
      ensures fresh(inputBuffer) && fresh(outputBuffer) && fresh(inputBuffer.store) && fresh(outputBuffer.store)
      ensures poller.live == old(poller.live) + {handler}
      ensures inputBuffer.Contents() == []
    {
      this.poller := poller;
      this.highWaterMark := highWaterMark;
      handler := new FdHandler(fd);
      inputBuffer := new Buffer();
      outputBuffer := new Buffer();
      state, queued := Connected, [];
      accepted, submitted, fins, closes := [], [], [], 0;
      new;
      poller.Adopt(handler);
    }

    method Prepare()
      requires Assembled() && View() == Prepared(highWaterMark).(reg := Registration(New, false, None, {}))
      modifies handler`events, handler`inPoll, poller`fd2handler, poller`kernel
      ensures Valid() && View() == Prepared(highWaterMark)
      ensures forall h :: h in poller.live && h != handler ==> poller.View(h) == old(poller.View(h))
    {
      PreparedSound(highWaterMark);
      hide Sound;
      handler.EnableReading();
      assert handler.events == READ_EVENT;
      poller.EventsOnly(handler);
      hide Epoll.Valid;
      handler.UpdateInPoll(poller, AddEvent);
    }

    /** `enableWriting` or `disableWriting`, and the `updateInPoll` that always follows. */
    method WatchWriting(on: bool)
      requires Assembled() && handler.inPoll == Added
      modifies handler`events, handler`inPoll, poller`fd2handler, poller`kernel
      ensures Assembled()
      ensures var events := if on then old(handler.events) + WRITE_EVENT else old(handler.events) - WRITE_EVENT;
              View() == WithEvents(old(View()), events)
      ensures forall h :: h in poller.live && h != handler ==> poller.View(h) == old(poller.View(h))
    {
      hide AfterUpdate, AfterRemove;
      if on {
        handler.EnableWriting();
      } else {
        handler.DisableWriting();
      }
      poller.EventsOnly(handler);
      hide Epoll.Valid;
      handler.UpdateInPoll(poller, ModEvent);
    }

    /** `disableAll`, and the `updateInPoll` that follows. */
    method WatchNothing()
      requires Assembled() && handler.inPoll == Added
      modifies handler`events, handler`inPoll, poller`fd2handler, poller`kernel
      ensures Assembled() && View() == WithEvents(old(View()), {})
      ensures forall h :: h in poller.live && h != handler ==> poller.View(h) == old(poller.View(h))
    {
      hide AfterUpdate, AfterRemove;
      handler.DisableAll();
      poller.EventsOnly(handler);
      hide Epoll.Valid;
      handler.UpdateInPoll(poller, ModEvent);
    }

    /** Queues what the kernel did not take. */
    method EnqueueRest(rest: bytes)
      requires Assembled() && handler.inPoll == Added && rest != []
      modifies handler`events, handler`inPoll, poller`fd2handler, poller`kernel, outputBuffer, outputBuffer.store
      ensures Assembled() && View() == Enqueue(old(View()), rest)
      ensures forall h :: h in poller.live && h != handler ==> poller.View(h) == old(poller.View(h))
      ensures outputBuffer.store == old(outputBuffer.store) || fresh(outputBuffer.store)
    {
      hide Coherent, WithEvents;
      outputBuffer.Append(rest);
      if !IsWriting(handler.events) {
        WatchWriting(true);
      }
    }

    /** The direct write: what it takes is counted as accepted, and the message as submitted. */
    method WriteDirectly(data: bytes, w: WriteResult) returns (nwrote: nat, complete: bool)
      requires Valid() && !Dropped(View(), w)
      modifies this`accepted, this`submitted
      ensures Valid() && View() == Given(old(View()), data, w)
      ensures nwrote == TakenNow(old(View()), data, w) && complete == Completes(old(View()), data, w)
    {
      GivenBytes(View(), data, w);
      hide Sound;
      nwrote, complete := 0, false;
      if !IsWriting(handler.events) && outputBuffer.Readable() == 0 {
        nwrote := Taken(w, |data|);
        complete := w.Wrote? && nwrote == |data|;
      }
      accepted, submitted := accepted + data[..nwrote], submitted + data;
    }

    /** Tries to write at once when nothing is queued, and queues the rest. In the write-complete
        callback, made for a message taken whole, and in the high-water callback the owner makes
        its `calls`; `high` is the argument of the latter. */
    method SendInLoop(data: bytes, w: WriteResult, calls: Calls) returns (high: Option<nat>)
      requires Valid()
      modifies this, handler`events, handler`inPoll, poller`fd2handler, poller`kernel,
               outputBuffer, outputBuffer.store
      ensures Valid() && View() == LinkProtocol.SendInLoop(old(View()), data, w, calls)
      ensures high == HighWater(old(View()), data, w)
      ensures forall h :: h in poller.live && h != handler ==> poller.View(h) == old(poller.View(h))
      ensures outputBuffer.store == old(outputBuffer.store) || fresh(outputBuffer.store)
      decreases calls, 1
    {
      ghost var before := View();
      SendCases(before, data, w, calls);
      high := None;
      if Unsendable(w) {
        return;
      }
      hide LinkProtocol.SendInLoop, HighWater, Sound, Coherent, Enqueue, Given, DoActs, Called;
      hide Dropped, Completes, TakenNow, Rest, LinkedSocket.Valid, LinkedSocket.Assembled, IsWriting;
      var nwrote, complete := WriteDirectly(data, w);
      if complete {
        Perform(calls.done);
      } else {
        high := QueueRest(before, data, w, nwrote, calls.high);
      }
    }

    /** The part of `sendInLoop` after a write that did not take the whole message. */
    method QueueRest(ghost before: Link, data: bytes, w: WriteResult, nwrote: nat, calls: seq<Act>)
      returns (high: Option<nat>)
      requires Valid() && Sound(before) && View() == Given(before, data, w)
      requires !Dropped(before, w) && nwrote == TakenNow(before, data, w)
      modifies this, handler`events, handler`inPoll, poller`fd2handler, poller`kernel,
               outputBuffer, outputBuffer.store
      ensures Valid() && View() == Enqueue(Called(before, data, w, calls), Rest(before, data, w))
      ensures high == HighWater(before, data, w)
      ensures forall h :: h in poller.live && h != handler ==> poller.View(h) == old(poller.View(h))
      ensures outputBuffer.store == old(outputBuffer.store) || fresh(outputBuffer.store)
      decreases calls, 2
    {
      RestCases(before, data, w, calls);
      QueuedKeeps(before, data, w, calls);
      StillAdded(before, data, w, calls);
      hide Sound, Coherent, Enqueue, Given, DoActs, Called, Dropped, TakenNow, Rest, HighWater, Forward, IsWriting;
      hide Epoll.Valid;
      high := CallHighWater(before, data, w, |data| - nwrote, calls);
      if nwrote < |data| {
        EnqueueRest(data[nwrote..]);
      }
    }

    /** The high-water callback, made if what is about to be queued crosses the mark. */
    method CallHighWater(ghost before: Link, ghost data: bytes, ghost w: WriteResult, remaining: nat, calls: seq<Act>)
      returns (high: Option<nat>)
      requires Valid() && View() == Given(before, data, w)
      requires !Dropped(before, w) && remaining == |data| - TakenNow(before, data, w)
      modifies this, handler`events, handler`inPoll, poller`fd2handler, poller`kernel,
               outputBuffer, outputBuffer.store
      ensures Valid() && View() == Called(before, data, w, calls)
      ensures high == HighWater(before, data, w)
      ensures forall h :: h in poller.live && h != handler ==> poller.View(h) == old(poller.View(h))
      ensures outputBuffer.store == old(outputBuffer.store) || fresh(outputBuffer.store)
      decreases calls, 1
    {
      RestCases(before, data, w, calls);
      var oldLen := outputBuffer.Readable();
      assert oldLen == |before.out| && highWaterMark == before.mark;
      hide Given, DoActs, Called, Dropped, TakenNow, Rest, HighWater, Sound, LinkedSocket.Valid, LinkedSocket.View;
      high := None;
      if oldLen + remaining >= highWaterMark && oldLen < highWaterMark {
        high := Some(oldLen + remaining);
        Perform(calls);
      }
    }

    /** The two ways in which a message is dropped: the connection is closed, or the direct
        write finds the peer gone. */
    predicate Unsendable(w: WriteResult)
      requires Valid()
      reads this, handler, poller, poller.live, inputBuffer, outputBuffer, outputBuffer.store
      ensures Unsendable(w) == Dropped(View(), w)
    {
      state == Disconnected || (!IsWriting(handler.events) && outputBuffer.Readable() == 0 && w == Fault)
    }

    /** `send` of a message. */
    method Send(message: bytes, onLoop: bool, w: WriteResult, calls: Calls)
      requires Valid()
      modifies this, handler`events, handler`inPoll, poller`fd2handler, poller`kernel,
               outputBuffer, outputBuffer.store
      ensures Valid()
      ensures View() == if onLoop then LinkProtocol.Send(old(View()), message, w, calls)
                        else CallOffLoop(old(View()), SendTask(message))
      ensures forall h :: h in poller.live && h != handler ==> poller.View(h) == old(poller.View(h))
      ensures outputBuffer.store == old(outputBuffer.store) || fresh(outputBuffer.store)
      decreases calls, 2
    {
      hide LinkProtocol.SendInLoop, LinkedSocket.Valid;
      if state == Connected {
        if onLoop {
          var high := SendInLoop(message, w, calls);
        } else {
          QueueInLoop(SendTask(message));
        }
      }
    }

    /** `send` of a buffer, which is emptied unless the message is refused; it may be the
        connection's own input buffer. */
    method SendBuffer(buf: Buffer, onLoop: bool, w: WriteResult, calls: Calls)
      requires Valid() && buf.Valid()
      requires buf != outputBuffer && buf.store != outputBuffer.store
      modifies this, handler`events, handler`inPoll, poller`fd2handler, poller`kernel,
               outputBuffer, outputBuffer.store, buf`reader, buf`writer
      ensures Valid() && buf.Valid()
      ensures View() == if onLoop then LinkProtocol.Send(old(View()), old(buf.Contents()), w, calls)
                        else CallOffLoop(old(View()), SendTask(old(buf.Contents())))
      ensures buf.Contents() == if old(state) == Connected then [] else old(buf.Contents())
      ensures forall h :: h in poller.live && h != handler ==> poller.View(h) == old(poller.View(h))
      ensures outputBuffer.store == old(outputBuffer.store) || fresh(outputBuffer.store)
    {
      hide LinkProtocol.SendInLoop, LinkedSocket.Valid;
      if state == Connected {
        if onLoop {
          var high := SendInLoop(buf.Contents(), w, calls);
          Consume(buf);
        } else {
          QueueInLoop(SendTask(buf.Contents()));
          Consume(buf);
        }
      }
    }

    /** Empties a buffer that was sent. */
    method Consume(buf: Buffer)
      requires Valid() && buf.Valid()
      requires buf != outputBuffer && buf.store != outputBuffer.store
      modifies buf`reader, buf`writer
      ensures Valid() && buf.Valid() && buf.Contents() == [] && View() == old(View())
    {
      hide Sound;
      buf.RetrieveAll();
    }

    /** `queueInLoop`, with one of this connection's functors. */
    method QueueInLoop(task: Task)
      requires Valid() && (task.SendTask? || state != Connected)
      modifies this`queued
      ensures Valid() && View() == old(View()).(queue := old(queued) + [task])
    {
      hide Coherent, Synced;
      queued := queued + [task];
    }

    /** What the owner does from a callback, call by call. */
    method Perform(acts: seq<Act>)
      requires Valid()
      modifies this, handler`events, handler`inPoll, poller`fd2handler, poller`kernel,
               outputBuffer, outputBuffer.store
      ensures Valid() && View() == DoActs(old(View()), acts)
      ensures forall h :: h in poller.live && h != handler ==> poller.View(h) == old(poller.View(h))
      ensures outputBuffer.store == old(outputBuffer.store) || fresh(outputBuffer.store)
      decreases acts, 0
    {
      hide Sound, Coherent, LinkProtocol.SendInLoop, LinkProtocol.Shutdown, LinkProtocol.ForceClose;
      if acts != [] {
        match acts[0] {
          case ActSend(message, w, calls) => Send(message, true, w, calls);
          case ActShutdown => Shutdown(true);
          case ActForceClose => ForceClose();
        }
        Perform(acts[1..]);
      }
    }

    method Shutdown(onLoop: bool)
      requires Valid()
      modifies this`state, this`fins, this`queued
      ensures Valid()
      ensures View() == if onLoop then LinkProtocol.Shutdown(old(View())) else CallOffLoop(old(View()), ShutdownTask)
    {
      hide Coherent, Synced;
      if state == Connected {
        state := Disconnecting;
        if onLoop {
          ShutdownInLoop();
        } else {
          QueueInLoop(ShutdownTask);
        }
      }
    }

    method ShutdownInLoop()
      requires Valid() && state != Connected
      modifies this`fins
      ensures Valid() && View() == LinkProtocol.ShutdownInLoop(old(View()))
    {
      hide Coherent, Synced;
      if !IsWriting(handler.events) {
        fins := fins + [Fin(accepted, submitted, state)];
      }
    }

    /** The loop runs the oldest of this connection's functors. */
    method RunFunctor(w: WriteResult, calls: Calls)
      requires Valid() && queued != []
      modifies this, handler`events, handler`inPoll, poller`fd2handler, poller`kernel,
               outputBuffer, outputBuffer.store
      ensures Valid() && View() == RunTask(Popped(old(View())), old(queued)[0], w, calls)
      ensures forall h :: h in poller.live && h != handler ==> poller.View(h) == old(poller.View(h))
      ensures outputBuffer.store == old(outputBuffer.store) || fresh(outputBuffer.store)
    {
      hide LinkProtocol.SendInLoop, LinkProtocol.HandleClose, LinkProtocol.ShutdownInLoop, LinkedSocket.Valid;
      var functor := TakeFunctor();
      match functor
      case SendTask(message) => var high := SendInLoop(message, w, calls);
      case ShutdownTask => ShutdownInLoop();
      case ForceCloseTask => ForceCloseInLoop();
    }

    method TakeFunctor() returns (functor: Task)
      requires Valid() && queued != []
      modifies this`queued
      ensures Valid() && View() == Popped(old(View())) && functor == old(queued)[0]
      ensures functor.SendTask? || state != Connected
    {
      hide Coherent, Synced;
      functor := queued[0];
      queued := queued[1..];
    }

    /** Reads once. `notify` says that the owner's `rcvMessage` is called; on 0 bytes the
        connection is closed, and an error is only logged. */
    method HandleRead(r: ReadResult) returns (notify: bool)
      requires Valid() && (r.ReadBytes? ==> |r.data| <= inputBuffer.ReadLimit())
      requires r == ReadBytes([]) ==> state != Disconnected
      modifies this`state, this`closes, handler`events, handler`inPoll, poller`fd2handler, poller`kernel,
               inputBuffer, inputBuffer.store
      ensures Valid()
      ensures notify <==> r.ReadBytes? && r.data != []
      ensures View() == if r == ReadBytes([]) then LinkProtocol.HandleClose(old(View())) else old(View())
      ensures inputBuffer.Contents() == old(inputBuffer.Contents()) + if r.ReadBytes? then r.data else []
      ensures forall h :: h in poller.live && h != handler ==> poller.View(h) == old(poller.View(h))
      ensures inputBuffer.store == old(inputBuffer.store) || fresh(inputBuffer.store)
    {
      var n, savedErrno := inputBuffer.ReadFd(r);
      notify := n > 0;
      if n == 0 {
        HandleClose();
      }
    }

    /** The write-complete callback, and then the test for a shutdown. */
    method BacklogDrained(done: seq<Act>)
      requires Valid()
      modifies this, handler`events, handler`inPoll, poller`fd2handler, poller`kernel,
               outputBuffer, outputBuffer.store
      ensures Valid() && View() == AfterDrain(old(View()), done)
      ensures forall h :: h in poller.live && h != handler ==> poller.View(h) == old(poller.View(h))
      ensures outputBuffer.store == old(outputBuffer.store) || fresh(outputBuffer.store)
    {
      hide DoActs, LinkedSocket.Valid, LinkProtocol.ShutdownInLoop;
      Perform(done);
      if state == Disconnecting {
        ShutdownInLoop();
      }
    }

    method HandleWrite(w: WriteResult, done: seq<Act>)
      requires Valid()
      modifies this, handler`events, handler`inPoll, poller`fd2handler, poller`kernel,
               outputBuffer, outputBuffer.store
      ensures Valid() && View() == LinkProtocol.HandleWrite(old(View()), w, done)
      ensures forall h :: h in poller.live && h != handler ==> poller.View(h) == old(poller.View(h))
      ensures outputBuffer.store == old(outputBuffer.store) || fresh(outputBuffer.store)
    {
      TakeAll(outputBuffer.Contents());
      hide Sound, Coherent, AfterDrain, Emptied, Forward;
      var n := Taken(w, outputBuffer.Readable());
      if IsWriting(handler.events) && n > 0 {
        if n < outputBuffer.Readable() {
          TakePart(n);
        } else {
          TakeRest();
          BacklogDrained(done);
        }
      }
    }

    /** The kernel took a part of the backlog. */
    method TakePart(n: nat)
      requires Valid() && Writing(View()) && n < outputBuffer.Readable()
      modifies this`accepted, outputBuffer`reader, outputBuffer`writer
      ensures Valid() && outputBuffer.Readable() > 0
      ensures View() == old(View()).(accepted := old(accepted + outputBuffer.Contents()[..n]),
                                     out := old(outputBuffer.Contents())[n..])
    {
      PartialWriteKeeps(View(), n);
      hide Sound, Coherent, Forward, IsWriting;
      accepted := accepted + outputBuffer.Contents()[..n];
      outputBuffer.Retrieve(n);
    }

    /** The kernel took the rest: the empty buffer is no longer watched. */
    method TakeRest()
      requires Valid() && Writing(View())
      modifies this`accepted, handler`events, handler`inPoll,
               poller`fd2handler, poller`kernel, outputBuffer`reader, outputBuffer`writer
      ensures Valid() && outputBuffer.Readable() == 0 && View() == Emptied(old(View()))
      ensures forall h :: h in poller.live && h != handler ==> poller.View(h) == old(poller.View(h))
    {
      WritingIsBacklog(View());
      EmptiedKeeps(View());
      hide Sound, Coherent, Forward, IsWriting, WithEvents, Epoll.Valid;
      accepted := accepted + outputBuffer.Contents();
      outputBuffer.RetrieveAll();
      WatchWriting(false);
    }

    method HandleClose()
      requires Valid() && state != Disconnected
      modifies this`state, this`closes, handler`events, handler`inPoll, poller`fd2handler, poller`kernel
      ensures Valid() && View() == LinkProtocol.HandleClose(old(View()))
      ensures forall h :: h in poller.live && h != handler ==> poller.View(h) == old(poller.View(h))
    {
      HandleCloseKeeps(View());
      assert handler.inPoll == Added;
      hide Sound, Forward, Synced, WithEvents, Epoll.Valid;
      state := Disconnected;
      closes := closes + 1;
      WatchNothing();
    }

    /** Marks the connection and queues a second half that then finds nothing to do. */
    method ForceClose()
      requires Valid()
      modifies this`state, this`queued
      ensures Valid() && View() == LinkProtocol.ForceClose(old(View()))
    {
      hide Coherent, Synced;
      if state == Connected {
        state := Disconnecting;
        QueueInLoop(ForceCloseTask);
      }
    }

    method ForceCloseInLoop()
      requires Valid()
      modifies this`state, this`closes, handler`events, handler`inPoll, poller`fd2handler, poller`kernel
      ensures Valid()
      ensures View() == if old(state) == Connected then LinkProtocol.HandleClose(old(View())) else old(View())
      ensures forall h :: h in poller.live && h != handler ==> poller.View(h) == old(poller.View(h))
    {
      if state == Connected {
        HandleClose();
      }
    }
  }

  lemma TakeAll(s: bytes)
    ensures s[..|s|] == s && s[|s|..] == []
  {
  }

  /** The mark is crossed, if at all, by what is queued. */
  lemma RestCases(l: Link, message: bytes, w: WriteResult, high: seq<Act>)
    requires !Dropped(l, w)
    ensures var n := |message| - TakenNow(l, message, w);
            && Rest(l, message, w) == message[TakenNow(l, message, w)..] && |Rest(l, message, w)| == n
            && HighWater(l, message, w) == (if |l.out| < l.mark <= |l.out| + n then Some(|l.out| + n) else None)
    ensures Called(l, message, w, high) == if HighWater(l, message, w).Some? then DoActs(Given(l, message, w), high)
                                           else Given(l, message, w)
    ensures Rest(l, message, w) == [] ==> Enqueue(Given(l, message, w), []) == Given(l, message, w)
    ensures Given(l, message, w).mark == l.mark && Given(l, message, w).out == l.out
  {
    EnqueueNothing(Given(l, message, w));
    hide DoActs;
  }

  lemma StillAdded(l: Link, message: bytes, w: WriteResult, high: seq<Act>)
    requires Sound(l) && !Dropped(l, w)
    ensures Called(l, message, w, high).reg.inPoll == Added
  {
    CalledKeeps(l, message, w, high);
    assert Given(l, message, w).state == l.state;
    hide Called, Given, Forward;
  }
}
