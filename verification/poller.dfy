/** Registration of descriptors with epoll: `FdHandler`'s interest mask and registration
    state, `Epoll`'s map, and the kernel's interest set, which is ghost state here. */
module Pollers {
  import opened Bytes

  datatype Bit = IN | PRI | OUT | ERR | HUP | NVAL | RDHUP

  type Mask = set<Bit>

  const READ_EVENT: Mask := {IN, PRI}
  const WRITE_EVENT: Mask := {OUT}

  datatype PollState = New | Added | Deleted

  datatype CtlOp = CtlAdd | CtlMod | CtlDel

  datatype OptFlag = AddEvent | ModEvent | DelEvent

  /** The three views of one handler's registration, and its interest mask. */
  datatype Registration = Registration(inPoll: PollState, mapped: bool, kernel: Option<Mask>, events: Mask)

  predicate IsWriting(events: Mask) {
    events * WRITE_EVENT != {}
  }

  /** New: in neither table; Added: in both; Deleted: in the map only. */
  predicate Coherent(r: Registration) {
    match r.inPoll
    case New => !r.mapped && r.kernel == None
    case Added => r.mapped && r.kernel.Some?
    case Deleted => r.mapped && r.kernel == None
  }

  /** Between steps the kernel watches for what the handler asks for. */
  predicate Synced(r: Registration) {
    r.inPoll == Added ==> r.kernel == Some(r.events)
  }

  /** The operation `updateHandler` issues. */
  function UpdateOp(r: Registration): CtlOp {
    if r.inPoll != Added then CtlAdd else if r.events == {} then CtlDel else CtlMod
  }

  /** What `epoll_ctl` accepts. */
  predicate CtlLegal(op: CtlOp, kernel: Option<Mask>) {
    op == CtlAdd <==> kernel == None
  }

  function AfterUpdate(r: Registration): Registration {
    match UpdateOp(r)
    case CtlAdd => Registration(Added, true, Some(r.events), r.events)
    case CtlMod => r.(kernel := Some(r.events))
    case CtlDel => r.(inPoll := Deleted, kernel := None)
  }

  function AfterRemove(r: Registration): Registration {
    Registration(New, false, None, r.events)
  }

  /** The assertion `updateInPoll` makes, or passes on to `removeHandler`. */
  predicate MayUpdateInPoll(r: Registration, flag: OptFlag) {
    match flag
    case AddEvent => r.inPoll != Added
    case ModEvent => r.inPoll == Added
    case DelEvent => r.inPoll != New && r.events == {}
  }

  function AfterUpdateInPoll(r: Registration, flag: OptFlag): Registration {
    if flag == DelEvent then AfterRemove(r) else AfterUpdate(r)
  }

  /** One step of a handler's life: a new interest mask that is then passed on. */
  datatype PollStep = PollStep(events: Mask, flag: OptFlag)

  function RunPoll(r: Registration, steps: seq<PollStep>): Registration
    decreases |steps|
  {
    if steps == [] then r
    else RunPoll(AfterUpdateInPoll(r.(events := steps[0].events), steps[0].flag), steps[1..])
  }

  ghost predicate LegalPoll(r: Registration, steps: seq<PollStep>)
    decreases |steps|
  {
    steps == [] ||
    (var q := r.(events := steps[0].events);
     MayUpdateInPoll(q, steps[0].flag) && LegalPoll(AfterUpdateInPoll(q, steps[0].flag), steps[1..]))
  }

  /** The three views agree in every reachable state, and every operation issued on the way is
      one the kernel accepts: an update whose own assertion holds never meets an illegal one. */
  lemma {:induction false} RegistrationCoherent(r: Registration, steps: seq<PollStep>, i: nat)
    requires Coherent(r) && Synced(r) && LegalPoll(r, steps) && i <= |steps|
    ensures var q := RunPoll(r, steps[..i]);
            && Coherent(q) && Synced(q)
            && (i < |steps| && steps[i].flag != DelEvent ==>
                  CtlLegal(UpdateOp(q.(events := steps[i].events)), q.kernel))
            && (i < |steps| && steps[i].flag == DelEvent && q.inPoll == Added ==> CtlLegal(CtlDel, q.kernel))
    decreases i
  {
    if i > 0 {
      var q := AfterUpdateInPoll(r.(events := steps[0].events), steps[0].flag);
      RegistrationCoherent(q, steps[1..], i - 1);
      assert steps[..i][1..] == steps[1..][..i - 1];
    }
  }

  lemma CoherentEvents(r: Registration, events: Mask)
    requires Coherent(r)
    ensures Coherent(r.(events := events))
  {
  }

  class FdHandler {
    const fd: int
    var events: Mask
    var inPoll: PollState

    constructor (fd: int)
      ensures this.fd == fd && events == {} && inPoll == New
    {
      this.fd := fd;
      events, inPoll := {}, New;
    }

    method EnableWriting()
      modifies this`events
      ensures events == old(events) + WRITE_EVENT
    {
      events := events + WRITE_EVENT;
    }

    method EnableReading()
      modifies this`events
      ensures events == old(events) + READ_EVENT
    {
      events := events + READ_EVENT;
    }

    method DisableWriting()
      modifies this`events
      ensures events == old(events) - WRITE_EVENT
    {
      events := events - WRITE_EVENT;
    }

    method DisableReading()
      modifies this`events
      ensures events == old(events) - READ_EVENT
    {
      events := events - READ_EVENT;
    }

    method DisableAll()
      modifies this`events
      ensures events == {}
    {
      events := {};
    }

    method UpdateInPoll(poller: Epoll, flag: OptFlag)
      requires poller.Valid() && this in poller.live && MayUpdateInPoll(poller.View(this), flag)
      modifies this`inPoll, poller`fd2handler, poller`kernel
      ensures poller.Valid()
      ensures poller.View(this) == AfterUpdateInPoll(old(poller.View(this)), flag)
      ensures forall h :: h in poller.live && h != this ==> poller.View(h) == old(poller.View(h))
    {
      match flag
      case AddEvent => poller.UpdateHandler(this);
      case ModEvent => poller.UpdateHandler(this);
      case DelEvent => poller.RemoveHandler(this);
    }

    /** The destructor's deregistration, before the descriptor is closed. */
    method Destroy(poller: Epoll)
      requires poller.Valid() && this in poller.live && inPoll != New
      modifies this`events, this`inPoll, poller`fd2handler, poller`kernel, poller`live
      ensures poller.Valid() && poller.live == old(poller.live) - {this}
      ensures fd !in poller.fd2handler && fd !in poller.kernel
      ensures forall h :: h in poller.live ==> poller.View(h) == old(poller.View(h))
    {
      DisableAll();
      poller.EventsOnly(this);
      hide Epoll.Valid;
      UpdateInPoll(poller, DelEvent);
      poller.Abandon(this);
    }
  }

  class Epoll {
    var fd2handler: map<int, FdHandler>
    ghost var kernel: map<int, (Mask, FdHandler)>
    ghost var live: set<FdHandler>

    ghost function View(h: FdHandler): Registration
      reads this, h
    {
      Registration(h.inPoll, h.fd in fd2handler && fd2handler[h.fd] == h,
                   if h.fd in kernel then Some(kernel[h.fd].0) else None, h.events)
    }

    /** Live handlers have distinct descriptors, and their three views agree. */
    ghost predicate Valid()
      reads this, live
    {
      && (forall h, k :: h in live && k in live && h.fd == k.fd ==> h == k)
      && (forall fd :: fd in fd2handler ==> fd2handler[fd] in live && fd2handler[fd].fd == fd)
      && (forall fd :: fd in kernel ==> fd in fd2handler && kernel[fd].1 == fd2handler[fd])
      && (forall h :: h in live ==> Coherent(View(h)))
    }

    /** A new interest mask that is not passed on yet changes nothing else. */
    twostate lemma EventsOnly(h: FdHandler)
      requires old(Valid()) && h in live && unchanged(this) && h.inPoll == old(h.inPoll)
      requires forall k :: k in live && k != h ==> unchanged(k)
      ensures Valid() && View(h) == old(View(h)).(events := h.events)
      ensures forall k :: k in live && k != h ==> View(k) == old(View(k))
    {
      hide Coherent;
      assert Coherent(View(h)) by {
        CoherentEvents(old(View(h)), h.events);
      }
    }

    constructor ()
      ensures Valid() && fd2handler == map[] && kernel == map[] && live == {}
    {
      fd2handler, kernel, live := map[], map[], {};
    }

    /** A handler with a descriptor of its own comes to life. */
    ghost method Adopt(h: FdHandler)
      requires Valid() && h.inPoll == New && forall k :: k in live ==> k.fd != h.fd
      modifies this`live
      ensures Valid() && live == old(live) + {h}
    {
      live := live + {h};
    }

    /** A handler that is not registered goes. */
    ghost method Abandon(h: FdHandler)
      requires Valid() && h in live && h.inPoll == New
      modifies this`live
      ensures Valid() && live == old(live) - {h} && h.fd !in fd2handler && h.fd !in kernel
    {
      assert h.fd !in fd2handler && h.fd !in kernel;
      hide Coherent;
      live := live - {h};
    }

    /** `epoll_ctl`; the precondition is that the kernel accepts the operation. */
    method Update(op: CtlOp, h: FdHandler)
      requires CtlLegal(op, View(h).kernel)
      modifies this`kernel
      ensures kernel == if op == CtlDel then old(kernel) - {h.fd} else old(kernel)[h.fd := (h.events, h)]
    {
      kernel := if op == CtlDel then kernel - {h.fd} else kernel[h.fd := (h.events, h)];
    }

    /** The branch of `updateHandler` for a handler that the kernel does not know. */
    method AddHandler(h: FdHandler)
      requires Valid() && h in live && h.inPoll != Added
      modifies this`fd2handler, this`kernel, h`inPoll
      ensures Valid()
      ensures View(h) == AfterUpdate(old(View(h)))
      ensures forall k :: k in live && k != h ==> View(k) == old(View(k))
    {
      assert h.inPoll == New ==> h.fd !in fd2handler;
      assert h.inPoll == Deleted ==> h.fd in fd2handler && fd2handler[h.fd] == h;
      assert h.fd !in kernel && Coherent(Registration(Added, true, Some(h.events), h.events));
      hide Coherent;
      if h.inPoll == New {
        fd2handler := fd2handler[h.fd := h];
      }
      h.inPoll := Added;
      Update(CtlAdd, h);
      assert View(h) == AfterUpdate(old(View(h)));
      forall k | k in live && k != h
        ensures View(k) == old(View(k))
      {
        assert k.fd != h.fd;
      }
    }

    method UpdateHandler(h: FdHandler)
      requires Valid() && h in live
      modifies this`fd2handler, this`kernel, h`inPoll
      ensures Valid()
      ensures View(h) == AfterUpdate(old(View(h)))
      ensures forall k :: k in live && k != h ==> View(k) == old(View(k))
    {
      var state := h.inPoll;
      if state == New || state == Deleted {
        AddHandler(h);
      } else {
        assert h.fd in fd2handler && fd2handler[h.fd] == h && h.fd in kernel && kernel[h.fd].1 == h;
        assert state == Added;
        assert Coherent(AfterUpdate(View(h)));
        hide Coherent;
        if h.events == {} {
          Update(CtlDel, h);
          h.inPoll := Deleted;
        } else {
          Update(CtlMod, h);
        }
      }
    }

    method RemoveHandler(h: FdHandler)
      requires Valid() && h in live && h.inPoll != New && h.events == {}
      modifies this`fd2handler, this`kernel, h`inPoll
      ensures Valid()
      ensures View(h) == AfterRemove(old(View(h)))
      ensures h.fd !in fd2handler && h.fd !in kernel
      ensures forall k :: k in live && k != h ==> View(k) == old(View(k))
    {
      assert h.fd in fd2handler && fd2handler[h.fd] == h && (h.inPoll == Added <==> h.fd in kernel);
      assert Coherent(AfterRemove(View(h)));
      hide Coherent;
      fd2handler := fd2handler - {h.fd};
      if h.inPoll == Added {
        Update(CtlDel, h);
      }
      h.inPoll := New;
    }
  }
}
