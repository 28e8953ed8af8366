/** Starting an `EventLoopThread`: `startLoop` on one thread, `threadFunc` on the other, with
    the latch of `Thread::start` and the condition that publishes the loop between them. */
module StartHandshake {
  import opened Bytes

  /** Where the caller of `startLoop` is; `Sleep` is inside `pthread_cond_wait`, `Wake` is
      after the wake-up and before the mutex is held again. */
  datatype Starter = Idle
                   | LatchEnter | LatchTest | LatchSleep | LatchWake
                   | LoopEnter | LoopTest | LoopSleep | LoopWake
                   | Returned

  /** Where the new thread is. */
  datatype Worker = NotCreated | StoreTid | DownEnter | Down | DownExit
                  | Init | PublishEnter | Publish | Notify | PublishExit
                  | Looping | Clear | Gone

  datatype Holder = Free | ByStarter | ByWorker

  /** A loop object; the new thread's own is the one to be published. */
  type Loop = nat

  datatype State = State(
    starter: Starter, worker: Worker,
    latchLock: Holder, loopLock: Holder,
    count: int, tidStored: bool, inited: bool,
    own: Loop, loop: Option<Loop>, result: Option<Loop>)

  function Start(own: Loop): State {
    State(Idle, NotCreated, Free, Free, 1, false, false, own, None, None)
  }

  datatype Move = StarterMove | WorkerMove | Spurious

  /** A thread moves unless it sleeps, is done, or wants a mutex that is held. */
  predicate Enabled(s: State, m: Move) {
    match m
    case StarterMove =>
      (match s.starter
       case LatchEnter => s.latchLock == Free
       case LatchWake => s.latchLock == Free
       case LoopEnter => s.loopLock == Free
       case LoopWake => s.loopLock == Free
       case _ => s.starter !in {LatchSleep, LoopSleep, Returned})
    case WorkerMove =>
      (match s.worker
       case DownEnter => s.latchLock == Free
       case PublishEnter => s.loopLock == Free
       case Looping => s.loopLock == Free
       case _ => s.worker !in {NotCreated, Gone})
    case Spurious => s.starter in {LatchSleep, LoopSleep}
  }

  function WakeLatch(p: Starter): Starter {
    if p == LatchSleep then LatchWake else p
  }

  function WakeLoop(p: Starter): Starter {
    if p == LoopSleep then LoopWake else p
  }

  function MoveStarter(s: State): State {
    match s.starter
    case Idle => s.(starter := LatchEnter, worker := StoreTid)
    case LatchEnter => s.(starter := LatchTest, latchLock := ByStarter)
    case LatchWake => s.(starter := LatchTest, latchLock := ByStarter)
    case LatchTest => s.(starter := if s.count > 0 then LatchSleep else LoopEnter, latchLock := Free)
    case LoopEnter => s.(starter := LoopTest, loopLock := ByStarter)
    case LoopWake => s.(starter := LoopTest, loopLock := ByStarter)
    case LoopTest =>
      if s.loop == None then s.(starter := LoopSleep, loopLock := Free)
      else s.(starter := Returned, loopLock := Free, result := s.loop)
    case _ => s
  }

  function MoveWorker(s: State): State {
    match s.worker
    case StoreTid => s.(worker := DownEnter, tidStored := true)
    case DownEnter => s.(worker := Down, latchLock := ByWorker)
    case Down =>
      s.(worker := DownExit, count := s.count - 1, starter := if s.count == 1 then WakeLatch(s.starter) else s.starter)
    case DownExit => s.(worker := Init, latchLock := Free)
    case Init => s.(worker := PublishEnter, inited := true)
    case PublishEnter => s.(worker := Publish, loopLock := ByWorker)
    case Publish => s.(worker := Notify, loop := Some(s.own))
    case Notify => s.(worker := PublishExit, starter := WakeLoop(s.starter))
    case PublishExit => s.(worker := Looping, loopLock := Free)
    case Looping => s.(worker := Clear, loopLock := ByWorker)
    case Clear => s.(worker := Gone, loop := None, loopLock := Free)
    case _ => s
  }

  function Apply(s: State, m: Move): State {
    match m
    case StarterMove => MoveStarter(s)
    case WorkerMove => MoveWorker(s)
    case Spurious => s.(starter := WakeLoop(WakeLatch(s.starter)))
  }

  predicate LegalMoves(s: State, ms: seq<Move>)
    decreases |ms|
  {
    ms == [] || (Enabled(s, ms[0]) && LegalMoves(Apply(s, ms[0]), ms[1..]))
  }

  function Run(s: State, ms: seq<Move>): State
    decreases |ms|
  {
    if ms == [] then s else Run(Apply(s, ms[0]), ms[1..])
  }

  predicate BeforeDown(w: Worker) {
    w in {NotCreated, StoreTid, DownEnter, Down}
  }

  predicate Published(w: Worker) {
    w in {Notify, PublishExit, Looping, Clear}
  }

  predicate PastLatch(p: Starter) {
    p in {LoopEnter, LoopTest, LoopSleep, LoopWake, Returned}
  }

  /** Who holds what, and what each position of one thread says about the other. */
  predicate Inv(s: State) {
    && (s.latchLock == ByStarter <==> s.starter == LatchTest)
    && (s.latchLock == ByWorker <==> s.worker in {Down, DownExit})
    && (s.loopLock == ByStarter <==> s.starter == LoopTest)
    && (s.loopLock == ByWorker <==> s.worker in {Publish, Notify, PublishExit, Clear})
    && (s.worker == NotCreated <==> s.starter == Idle)
    && s.count == (if BeforeDown(s.worker) then 1 else 0)
    && (s.tidStored <==> s.worker !in {NotCreated, StoreTid})
    && (s.inited <==> !BeforeDown(s.worker) && s.worker !in {DownExit, Init})
    && s.loop == (if Published(s.worker) then Some(s.own) else None)
    && (PastLatch(s.starter) ==> s.count == 0)
    && (s.starter == LatchSleep ==> s.count == 1)
    && (s.starter == LoopSleep ==> s.worker in {DownExit, Init, PublishEnter, Publish, Notify, Gone})
    && s.result == (if s.starter == Returned then Some(s.own) else None)
    && (s.starter == Returned ==> s.inited)
  }

  lemma StepKeeps(s: State, m: Move)
    requires Inv(s) && Enabled(s, m)
    ensures Inv(Apply(s, m)) && Apply(s, m).own == s.own
  {
  }

  lemma {:induction false} RunKeeps(s: State, ms: seq<Move>)
    requires Inv(s) && LegalMoves(s, ms)
    ensures Inv(Run(s, ms)) && Run(s, ms).own == s.own
    decreases |ms|
  {
    if ms != [] {
      StepKeeps(s, ms[0]);
      hide Inv, Apply, Enabled;
      RunKeeps(Apply(s, ms[0]), ms[1..]);
    }
  }

  /** In every interleaving, what `startLoop` returns is the new thread's own loop, after the
      init callback has run and the thread id was handed over. */
  lemma ReturnsPublishedLoop(own: Loop, ms: seq<Move>)
    requires LegalMoves(Start(own), ms)
    ensures var s := Run(Start(own), ms);
            && (s.starter == Returned ==> s.result == Some(own) && s.inited && s.tidStored)
            && (s.starter != Returned ==> s.result == None)
            && (PastLatch(s.starter) ==> s.tidStored)
  {
    RunKeeps(Start(own), ms);
  }

  // ----- No wake-up is lost -----

  /** The loop is not left before it was read. */
  predicate Early(s: State) {
    s.worker in {Clear, Gone} && s.starter != Returned
  }

  function StarterRank(p: Starter): nat {
    match p
    case Idle => 11
    case LatchEnter => 10
    case LatchWake => 9
    case LatchTest => 8
    case LatchSleep => 7
    case LoopEnter => 6
    case LoopWake => 5
    case LoopTest => 4
    case LoopSleep => 3
    case Returned => 0
  }

  function WorkerRank(w: Worker): nat {
    match w
    case NotCreated => 12
    case StoreTid => 12
    case DownEnter => 11
    case Down => 10
    case DownExit => 9
    case Init => 8
    case PublishEnter => 7
    case Publish => 6
    case Notify => 5
    case PublishExit => 4
    case Looping => 3
    case Clear => 2
    case Gone => 1
  }

  function Measure(s: State): nat {
    10 * WorkerRank(s.worker) + StarterRank(s.starter)
  }

  /** Every move that is not a spurious wake-up lowers the measure; a spurious one raises it by two. */
  lemma MoveLowersMeasure(s: State, m: Move)
    requires Inv(s) && Enabled(s, m)
    ensures if m == Spurious then Measure(Apply(s, m)) == Measure(s) + 2 else Measure(Apply(s, m)) < Measure(s)
  {
  }

  /** Until `startLoop` returns some thread can move without being woken out of turn, unless the
      loop is left early, and it need not leave the loop for that. */
  lemma NoLostWakeup(s: State)
    requires Inv(s) && s.starter != Returned && !Early(s)
    ensures Enabled(s, StarterMove) || (Enabled(s, WorkerMove) && s.worker != Looping)
  {
  }

  function SpuriousCount(ms: seq<Move>): nat {
    if ms == [] then 0 else (if ms[0] == Spurious then 1 else 0) + SpuriousCount(ms[1..])
  }

  /** A run with `k` spurious wake-ups has at most `Measure(s) + 3 * k` moves: with finitely many
      of them every run comes to a stop. */
  lemma {:induction false} RunsAreBounded(s: State, ms: seq<Move>)
    requires Inv(s) && LegalMoves(s, ms)
    ensures |ms| + Measure(Run(s, ms)) <= Measure(s) + 3 * SpuriousCount(ms)
    decreases |ms|
  {
    if ms != [] {
      StepKeeps(s, ms[0]);
      MoveLowersMeasure(s, ms[0]);
      hide Inv, Apply, Enabled, Measure;
      RunsAreBounded(Apply(s, ms[0]), ms[1..]);
    }
  }

  /** And where a run stops, no thread being able to move unless woken out of turn, `startLoop`
      has returned, or the loop was left early. */
  lemma StoppedMeansReturned(s: State, ms: seq<Move>)
    requires Inv(s) && LegalMoves(s, ms)
    requires !Enabled(Run(s, ms), StarterMove) && !Enabled(Run(s, ms), WorkerMove)
    ensures Run(s, ms).starter == Returned || Early(Run(s, ms))
  {
    RunKeeps(s, ms);
    var t := Run(s, ms);
    if t.starter != Returned && !Early(t) {
      NoLostWakeup(t);
    }
  }

  /** A run to the return exists from wherever the threads are. */
  lemma {:induction false} CanReturn(s: State) returns (ms: seq<Move>)
    requires Inv(s) && !Early(s)
    ensures LegalMoves(s, ms) && Run(s, ms).starter == Returned
    decreases Measure(s)
  {
    if s.starter == Returned {
      ms := [];
    } else {
      NoLostWakeup(s);
      MoveLowersMeasure(s, if Enabled(s, StarterMove) then StarterMove else WorkerMove);
      var m := if Enabled(s, StarterMove) then StarterMove else WorkerMove;
      StepKeeps(s, m);
      assert !Early(Apply(s, m));
      var later := CanReturn(Apply(s, m));
      ms := [m] + later;
      assert ms[1..] == later;
    }
  }

  lemma {:induction false} NeverReturns(s: State, ms: seq<Move>)
    requires Inv(s) && Early(s) && LegalMoves(s, ms)
    ensures Run(s, ms).starter != Returned
    decreases |ms|
  {
    if ms != [] {
      StepKeeps(s, ms[0]);
      assert Early(Apply(s, ms[0]));
      NeverReturns(Apply(s, ms[0]), ms[1..]);
    }
  }

  /** While the starter has not asked for the latch, nothing stops the new thread. */
  lemma {:induction false} WorkerAlone(s: State) returns (ms: seq<Move>)
    requires Inv(s) && s.starter == LatchEnter
    ensures LegalMoves(s, ms) && Run(s, ms).worker == Gone && Run(s, ms).starter == LatchEnter
    decreases WorkerRank(s.worker)
  {
    if s.worker == Gone {
      ms := [];
    } else {
      StepKeeps(s, WorkerMove);
      var later := WorkerAlone(Apply(s, WorkerMove));
      ms := [WorkerMove] + later;
      assert ms[1..] == later;
    }
  }

  /** The loop can be left that early: the new thread then runs from start to end before
      `startLoop` looks, and `startLoop` waits for good. */
  lemma EarlyExit(own: Loop) returns (ms: seq<Move>)
    ensures LegalMoves(Start(own), ms) && Early(Run(Start(own), ms))
    ensures forall more :: LegalMoves(Run(Start(own), ms), more) ==> Run(Run(Start(own), ms), more).starter != Returned
  {
    var s := Apply(Start(own), StarterMove);
    StepKeeps(Start(own), StarterMove);
    var later := WorkerAlone(s);
    ms := [StarterMove] + later;
    assert ms[1..] == later;
    RunKeeps(Start(own), ms);
    ReturnsIffNotEarly(Run(Start(own), ms));
  }

  /** `startLoop` can still return exactly when the loop has not been left before it was read. */
  lemma ReturnsIffNotEarly(s: State)
    requires Inv(s)
    ensures (exists ms :: LegalMoves(s, ms) && Run(s, ms).starter == Returned) <==> !Early(s)
  {
    if Early(s) {
      forall ms | LegalMoves(s, ms) ensures Run(s, ms).starter != Returned {
        NeverReturns(s, ms);
      }
    } else {
      var ms := CanReturn(s);
    }
  }
}
