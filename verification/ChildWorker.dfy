/**
 The handshake between the worker of one child node and the code that pauses, unpauses and stops it.
 Every lock acquisition, every read of shared state under a lock, every Wait and every wake-up is a
 step of its own; a blocked or disabled step leaves the state as it is.
 */
module ChildWorker {
  import opened Messages
  import opened WorkQueue

  /** Where the worker is. */
  datatype PC =
    | Gate                 // about to lock the pause condition
    | GateLocked           // holds the lock, about to read `paused`
    | SawPaused            // holds the lock, about to ask whether the send queue is shutting down
    | AboutToSleep         // holds the lock, about to Wait
    | Asleep               // on the pause condition's notify list
    | Woken                // off that list, has to lock again
    | Leaving              // holds the lock, about to unlock
    | CheckShut            // about to ask whether the send queue is shutting down
    | AtGet                // about to enter Get
    | GetWaiting           // on the send queue's notify list
    | Sending(m: Message)
    | AboutToPause(m: Message)
    | Finishing(m: Message)
    | Exited

  datatype Child = Child(q: QState, paused: bool, stopped: bool, pc: PC, sends: nat)

  const STARTED := Child(NEW_QUEUE, false, false, Gate, 0)

  /** The worker is inside its critical section on the pause condition. */
  predicate HoldsLock(pc: PC) {
    pc.GateLocked? || pc.SawPaused? || pc.AboutToSleep? || pc.Leaving?
  }

  datatype Event =
    | Turn(sendOk: bool)   // the worker runs; `sendOk` is what the radio answers
    | Offer(m: Message)    // the router adds to the send queue
    | Unpause              // a heartbeat arrived
    | ShutDown             // RemoveNode shut the send queue
    | Stop                 // stop(), which follows RemoveNode

  /** The critical section of Get, entered from outside or after a wake-up. */
  function Getting(c: Child): Child {
    if c.q.queue != [] then c.(q := c.q.Take(), pc := Sending(c.q.queue[0]))
    else c.(pc := if c.q.shuttingdown then Exited else GetWaiting)
  }

  function WorkerTurn(c: Child, sendOk: bool): Child {
    match c.pc
    case Gate => c.(pc := GateLocked)
    case GateLocked => c.(pc := if c.paused then SawPaused else Leaving)
    case SawPaused => c.(pc := if c.q.shuttingdown then Leaving else AboutToSleep)
    case AboutToSleep => c.(pc := Asleep)
    case Asleep => c
    case Woken => c.(pc := GateLocked)
    case Leaving => c.(pc := CheckShut)
    case CheckShut => c.(pc := if c.q.shuttingdown then Exited else AtGet)
    case AtGet => Getting(c)
    case GetWaiting => c
    case Sending(m) => c.(sends := c.sends + 1, pc := if sendOk then Finishing(m) else AboutToPause(m))
    case AboutToPause(m) => c.(paused := true, pc := Finishing(m))
    case Finishing(m) => c.(q := c.q.Done(m), pc := Gate)
    case Exited => c
  }

  function Unpaused(c: Child): Child {
    c.(paused := false, pc := if c.pc.Asleep? then Woken else c.pc)
  }

  function Step(c: Child, e: Event): Child {
    match e
    case Turn(ok) => WorkerTurn(c, ok)
    case Offer(m) => c.(q := c.q.Add(m), pc := if c.q.AddAppends(m) && c.pc.GetWaiting? then AtGet else c.pc)
    case Unpause => if HoldsLock(c.pc) then c else Unpaused(c)
    case ShutDown => c.(q := c.q.ShutDown(), pc := if c.pc.GetWaiting? then AtGet else c.pc)
    case Stop => if HoldsLock(c.pc) || !c.q.shuttingdown then c else Unpaused(c).(stopped := true)
  }

  function Run(c: Child, es: seq<Event>): Child {
    if es == [] then c else Step(Run(c, es[..|es| - 1]), es[|es| - 1])
  }

  /** After stop() the worker neither sleeps nor is about to, on either condition. */
  ghost predicate HandshakeInv(c: Child) {
    && (c.q.shuttingdown ==> !c.pc.GetWaiting?)
    && (c.stopped ==> c.q.shuttingdown && !c.pc.Asleep? && !c.pc.AboutToSleep?)
  }

  lemma {:induction false} NeverSleepsAfterStop(c: Child, es: seq<Event>)
    requires HandshakeInv(c)
    ensures HandshakeInv(Run(c, es))
    ensures c.stopped ==> Run(c, es).stopped
    ensures c.q.shuttingdown ==> Run(c, es).q.shuttingdown
  {
    if es != [] {
      NeverSleepsAfterStop(c, es[..|es| - 1]);
    }
  }

  /** How many turns the worker is away from exit once stop() has run. */
  function TurnsToExit(pc: PC): nat {
    match pc
    case Exited => 0
    case CheckShut => 1
    case Leaving => 2
    case SawPaused => 3
    case GateLocked => 4
    case Gate => 5
    case Woken => 5
    case Finishing(_) => 6
    case AboutToPause(_) => 7
    case Sending(_) => 8
    case AtGet => 9
    case AboutToSleep => 9
    case Asleep => 9
    case GetWaiting => 9
  }

  function Turns(es: seq<Event>): nat {
    if es == [] then 0 else Turns(es[..|es| - 1]) + if es[|es| - 1].Turn? then 1 else 0
  }

  /** No step of anybody else delays a stopped worker, and each of its own turns brings it nearer to exit. */
  lemma StoppedStep(c: Child, e: Event)
    requires HandshakeInv(c) && c.stopped
    ensures var d := TurnsToExit(Step(c, e).pc);
            d + (if e.Turn? && !c.pc.Exited? then 1 else 0) <= TurnsToExit(c.pc)
  {
  }

  lemma {:induction false} StoppedWorkerGetsNearer(c: Child, es: seq<Event>)
    requires HandshakeInv(c) && c.stopped
    ensures Run(c, es).pc.Exited? || TurnsToExit(Run(c, es).pc) + Turns(es) <= TurnsToExit(c.pc)
  {
    if es != [] {
      var init := es[..|es| - 1];
      StoppedWorkerGetsNearer(c, init);
      NeverSleepsAfterStop(c, init);
      StoppedStep(Run(c, init), es[|es| - 1]);
    }
  }

  /**
   Once the send queue is shut and stop() has run, a worker in any state of any run exits within nine
   of its own turns, whatever everybody else does meanwhile.
   */
  lemma StoppedWorkerExits(before: seq<Event>, es: seq<Event>)
    requires Run(STARTED, before).stopped && Turns(es) >= 9
    ensures Run(Run(STARTED, before), es).pc.Exited?
  {
    NeverSleepsAfterStop(STARTED, before);
    StoppedWorkerGetsNearer(Run(STARTED, before), es);
  }

  /** stop() takes effect as soon as it gets the lock, and from then on the worker exits within nine turns. */
  lemma ExitsAfterStop(before: seq<Event>, es: seq<Event>)
    requires var c := Run(STARTED, before); c.q.shuttingdown && !HoldsLock(c.pc)
    requires Turns(es) >= 9
    ensures Run(Step(Run(STARTED, before), Stop), es).pc.Exited?
  {
    var c := Run(STARTED, before);
    NeverSleepsAfterStop(STARTED, before);
    assert HandshakeInv(Step(c, Stop)) && Step(c, Stop).stopped;
    StoppedWorkerGetsNearer(Step(c, Stop), es);
  }

  /** How many turns until the worker gives the lock back. */
  function TurnsToUnlock(pc: PC): nat {
    match pc
    case GateLocked => 3
    case SawPaused => 2
    case AboutToSleep => 1
    case Leaving => 1
    case _ => 0
  }

  /** It gets the lock: whoever waits for it waits for at most three turns of the worker. */
  lemma {:induction false} LockIsGivenBack(c: Child, es: seq<Event>)
    ensures (exists k :: 0 <= k <= |es| && !HoldsLock(Run(c, es[..k]).pc)) || Turns(es) < 3
    ensures (forall k :: 0 <= k <= |es| ==> HoldsLock(Run(c, es[..k]).pc)) ==>
              TurnsToUnlock(Run(c, es).pc) + Turns(es) <= TurnsToUnlock(c.pc)
  {
    assert es[..|es|] == es;
    if es != [] {
      var init := es[..|es| - 1];
      LockIsGivenBack(c, init);
      assert forall k :: 0 <= k <= |init| ==> init[..k] == es[..k];
      assert es[..|init|] == init;
    }
  }

  /** Can the worker still perform a send although the queue has been shut? */
  function SendsLeft(pc: PC): nat {
    if pc.AtGet? || pc.Sending? then 1 else 0
  }

  lemma {:induction false} SendBudget(c: Child, es: seq<Event>)
    requires HandshakeInv(c) && c.q.shuttingdown
    ensures Run(c, es).sends + SendsLeft(Run(c, es).pc) <= c.sends + SendsLeft(c.pc)
  {
    if es != [] {
      NeverSleepsAfterStop(c, es[..|es| - 1]);
      SendBudget(c, es[..|es| - 1]);
    }
  }

  /** After the shutdown the worker sends at most one more message, stopped or not. */
  lemma AtMostOneMoreSend(before: seq<Event>, es: seq<Event>)
    requires Run(STARTED, before).q.shuttingdown
    ensures Run(Run(STARTED, before), es).sends <= Run(STARTED, before).sends + 1
  {
    NeverSleepsAfterStop(STARTED, before);
    SendBudget(Run(STARTED, before), es);
  }

  /**
   Why stop() has to follow the shutdown: the worker can have decided to sleep just before it, and
   without an unpause no number of turns brings it out.
   */
  lemma {:induction false} ShutDownAloneIsNotEnough(c: Child, es: seq<Event>)
    requires c.pc.AboutToSleep? || c.pc.Asleep?
    requires forall e :: e in es ==> !e.Unpause? && !e.Stop?
    ensures !Run(c, es).pc.Exited? && (Run(c, es).pc.AboutToSleep? || Run(c, es).pc.Asleep?)
  {
    if es != [] {
      var init := es[..|es| - 1];
      assert forall e :: e in init ==> e in es;
      ShutDownAloneIsNotEnough(c, init);
      assert es[|es| - 1] in es;
    }
  }

  /** Some run leads from `c` to `d`. */
  ghost predicate Reaches(c: Child, d: Child) {
    exists es :: Run(c, es) == d
  }

  lemma ReachesNext(c: Child, d: Child, e: Event)
    requires Reaches(c, d)
    ensures Reaches(c, Step(d, e))
  {
    var es :| Run(c, es) == d;
    assert (es + [e])[..|es|] == es;
    assert Run(c, es + [e]) == Step(d, e);
  }

  /** From the gate with an open, non-empty queue and no pause: five turns end at the send. */
  lemma FiveTurnsToSend(c: Child, m: Message)
    requires Reaches(c, Child(NEW_QUEUE.Add(m), false, false, Gate, 0))
    ensures Reaches(c, Child(NEW_QUEUE.Add(m).Take(), false, false, Sending(m), 0))
  {
    var t, s := Turn(true), Child(NEW_QUEUE.Add(m), false, false, Gate, 0);
    ReachesNext(c, s, t);
    ReachesNext(c, s.(pc := GateLocked), t);
    ReachesNext(c, s.(pc := Leaving), t);
    ReachesNext(c, s.(pc := CheckShut), t);
    ReachesNext(c, s.(pc := AtGet), t);
  }

  /** A failed send: the worker pauses... */
  lemma TurnsToPause(c: Child, q: QState, m: Message)
    requires Reaches(c, Child(q, false, false, Sending(m), 0))
    ensures Reaches(c, Child(q.Done(m), true, false, Gate, 1))
  {
    ReachesNext(c, Child(q, false, false, Sending(m), 0), Turn(false));
    ReachesNext(c, Child(q, false, false, AboutToPause(m), 1), Turn(true));
    ReachesNext(c, Child(q, true, false, Finishing(m), 1), Turn(true));
  }

  /** ... and three turns later has decided to sleep. */
  lemma TurnsToSleep(c: Child, q: QState)
    requires Reaches(c, Child(q, true, false, Gate, 1)) && !q.shuttingdown
    ensures Reaches(c, Child(q, true, false, AboutToSleep, 1))
  {
    ReachesNext(c, Child(q, true, false, Gate, 1), Turn(true));
    ReachesNext(c, Child(q, true, false, GateLocked, 1), Turn(true));
    ReachesNext(c, Child(q, true, false, SawPaused, 1), Turn(true));
  }

  /** Such a state is reachable, with the queue already shut: send fails, pause, decide to sleep, shutdown. */
  lemma SleepRacesWithShutDown(m: Message)
    ensures exists c :: Reaches(STARTED, c) && c.pc.AboutToSleep? && c.q.shuttingdown && c.paused
  {
    assert Run(STARTED, []) == STARTED;
    ReachesNext(STARTED, STARTED, Offer(m));
    FiveTurnsToSend(STARTED, m);
    var q := NEW_QUEUE.Add(m).Take();
    TurnsToPause(STARTED, q, m);
    TurnsToSleep(STARTED, q.Done(m));
    var c := Child(q.Done(m), true, false, AboutToSleep, 1);
    ReachesNext(STARTED, c, ShutDown);
    assert Reaches(STARTED, c.(q := c.q.ShutDown()));
  }

  // ---------------------------------------------------------------- no lost unpause

  /** In every run the worker is on its way to sleep, or asleep, only while it is paused. */
  lemma {:induction false} SleepsOnlyWhilePaused(es: seq<Event>)
    ensures var c := Run(STARTED, es); c.pc.SawPaused? || c.pc.AboutToSleep? || c.pc.Asleep? ==> c.paused
  {
    if es != [] {
      SleepsOnlyWhilePaused(es[..|es| - 1]);
    }
  }

  /** Past the gate a worker that is paused is on its way out, with its queue shut. */
  ghost predicate PauseHolds(c: Child) {
    c.paused ==>
      && !c.pc.AtGet? && !c.pc.GetWaiting? && !c.pc.Sending? && !c.pc.AboutToPause?
      && (c.pc.Leaving? || c.pc.CheckShut? ==> c.q.shuttingdown)
  }

  /** In every run a paused worker sends nothing: it is neither sending nor getting something to send. */
  lemma {:induction false} PausedWorkerDoesNotSend(es: seq<Event>)
    ensures PauseHolds(Run(STARTED, es))
  {
    if es != [] { PausedWorkerDoesNotSend(es[..|es| - 1]); }
  }

  /** A send fails in this step. */
  predicate SendFails(c: Child, e: Event) {
    e == Turn(false) && c.pc.Sending?
  }

  /** A send succeeds in this step: the worker goes on without a pause. */
  lemma SuccessfulSendDoesNotPause(c: Child)
    requires c.pc.Sending?
    ensures var d := Step(c, Turn(true)); d.paused == c.paused && d.pc == Finishing(c.pc.m) && d.sends == c.sends + 1
  {
  }

  /** The step takes the pause back: a heartbeat, or stop(), that gets the lock. */
  predicate Resumes(c: Child, e: Event) {
    !HoldsLock(c.pc) && (e.Unpause? || (e.Stop? && c.q.shuttingdown))
  }

  /** A send failed at step `k`, and from then to step `p` the worker was about to pause. */
  ghost predicate FailedAt(es: seq<Event>, k: nat, p: nat) {
    && k < p <= |es| && SendFails(Run(STARTED, es[..k]), es[k])
    && forall j :: k < j <= p ==> Run(STARTED, es[..j]).pc.AboutToPause?
  }

  /** It paused at step `p` because of the send that failed at step `k`, and nothing has resumed it since. */
  ghost predicate PausedSince(es: seq<Event>, k: nat, p: nat) {
    p < |es| && FailedAt(es, k, p) && es[p].Turn? && NotResumed(es, p)
  }

  lemma RunAt(es: seq<Event>, k: nat)
    requires k < |es|
    ensures Run(STARTED, es[..k + 1]) == Step(Run(STARTED, es[..k]), es[k])
  {
    assert es[..k + 1][..k] == es[..k];
  }

  lemma FailedAtPrefix(es: seq<Event>, n: nat, k: nat, p: nat)
    requires n <= |es| && p <= n
    ensures FailedAt(es[..n], k, p) <==> FailedAt(es, k, p)
  {
    assert forall j :: 0 <= j <= n ==> es[..n][..j] == es[..j];
  }

  lemma FailedAtNext(es: seq<Event>, n: nat, k: nat)
    requires n < |es| && FailedAt(es, k, n) && Run(STARTED, es[..n + 1]).pc.AboutToPause?
    ensures FailedAt(es, k, n + 1)
  {
  }

  lemma JustFailed(es: seq<Event>, n: nat)
    requires n < |es| && !Run(STARTED, es[..n]).pc.AboutToPause? && Run(STARTED, es[..n + 1]).pc.AboutToPause?
    ensures FailedAt(es, n, n + 1)
  {
    RunAt(es, n);
  }

  /** After `n` steps of any run the worker is about to pause exactly when a send has just failed. */
  lemma {:induction false} AboutToPauseAt(es: seq<Event>, n: nat)
    requires n <= |es|
    ensures Run(STARTED, es[..n]).pc.AboutToPause? ==> exists k :: 0 <= k < n && FailedAt(es, k, n)
  {
    if n > 0 && Run(STARTED, es[..n]).pc.AboutToPause? {
      AboutToPauseAt(es, n - 1);
      if Run(STARTED, es[..n - 1]).pc.AboutToPause? {
        var k :| 0 <= k < n - 1 && FailedAt(es, k, n - 1);
        FailedAtNext(es, n - 1, k);
        assert FailedAt(es, k, n);
      } else {
        JustFailed(es, n - 1);
        assert FailedAt(es, n - 1, n);
      }
    }
  }

  lemma AboutToPauseIff(es: seq<Event>)
    ensures Run(STARTED, es).pc.AboutToPause? <==> exists k :: 0 <= k < |es| && FailedAt(es, k, |es|)
  {
    assert es[..|es|] == es;
    AboutToPauseAt(es, |es|);
    if k :| 0 <= k < |es| && FailedAt(es, k, |es|) {
      assert Run(STARTED, es[..|es|]).pc.AboutToPause?;
    }
  }

  /** Nothing has resumed the worker from step `p` on. */
  ghost predicate NotResumed(es: seq<Event>, p: nat) {
    forall j :: p < j < |es| ==> !Resumes(Run(STARTED, es[..j]), es[j])
  }

  lemma NotResumedNext(es: seq<Event>, p: nat)
    requires es != [] && NotResumed(es[..|es| - 1], p) && !Resumes(Run(STARTED, es[..|es| - 1]), es[|es| - 1])
    ensures NotResumed(es, p)
  {
    var init := es[..|es| - 1];
    forall j | p < j < |es| ensures !Resumes(Run(STARTED, es[..j]), es[j]) {
      if j < |init| {
        assert init[..j] == es[..j] && init[j] == es[j];
      } else {
        assert es[..j] == init;
      }
    }
  }

  lemma StillPaused(es: seq<Event>, k: nat, p: nat)
    requires es != [] && PausedSince(es[..|es| - 1], k, p) && !Resumes(Run(STARTED, es[..|es| - 1]), es[|es| - 1])
    ensures PausedSince(es, k, p)
  {
    FailedAtPrefix(es, |es| - 1, k, p);
    NotResumedNext(es, p);
  }

  lemma NewlyPaused(es: seq<Event>)
    requires es != [] && es[|es| - 1].Turn? && Run(STARTED, es[..|es| - 1]).pc.AboutToPause?
    ensures exists k, p :: PausedSince(es, k, p)
  {
    var init := es[..|es| - 1];
    AboutToPauseIff(init);
    var k :| 0 <= k < |init| && FailedAt(init, k, |init|);
    FailedAtPrefix(es, |init|, k, |init|);
    assert PausedSince(es, k, |init|);
  }

  /** Only a pause of its own pauses the worker. */
  lemma PausedStep(c: Child, e: Event)
    ensures Step(c, e).paused <==> (c.paused && !Resumes(c, e)) || (e.Turn? && c.pc.AboutToPause?)
  {
  }

  lemma {:induction false} PausedSinceIsPaused(es: seq<Event>, k: nat, p: nat)
    requires PausedSince(es, k, p)
    ensures Run(STARTED, es).paused
    decreases |es|
  {
    var init := es[..|es| - 1];
    assert forall j :: 0 <= j <= |init| ==> init[..j] == es[..j];
    PausedStep(Run(STARTED, init), es[|es| - 1]);
    if p < |init| {
      FailedAtPrefix(es, |init|, k, p);
      assert PausedSince(init, k, p);
      PausedSinceIsPaused(init, k, p);
    } else {
      assert Run(STARTED, es[..p]).pc.AboutToPause?;
    }
  }

  /**
   In every run the worker is paused exactly when it has paused after a failed send and neither a
   heartbeat nor stop() has got the lock since.
   */
  lemma {:induction false} PausedIff(es: seq<Event>)
    ensures Run(STARTED, es).paused <==> exists k, p :: PausedSince(es, k, p)
  {
    if es != [] && Run(STARTED, es).paused {
      var init, e := es[..|es| - 1], es[|es| - 1];
      PausedIff(init);
      PausedStep(Run(STARTED, init), e);
      if e.Turn? && Run(STARTED, init).pc.AboutToPause? {
        NewlyPaused(es);
      } else {
        var k, p :| PausedSince(init, k, p);
        StillPaused(es, k, p);
      }
    }
    if k, p :| PausedSince(es, k, p) { PausedSinceIsPaused(es, k, p); }
  }

  ghost predicate Awake(c: Child) {
    !c.paused && !c.pc.SawPaused? && !c.pc.AboutToSleep? && !c.pc.Asleep?
  }

  /** Awake, and no send has failed whose pause is still to come. */
  ghost predicate Carefree(c: Child) {
    Awake(c) && !c.pc.AboutToPause?
  }

  lemma CarefreeStep(c: Child, e: Event)
    requires Carefree(c) && !SendFails(c, e)
    ensures Carefree(Step(c, e))
  {
  }

  /** A carefree worker stays so until a send fails. */
  lemma {:induction false} StaysCarefree(c: Child, es: seq<Event>)
    requires Carefree(c)
    ensures Carefree(Run(c, es)) || exists k :: 0 <= k < |es| && SendFails(Run(c, es[..k]), es[k])
  {
    if es != [] {
      var init := es[..|es| - 1];
      StaysCarefree(c, init);
      if k :| 0 <= k < |init| && SendFails(Run(c, init[..k]), init[k]) {
        assert es[..k] == init[..k] && es[k] == init[k];
      } else if !SendFails(Run(c, init), es[|es| - 1]) {
        CarefreeStep(Run(c, init), es[|es| - 1]);
      } else {
        assert es[..|es| - 1] == init;
      }
    }
  }

  /**
   An unpause that gets the lock leaves the worker awake. From then on it is paused or asleep only
   after another failed send, unless a send had already failed and its pause was still to come.
   */
  lemma UnpauseIsNotLost(before: seq<Event>, es: seq<Event>)
    requires !HoldsLock(Run(STARTED, before).pc)
    ensures var c := Step(Run(STARTED, before), Unpause);
            && Awake(c)
            && (!Awake(Run(c, es)) ==>
                  || Run(STARTED, before).pc.AboutToPause?
                  || exists k :: 0 <= k < |es| && SendFails(Run(c, es[..k]), es[k]))
  {
    var c := Step(Run(STARTED, before), Unpause);
    if !Run(STARTED, before).pc.AboutToPause? { StaysCarefree(c, es); }
  }

  /** In that one case the heartbeat is lost: the worker pauses after it. */
  lemma UnpauseBeforePauseIsLost(before: seq<Event>)
    requires Run(STARTED, before).pc.AboutToPause?
    ensures Step(Step(Run(STARTED, before), Unpause), Turn(true)).paused
  {
  }

  // ---------------------------------------------------------------- what is sent

  /** A worker that waits in Get has nothing to get. */
  lemma {:induction false} WaitsOnlyWhenEmpty(es: seq<Event>)
    ensures var c := Run(STARTED, es); c.pc.GetWaiting? ==> c.q.queue == [] && !c.q.shuttingdown
  {
    if es != [] { WaitsOnlyWhenEmpty(es[..|es| - 1]); }
  }

  function TurnsToSend(pc: PC): nat {
    match pc
    case Sending(_) => 1
    case AtGet => 2
    case CheckShut => 3
    case Leaving => 4
    case GateLocked => 5
    case Gate => 6
    case Woken => 6
    case Finishing(_) => 7
    case _ => 8
  }

  /** On its way to a send: nothing stops it, and there is something to send. */
  ghost predicate OnItsWay(c: Child) {
    && Carefree(c) && !c.q.shuttingdown && !c.pc.Exited? && !c.pc.GetWaiting?
    && (c.q.queue != [] || c.pc.Sending?)
  }

  lemma OnItsWayStep(c: Child, e: Event)
    requires OnItsWay(c) && !e.ShutDown?
    ensures var d := Step(c, e);
            d.sends > c.sends || (OnItsWay(d) && TurnsToSend(d.pc) + (if e.Turn? then 1 else 0) <= TurnsToSend(c.pc))
  {
  }

  lemma {:induction false} GetsToSend(c: Child, es: seq<Event>)
    requires OnItsWay(c) && forall e :: e in es ==> !e.ShutDown?
    ensures var d := Run(c, es);
            d.sends > c.sends || (d.sends == c.sends && OnItsWay(d) && TurnsToSend(d.pc) + Turns(es) <= TurnsToSend(c.pc))
  {
    if es != [] {
      var init := es[..|es| - 1];
      assert (forall e :: e in init ==> e in es) && es[|es| - 1] in es;
      GetsToSend(c, init);
      SendsGrow(Run(c, init), es[|es| - 1]);
      if OnItsWay(Run(c, init)) { OnItsWayStep(Run(c, init), es[|es| - 1]); }
    }
  }

  lemma SendsGrow(c: Child, e: Event)
    ensures Step(c, e).sends == if e.Turn? && c.pc.Sending? then c.sends + 1 else c.sends
  {
  }

  /** A worker never exits before the queue is shut. */
  lemma {:induction false} ExitsOnlyWhenShut(es: seq<Event>)
    ensures Run(STARTED, es).pc.Exited? ==> Run(STARTED, es).q.shuttingdown
  {
    if es != [] { ExitsOnlyWhenShut(es[..|es| - 1]); }
  }

  /**
   A queued message is not left lying: from any reachable state in which the queue is open, the worker
   is not paused and no pause is coming, it performs a send within seven of its own turns, whatever
   everybody else does short of shutting the queue.
   */
  lemma QueuedMessageIsSent(before: seq<Event>, es: seq<Event>)
    requires var c := Run(STARTED, before); !c.q.shuttingdown && !c.paused && !c.pc.AboutToPause? && c.q.queue != []
    requires Turns(es) >= 7 && forall e :: e in es ==> !e.ShutDown?
    ensures Run(Run(STARTED, before), es).sends > Run(STARTED, before).sends
  {
    SleepsOnlyWhilePaused(before);
    WaitsOnlyWhenEmpty(before);
    ExitsOnlyWhenShut(before);
    GetsToSend(Run(STARTED, before), es);
  }

  /** What a step puts at the end of the queue, and what it sends. */
  function EnqueuedBy(c: Child, e: Event): seq<Message> {
    if e.Offer? && c.q.AddAppends(e.m) then [e.m]
    else if e.Turn? && c.pc.Finishing? && c.pc.m.id in c.q.dirty then [c.pc.m]
    else []
  }

  function SentBy(c: Child, e: Event): seq<Message> {
    if e.Turn? && c.pc.Sending? then [c.pc.m] else []
  }

  function Enqueued(es: seq<Event>): seq<Message> {
    if es == [] then [] else Enqueued(es[..|es| - 1]) + EnqueuedBy(Run(STARTED, es[..|es| - 1]), es[|es| - 1])
  }

  function Sent(es: seq<Event>): seq<Message> {
    if es == [] then [] else Sent(es[..|es| - 1]) + SentBy(Run(STARTED, es[..|es| - 1]), es[|es| - 1])
  }

  /** The message taken and not sent yet. */
  function Unsent(pc: PC): seq<Message> {
    if pc.Sending? then [pc.m] else []
  }

  /** The identifier that is being processed. */
  function InHand(pc: PC): set<MessageID> {
    match pc
    case Sending(m) => {m.id}
    case AboutToPause(m) => {m.id}
    case Finishing(m) => {m.id}
    case _ => {}
  }

  /** The worker takes the head, or nothing. */
  lemma SentAtGet(c: Child, e: Event)
    requires e.Turn? && c.pc.AtGet?
    ensures var d := Step(c, e); c.q.queue == Unsent(d.pc) + d.q.queue && EnqueuedBy(c, e) == SentBy(c, e) == []
  {
    if c.q.queue != [] { assert c.q.queue == [c.q.queue[0]] + c.q.queue[1..]; }
  }

  lemma SentSending(c: Child, e: Event)
    requires e.Turn? && c.pc.Sending?
    ensures var d := Step(c, e); Unsent(d.pc) == EnqueuedBy(c, e) == [] && d.q == c.q && SentBy(c, e) == Unsent(c.pc)
  {
  }

  lemma SentOther(c: Child, e: Event)
    requires !(e.Turn? && (c.pc.AtGet? || c.pc.Sending?))
    ensures var d := Step(c, e); Unsent(d.pc) == Unsent(c.pc) && d.q.queue == c.q.queue + EnqueuedBy(c, e) && SentBy(c, e) == []
  {
  }

  lemma SentStep(c: Child, e: Event, d: Child)
    requires d == Step(c, e)
    ensures Unsent(c.pc) + c.q.queue + EnqueuedBy(c, e) == SentBy(c, e) + Unsent(d.pc) + d.q.queue
  {
    if e.Turn? && c.pc.AtGet? {
      SentAtGet(c, e);
      Shift([], [], c.q.queue);
      assert Unsent(c.pc) == [];
    } else if e.Turn? && c.pc.Sending? {
      SentSending(c, e);
      assert Unsent(c.pc) + [] + c.q.queue == Unsent(c.pc) + c.q.queue + [];
    } else {
      SentOther(c, e);
      Shift(Unsent(c.pc), c.q.queue, EnqueuedBy(c, e));
    }
  }

  lemma Shift(hand: seq<Message>, queue: seq<Message>, more: seq<Message>)
    ensures hand + queue + more == [] + hand + (queue + more)
  {
  }

  lemma RegroupSent(sent: seq<Message>, hand: seq<Message>, queue: seq<Message>, more: seq<Message>,
                    now: seq<Message>, hand': seq<Message>, queue': seq<Message>)
    requires hand + queue + more == now + hand' + queue'
    ensures sent + hand + queue + more == (sent + now) + hand' + queue'
  {
    assert sent + hand + queue + more == sent + (hand + queue + more);
    assert (sent + now) + hand' + queue' == sent + (now + hand' + queue');
  }

  /**
   In every run the messages sent so far, the one in hand and those still queued are the messages put
   on the queue, in order.
   */
  lemma {:induction false} SentInOrder(es: seq<Event>)
    ensures Enqueued(es) == Sent(es) + Unsent(Run(STARTED, es).pc) + Run(STARTED, es).q.queue
  {
    if es != [] {
      var init, e := es[..|es| - 1], es[|es| - 1];
      var c, d := Run(STARTED, init), Run(STARTED, es);
      SentInOrder(init);
      SentStep(c, e, d);
      RegroupSent(Sent(init), Unsent(c.pc), c.q.queue, EnqueuedBy(c, e), SentBy(c, e), Unsent(d.pc), d.q.queue);
    }
  }

  /** And exactly the identifier of the message in hand is being processed. */
  lemma {:induction false} OnlyInHandIsProcessed(es: seq<Event>)
    ensures var c := Run(STARTED, es); c.q.processing == InHand(c.pc) && c.sends == |Sent(es)|
  {
    if es != [] {
      OnlyInHandIsProcessed(es[..|es| - 1]);
      InHandStep(Run(STARTED, es[..|es| - 1]), es[|es| - 1]);
      SendsGrow(Run(STARTED, es[..|es| - 1]), es[|es| - 1]);
    }
  }

  lemma InHandStep(c: Child, e: Event)
    requires c.q.processing == InHand(c.pc)
    ensures Step(c, e).q.processing == InHand(Step(c, e).pc)
  {
  }
}
