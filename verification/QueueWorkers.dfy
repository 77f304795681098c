/**
 Any number of producers and of workers that loop Get-then-Done on one queue, with the condition
 variable's wait list and the goroutines it has woken. A run is any list of events; an event that is
 not enabled leaves the system as it is, so every interleaving is a run.
 */
module QueueWorkers {
  import opened Messages
  import opened WorkQueue

  /** A worker in none of the four sets below is about to call Get. */
  datatype Sys = Sys(
    workers: set<Goroutine>,
    q: QState,
    waiting: set<Goroutine>,
    woken: set<Goroutine>,
    held: map<Goroutine, Message>,
    exited: set<Goroutine>)

  function Init(workers: set<Goroutine>): Sys {
    Sys(workers, NEW_QUEUE, {}, {}, map[], {})
  }

  /** `pick` is the goroutine that Signal takes off the wait list, when it takes one. */
  datatype Event =
    | Produce(m: Message, pick: Goroutine)
    | GetBy(g: Goroutine)
    | DoneBy(g: Goroutine, pick: Goroutine)
    | ShutDownNow

  predicate Enabled(s: Sys, e: Event) {
    match e
    case Produce(m, pick) => s.q.AddAppends(m) && s.waiting != {} ==> pick in s.waiting
    case GetBy(g) => g in s.workers && g !in s.waiting && g !in s.held && g !in s.exited
    case DoneBy(g, pick) => g in s.held && (s.held[g].id in s.q.dirty && s.waiting != {} ==> pick in s.waiting)
    case ShutDownNow => true
  }

  function Signal(s: Sys, pick: Goroutine): Sys {
    if s.waiting == {} then s else s.(waiting := s.waiting - {pick}, woken := s.woken + {pick})
  }

  /** `keep` selects the Done that keeps the dirty mark; the code as written is `keep == false`. */
  function Step(keep: bool, s: Sys, e: Event): Sys {
    if !Enabled(s, e) then s else
    match e
    case Produce(m, pick) =>
      var t := s.(q := s.q.Add(m));
      if s.q.AddAppends(m) then Signal(t, pick) else t
    case GetBy(g) =>
      var t := s.(woken := s.woken - {g});
      if s.q.queue != [] then t.(q := s.q.Take(), held := s.held[g := s.q.queue[0]])
      else if s.q.shuttingdown then t.(exited := s.exited + {g})
      else t.(waiting := s.waiting + {g})
    case DoneBy(g, pick) =>
      var m := s.held[g];
      var t := s.(q := if keep then s.q.DoneKeepingMark(m) else s.q.Done(m), held := s.held - {g});
      if m.id in s.q.dirty then Signal(t, pick) else t
    case ShutDownNow => s.(q := s.q.ShutDown(), waiting := {}, woken := s.woken + s.waiting)
  }

  function Run(keep: bool, s: Sys, es: seq<Event>): Sys {
    if es == [] then s else Step(keep, Run(keep, s, es[..|es| - 1]), es[|es| - 1])
  }

  /** A worker is in at most one place. */
  ghost predicate Placed(s: Sys) {
    && s.waiting <= s.workers && s.woken <= s.workers && s.held.Keys <= s.workers && s.exited <= s.workers
    && s.waiting !! s.woken && s.waiting !! s.held.Keys && s.waiting !! s.exited
    && s.woken !! s.held.Keys && s.woken !! s.exited && s.held.Keys !! s.exited
  }

  // ---------------------------------------------------------------- no lost wake-up

  /** While somebody waits, each queued message has a woken consumer of its own on the way. */
  ghost predicate WakeInv(s: Sys) {
    Placed(s) && (s.waiting != {} ==> |s.q.queue| <= |s.woken| && !s.q.shuttingdown)
  }

  lemma PlacedStep(keep: bool, s: Sys, e: Event)
    requires Placed(s)
    ensures Placed(Step(keep, s, e))
  {
    if Enabled(s, e) && e.GetBy? && s.q.queue != [] {
      assert s.held[e.g := s.q.queue[0]].Keys == s.held.Keys + {e.g};
    }
  }

  lemma SignalKeepsPace(s: Sys, pick: Goroutine)
    requires s.waiting !! s.woken
    ensures pick in s.waiting ==> |s.woken + {pick}| == |s.woken| + 1
  {
  }

  lemma WakeInvGet(keep: bool, s: Sys, e: Event)
    requires WakeInv(s) && e.GetBy? && Enabled(s, e)
    ensures WakeInv(Step(keep, s, e))
  {
    PlacedStep(keep, s, e);
    assert e.g in s.woken ==> |s.woken - {e.g}| == |s.woken| - 1;
    assert e.g !in s.woken ==> s.woken - {e.g} == s.woken;
  }

  lemma WakeInvAppend(keep: bool, s: Sys, e: Event)
    requires WakeInv(s) && (e.Produce? || e.DoneBy?) && Enabled(s, e)
    ensures WakeInv(Step(keep, s, e))
  {
    PlacedStep(keep, s, e);
    SignalKeepsPace(s, e.pick);
  }

  lemma WakeInvStep(keep: bool, s: Sys, e: Event)
    requires WakeInv(s)
    ensures WakeInv(Step(keep, s, e))
  {
    if Enabled(s, e) {
      match e
      case Produce(m, pick) => WakeInvAppend(keep, s, e);
      case GetBy(g) => WakeInvGet(keep, s, e);
      case DoneBy(g, pick) => WakeInvAppend(keep, s, e);
      case ShutDownNow => PlacedStep(keep, s, e);
    }
  }

  /** In every interleaving of producers, consumers and shutdown, no wake-up is lost. */
  lemma {:induction false} NoLostWakeup(keep: bool, workers: set<Goroutine>, es: seq<Event>)
    ensures var s := Run(keep, Init(workers), es);
            WakeInv(s) && (s.waiting != {} ==> |s.q.queue| <= |s.woken|)
  {
    if es != [] {
      NoLostWakeup(keep, workers, es[..|es| - 1]);
      WakeInvStep(keep, Run(keep, Init(workers), es[..|es| - 1]), es[|es| - 1]);
    }
  }

  /**
   So when a message is queued and a worker sleeps, some other worker has been woken and its next
   turn takes the message; and once ShutDown ran, nobody sleeps.
   */
  lemma QueuedMessageHasAwakeConsumer(keep: bool, workers: set<Goroutine>, es: seq<Event>)
    ensures var s := Run(keep, Init(workers), es);
            && (s.q.queue != [] && s.waiting != {} ==>
                  exists g :: g in s.woken && Enabled(s, GetBy(g)) && g in Step(keep, s, GetBy(g)).held)
            && (s.q.shuttingdown ==> s.waiting == {})
  {
    NoLostWakeup(keep, workers, es);
    var s := Run(keep, Init(workers), es);
    if s.q.queue != [] && s.waiting != {} {
      assert s.woken != {};
      var g :| g in s.woken;
      assert Enabled(s, GetBy(g)) && g in Step(keep, s, GetBy(g)).held;
    }
  }

  // ---------------------------------------------------------------- stinginess

  /** What the package comment promises: nothing is queued twice, and no two workers hold one ID. */
  ghost predicate Stingy(s: Sys) {
    && DistinctIDs(s.q.queue)
    && (forall g, h :: g in s.held && h in s.held && g != h ==> s.held[g].id != s.held[h].id)
  }

  ghost predicate StingyInv(s: Sys) {
    && Placed(s) && Stingy(s)
    && (forall m :: m in s.q.queue ==> m.id !in s.q.processing)
    && (forall g :: g in s.held ==> s.held[g].id in s.q.processing)
  }

  /** An Add that neither mark stops although its identifier is still queued. */
  ghost predicate StaleAdd(s: Sys, e: Event) {
    e.Produce? && Enabled(s, e) && s.q.AddAppends(e.m) && Queued(s.q.queue, e.m.id)
  }

  lemma AppendDistinct(queue: seq<Message>, m: Message)
    requires DistinctIDs(queue) && !Queued(queue, m.id)
    ensures DistinctIDs(queue + [m])
    ensures forall x :: x in queue + [m] <==> x in queue || x == m
  {
    forall i | 0 <= i < |queue| ensures queue[i].id != m.id {
      assert queue[i] in queue;
    }
  }

  lemma TailDistinct(queue: seq<Message>)
    requires queue != [] && DistinctIDs(queue)
    ensures DistinctIDs(queue[1..])
    ensures forall x :: x in queue[1..] ==> x in queue && x.id != queue[0].id
    ensures forall x :: x in queue ==> x in queue[1..] || x == queue[0]
  {
    assert queue == [queue[0]] + queue[1..];
    forall x | x in queue[1..] ensures x.id != queue[0].id {
      var i :| 0 <= i < |queue[1..]| && queue[1..][i] == x;
      assert queue[i + 1] == x;
    }
  }

  lemma StingyInvGet(keep: bool, s: Sys, e: Event)
    requires StingyInv(s) && e.GetBy?
    ensures StingyInv(Step(keep, s, e))
  {
    PlacedStep(keep, s, e);
    if s.q.queue != [] {
      TailDistinct(s.q.queue);
      assert s.q.queue[0] in s.q.queue;
    }
  }

  lemma StingyInvDone(keep: bool, s: Sys, e: Event)
    requires StingyInv(s) && e.DoneBy?
    ensures StingyInv(Step(keep, s, e))
  {
    PlacedStep(keep, s, e);
    if Enabled(s, e) && s.held[e.g].id in s.q.dirty {
      AppendDistinct(s.q.queue, s.held[e.g]);
    }
  }

  lemma StingyInvStep(keep: bool, s: Sys, e: Event)
    requires StingyInv(s) && !StaleAdd(s, e)
    ensures StingyInv(Step(keep, s, e))
  {
    match e
    case Produce(m, pick) =>
      PlacedStep(keep, s, e);
      if Enabled(s, e) && s.q.AddAppends(m) { AppendDistinct(s.q.queue, m); }
    case GetBy(g) => StingyInvGet(keep, s, e);
    case DoneBy(g, pick) => StingyInvDone(keep, s, e);
    case ShutDownNow =>
  }

  /** With the mark kept, an identifier is queued exactly while it is dirty and not being processed. */
  ghost predicate MarkInv(s: Sys) {
    forall id :: Queued(s.q.queue, id) <==> id in s.q.dirty && id !in s.q.processing
  }

  lemma MarkInvStep(s: Sys, e: Event)
    requires StingyInv(s) && MarkInv(s)
    ensures MarkInv(Step(true, s, e))
  {
    var t := Step(true, s, e);
    forall id ensures Queued(t.q.queue, id) <==> id in t.q.dirty && id !in t.q.processing {
      assert Queued(s.q.queue, id) <==> id in s.q.dirty && id !in s.q.processing;
      if Enabled(s, e) {
        match e
        case Produce(m, pick) =>
          assert s.q.AddAppends(m) ==> m in t.q.queue && forall x :: x in s.q.queue ==> x in t.q.queue;
        case GetBy(g) => if s.q.queue != [] { TailDistinct(s.q.queue); }
        case DoneBy(g, pick) =>
          assert s.held[g].id in s.q.dirty ==> s.held[g] in t.q.queue && forall x :: x in s.q.queue ==> x in t.q.queue;
        case ShutDownNow =>
      }
    }
  }

  /** The intended Done makes the queue stingy in every reachable state. */
  lemma {:induction false} MarkKeptIsStingy(workers: set<Goroutine>, es: seq<Event>)
    ensures var s := Run(true, Init(workers), es);
            && Stingy(s) && StingyInv(s)
            && (forall id :: Queued(s.q.queue, id) <==> id in s.q.dirty && id !in s.q.processing)
  {
    if es != [] {
      MarkKeptIsStingy(workers, es[..|es| - 1]);
      var s := Run(true, Init(workers), es[..|es| - 1]);
      StingyInvStep(true, s, es[|es| - 1]);
      MarkInvStep(s, es[|es| - 1]);
    }
  }

  lemma StaleAddBreaksPromise(s: Sys, e: Event)
    requires StaleAdd(s, e)
    ensures !Stingy(Step(false, s, e))
  {
    var t := Step(false, s, e);
    var x :| x in s.q.queue && x.id == e.m.id;
    var i :| 0 <= i < |s.q.queue| && s.q.queue[i] == x;
    assert t.q.queue[i].id == t.q.queue[|s.q.queue|].id;
  }

  lemma {:induction false} NoStaleAddIsStingy(workers: set<Goroutine>, es: seq<Event>)
    requires forall k :: 0 <= k < |es| ==> !StaleAdd(Run(false, Init(workers), es[..k]), es[k])
    ensures StingyInv(Run(false, Init(workers), es))
  {
    if es != [] {
      var init := es[..|es| - 1];
      forall k | 0 <= k < |init| ensures !StaleAdd(Run(false, Init(workers), init[..k]), init[k]) {
        assert init[..k] == es[..k];
      }
      NoStaleAddIsStingy(workers, init);
      StingyInvStep(false, Run(false, Init(workers), init), es[|es| - 1]);
    }
  }

  /**
   Done as written keeps the promise in exactly the runs where nobody adds an identifier that Done
   has put back on the queue, before a Get returns it.
   */
  lemma WrittenIsStingyIff(workers: set<Goroutine>, es: seq<Event>)
    ensures (forall k :: 0 <= k <= |es| ==> Stingy(Run(false, Init(workers), es[..k])))
       <==> (forall k :: 0 <= k < |es| ==> !StaleAdd(Run(false, Init(workers), es[..k]), es[k]))
  {
    var s0 := Init(workers);
    if forall k :: 0 <= k <= |es| ==> Stingy(Run(false, s0, es[..k])) {
      forall k | 0 <= k < |es| ensures !StaleAdd(Run(false, s0, es[..k]), es[k]) {
        var s := Run(false, s0, es[..k]);
        assert es[..k + 1][..k] == es[..k];
        var t := Run(false, s0, es[..k + 1]);
        assert t == Step(false, s, es[k]);
        if StaleAdd(s, es[k]) {
          StaleAddBreaksPromise(s, es[k]);
        }
      }
    }
    if forall k :: 0 <= k < |es| ==> !StaleAdd(Run(false, s0, es[..k]), es[k]) {
      forall k | 0 <= k <= |es| ensures Stingy(Run(false, s0, es[..k])) {
        forall j | 0 <= j < |es[..k]| ensures !StaleAdd(Run(false, s0, es[..k][..j]), es[..k][j]) {
          assert es[..k][..j] == es[..j];
        }
        NoStaleAddIsStingy(workers, es[..k]);
      }
    }
  }

  /** One worker, one identifier: add, get, add again while it is processed, done; `n` times. */
  function Cycles(n: nat, g: Goroutine, m: Message): seq<Event> {
    if n == 0 then [] else Cycles(n - 1, g, m) + [Produce(m, g)] + [GetBy(g)] + [Produce(m, g)] + [DoneBy(g, g)]
  }

  lemma RunSnoc(keep: bool, s: Sys, es: seq<Event>, e: Event)
    ensures Run(keep, s, es + [e]) == Step(keep, Run(keep, s, es), e)
  {
    assert (es + [e])[..|es|] == es;
  }

  lemma RunFour(keep: bool, s: Sys, es: seq<Event>, g: Goroutine, m: Message)
    ensures Run(keep, s, es + [Produce(m, g)] + [GetBy(g)] + [Produce(m, g)] + [DoneBy(g, g)]) ==
            FourSteps(keep, Run(keep, s, es), g, m)
  {
    RunSnoc(keep, s, es, Produce(m, g));
    RunSnoc(keep, s, es + [Produce(m, g)], GetBy(g));
    RunSnoc(keep, s, es + [Produce(m, g)] + [GetBy(g)], Produce(m, g));
    RunSnoc(keep, s, es + [Produce(m, g)] + [GetBy(g)] + [Produce(m, g)], DoneBy(g, g));
  }

  /** The system of one worker between cycles. */
  function Between(g: Goroutine, q: QState): Sys {
    Init({g}).(q := q)
  }

  function Copies(n: nat, m: Message): (r: seq<Message>)
    ensures |r| == n && forall i :: 0 <= i < n ==> r[i] == m
  {
    if n == 0 then [] else Copies(n - 1, m) + [m]
  }

  /** The system of one worker that has `n` copies of the message to take and no mark set. */
  function Piled(n: nat, g: Goroutine, m: Message): Sys {
    Between(g, QState(Copies(n, m), {}, {}, false))
  }

  /** As written, `n` such cycles leave `n` copies queued. */
  lemma {:induction false} CyclesLeaveCopies(n: nat, g: Goroutine, m: Message)
    ensures Run(false, Init({g}), Cycles(n, g, m)) == Piled(n, g, m)
    ensures Run(false, Init({g}), Cycles(n, g, m)).q.queue == Copies(n, m)
  {
    if n > 0 {
      CyclesLeaveCopies(n - 1, g, m);
      OneMoreCycle(false, n - 1, g, m, Piled(n - 1, g, m));
      WrittenCycle(n - 1, g, m);
    }
  }

  lemma OneMoreCycle(keep: bool, n: nat, g: Goroutine, m: Message, before: Sys)
    requires before == Run(keep, Init({g}), Cycles(n, g, m))
    ensures Run(keep, Init({g}), Cycles(n + 1, g, m)) == FourSteps(keep, before, g, m)
  {
    RunFour(keep, Init({g}), Cycles(n, g, m), g, m);
  }

  /** With the mark kept, any number of them leaves one copy. */
  lemma {:induction false} CyclesLeaveOneWhenKept(n: nat, g: Goroutine, m: Message)
    ensures Run(true, Init({g}), Cycles(n + 1, g, m)) == Between(g, QState([m], {m.id}, {}, false))
    decreases n
  {
    if n == 0 {
      OneMoreCycle(true, n, g, m, Between(g, NEW_QUEUE));
      KeptCycle(NEW_QUEUE, g, m);
    } else {
      CyclesLeaveOneWhenKept(n - 1, g, m);
      OneMoreCycle(true, n, g, m, Between(g, QState([m], {m.id}, {}, false)));
      KeptCycle(QState([m], {m.id}, {}, false), g, m);
    }
  }

  function FourSteps(keep: bool, s: Sys, g: Goroutine, m: Message): Sys {
    Step(keep, Step(keep, Step(keep, Step(keep, s, Produce(m, g)), GetBy(g)), Produce(m, g)), DoneBy(g, g))
  }

  lemma WrittenCycle(n: nat, g: Goroutine, m: Message)
    ensures FourSteps(false, Piled(n, g, m), g, m) == Piled(n + 1, g, m)
  {
    var copies := Copies(n, m);
    var s0 := Piled(n, g, m);
    var s1 := Step(false, s0, Produce(m, g));
    assert s1 == Init({g}).(q := QState(copies + [m], {m.id}, {}, false));
    assert (copies + [m])[1..] == copies && (copies + [m])[0] == m;
    var s2 := Step(false, s1, GetBy(g));
    assert s2.q == QState(copies, {}, {m.id}, false);
    var s3 := Step(false, s2, Produce(m, g));
    assert s3.q == QState(copies, {m.id}, {m.id}, false);
    var s4 := Step(false, s3, DoneBy(g, g));
    assert s4.q.dirty == {} && s4.q.processing == {} && s4.held == map[];
  }

  lemma KeptCycle(q: QState, g: Goroutine, m: Message)
    requires q == NEW_QUEUE || q == QState([m], {m.id}, {}, false)
    ensures FourSteps(true, Between(g, q), g, m) == Between(g, QState([m], {m.id}, {}, false))
  {
    var s1 := Step(true, Init({g}).(q := q), Produce(m, g));
    assert s1.q == QState([m], {m.id}, {}, false);
    var s2 := Step(true, s1, GetBy(g));
    assert s2.q == QState([], {}, {m.id}, false);
    var s3 := Step(true, s2, Produce(m, g));
    assert s3.q == QState([], {m.id}, {m.id}, false);
    var s4 := Step(true, s3, DoneBy(g, g));
    assert s4.q.processing == {} && s4.held == map[];
  }

  // ---------------------------------------------------------------- complete drain, Done as written

  /** Every identifier in processing is held by a worker. */
  ghost predicate ProcessingHeld(s: Sys) {
    forall id :: id in s.q.processing ==> exists g :: g in s.held && s.held[g].id == id
  }

  ghost predicate DrainInv(s: Sys) {
    && WakeInv(s) && DirtyCovered(s.q) && ProcessingHeld(s)
    && (s.exited != {} ==> s.q.shuttingdown)
    && (s.exited == s.workers && s.workers != {} ==> s.q.queue == [])
  }

  lemma ProcessingHeldStep(s: Sys, e: Event)
    requires ProcessingHeld(s) && Placed(s)
    ensures ProcessingHeld(Step(false, s, e))
  {
    var t := Step(false, s, e);
    forall id | id in t.q.processing ensures exists h :: h in t.held && t.held[h].id == id {
      if id in s.q.processing {
        var h :| h in s.held && s.held[h].id == id;
        assert h in t.held && t.held[h].id == id;
      } else {
        assert e.GetBy? && t.held[e.g].id == id;
      }
    }
  }

  lemma DirtyCoveredHere(s: Sys, e: Event)
    requires DirtyCovered(s.q)
    ensures DirtyCovered(Step(false, s, e).q)
  {
    if Enabled(s, e) {
      match e
      case Produce(m, pick) => DirtyCoveredStep(s.q, CallAdd(m));
      case GetBy(g) => DirtyCoveredStep(s.q, CallGet);
      case DoneBy(g, pick) => DirtyCoveredStep(s.q, CallDone(s.held[g]));
      case ShutDownNow => DirtyCoveredStep(s.q, CallShutDown);
    }
  }

  lemma DrainInvStep(s: Sys, e: Event)
    requires DrainInv(s)
    ensures DrainInv(Step(false, s, e))
  {
    WakeInvStep(false, s, e);
    DirtyCoveredHere(s, e);
    ProcessingHeldStep(s, e);
    ExitStep(s, e);
  }

  lemma ExitStep(s: Sys, e: Event)
    requires Placed(s) && (s.exited != {} ==> s.q.shuttingdown)
    requires s.exited == s.workers && s.workers != {} ==> s.q.queue == []
    ensures var t := Step(false, s, e);
            && (t.exited != {} ==> t.q.shuttingdown)
            && (t.exited == t.workers && t.workers != {} ==> t.q.queue == [])
  {
    if Enabled(s, e) {
      match e
      case Produce(m, pick) =>
      case GetBy(g) =>
      case DoneBy(g, pick) => assert g in s.workers && g !in s.exited;
      case ShutDownNow =>
    }
  }

  lemma {:induction false} DrainInvAlways(workers: set<Goroutine>, es: seq<Event>)
    ensures DrainInv(Run(false, Init(workers), es))
  {
    if es != [] {
      DrainInvAlways(workers, es[..|es| - 1]);
      DrainInvStep(Run(false, Init(workers), es[..|es| - 1]), es[|es| - 1]);
    }
  }

  /** Once every worker has seen the shutdown, nothing is queued, marked or in processing. */
  lemma AllExitedMeansDrained(workers: set<Goroutine>, es: seq<Event>)
    requires workers != {} && Run(false, Init(workers), es).exited == workers
    ensures var q := Run(false, Init(workers), es).q; q == QState([], {}, {}, true)
  {
    DrainInvAlways(workers, es);
    var s := Run(false, Init(workers), es);
    PlacedKeepsWorkers(workers, es);
    assert s.held.Keys == {};
    assert s.q.processing == {};
    assert s.q.dirty == {};
  }

  lemma {:induction false} PlacedKeepsWorkers(workers: set<Goroutine>, es: seq<Event>)
    ensures Run(false, Init(workers), es).workers == workers
  {
    if es != [] { PlacedKeepsWorkers(workers, es[..|es| - 1]); }
  }

  function Left(s: Sys): nat {
    |s.q.queue| + |s.q.dirty|
  }

  /** What a worker still has to do after the shutdown. */
  function Work(s: Sys): nat {
    2 * Left(s) + |s.held| + |s.workers - s.exited|
  }

  predicate WorkerTurn(s: Sys, e: Event) {
    (e.GetBy? || e.DoneBy?) && Enabled(s, e)
  }

  predicate TakesMessage(s: Sys, e: Event) {
    e.GetBy? && Enabled(s, e) && s.q.queue != []
  }

  function Turns(s: Sys, es: seq<Event>): nat {
    if es == [] then 0
    else Turns(s, es[..|es| - 1]) + if WorkerTurn(Run(false, s, es[..|es| - 1]), es[|es| - 1]) then 1 else 0
  }

  function MessagesTaken(s: Sys, es: seq<Event>): nat {
    if es == [] then 0
    else MessagesTaken(s, es[..|es| - 1]) + if TakesMessage(Run(false, s, es[..|es| - 1]), es[|es| - 1]) then 1 else 0
  }

  lemma RemoveOne<T>(a: set<T>, x: T)
    ensures |a - {x}| == if x in a then |a| - 1 else |a|
  {
    if x !in a { assert a - {x} == a; }
  }

  lemma DrainGet(s: Sys, g: Goroutine)
    requires Placed(s) && s.q.shuttingdown && Enabled(s, GetBy(g))
    ensures var t := Step(false, s, GetBy(g));
            Left(t) + (if s.q.queue != [] then 1 else 0) <= Left(s) && Work(t) + 1 <= Work(s)
  {
    if s.q.queue == [] {
      assert s.workers - (s.exited + {g}) == (s.workers - s.exited) - {g};
    } else {
      RemoveOne(s.q.dirty, s.q.queue[0].id);
      assert s.held[g := s.q.queue[0]].Keys - {g} == s.held.Keys;
    }
  }

  lemma DrainDone(s: Sys, g: Goroutine, pick: Goroutine)
    requires Placed(s) && s.q.shuttingdown && Enabled(s, DoneBy(g, pick))
    ensures var t := Step(false, s, DoneBy(g, pick)); Left(t) <= Left(s) && Work(t) + 1 <= Work(s)
  {
    RemoveOne(s.q.dirty, s.held[g].id);
    assert (s.held - {g}).Keys == s.held.Keys - {g};
    assert |s.held - {g}| == |(s.held - {g}).Keys| && |s.held| == |s.held.Keys|;
  }

  lemma DrainStep(s: Sys, e: Event)
    requires Placed(s) && s.q.shuttingdown
    ensures var t := Step(false, s, e);
            && Left(t) + (if TakesMessage(s, e) then 1 else 0) <= Left(s)
            && Work(t) + (if WorkerTurn(s, e) then 1 else 0) <= Work(s)
            && t.q.shuttingdown
  {
    if Enabled(s, e) {
      match e
      case GetBy(g) => DrainGet(s, g);
      case DoneBy(g, pick) => DrainDone(s, g, pick);
      case Produce(m, pick) =>
      case ShutDownNow =>
    }
  }

  /**
   After ShutDown, whatever the interleaving, at most |queue| + |dirty| further Gets return a message
   and the workers take at most `Work` turns in all.
   */
  lemma {:induction false} DrainIsBounded(s: Sys, es: seq<Event>)
    requires WakeInv(s) && s.q.shuttingdown
    ensures MessagesTaken(s, es) + Left(Run(false, s, es)) <= |s.q.queue| + |s.q.dirty|
    ensures Turns(s, es) + Work(Run(false, s, es)) <= Work(s)
    ensures WakeInv(Run(false, s, es)) && Run(false, s, es).q.shuttingdown
  {
    if es != [] {
      DrainIsBounded(s, es[..|es| - 1]);
      var p := Run(false, s, es[..|es| - 1]);
      DrainStep(p, es[|es| - 1]);
      WakeInvStep(false, p, es[|es| - 1]);
    }
  }

  /** Until all workers have exited, some worker has a turn to take; so the drain always completes. */
  lemma DrainNeverStuck(s: Sys)
    requires WakeInv(s) && s.q.shuttingdown
    ensures s.exited == s.workers <==> forall e :: !WorkerTurn(s, e)
  {
    if s.exited != s.workers {
      var g :| g in s.workers && g !in s.exited;
      assert WorkerTurn(s, GetBy(g)) || WorkerTurn(s, DoneBy(g, g));
    }
  }
}
