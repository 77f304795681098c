/**
 Runs of the master before Stop: heartbeats, ticks of its sweepers, pauses by workers, and message
 traffic through the router, at times that never go back. Handlers and ticks run under one lock, so
 each is one step, whichever of the two sweepers takes it.
 */
module MasterRuns {
  import opened Messages
  import opened CentralRouting
  import opened MasterNode
  import R = CentralRuns

  /** `workers` maps the node object each worker was started for to the child's ID. */
  datatype Sys = Sys(id: string, router: R.Router, children: map<string, Child<nat>>, workers: map<nat, string>, now: Nanos)

  function Seen(s: Sys): View<nat> {
    View(s.router.table, s.children)
  }

  function Init(id: string, now: Nanos): Sys {
    Sys(id, R.Step(R.EMPTY_ROUTER, R.AddNode(id)), map[], map[], now)
  }

  datatype Event =
    | Heard(hb: Heartbeat, at: Nanos)
    | Tick(at: Nanos, order: seq<string>)   // `order` is the order in which the stale IDs are listed
    | Pause(child: string)
    | Traffic(e: R.Event)

  /** Messages move between known queues; the tables are the master's business. */
  predicate IsTraffic(s: Sys, e: R.Event) {
    (e.Enqueue? || e.Forward? || e.Send? || e.Sent?) && e.n in s.router.owner
  }

  ghost predicate Lists(order: seq<string>, ids: set<string>) {
    Distinct(order) && forall x :: x in order <==> x in ids
  }

  ghost function Step(s: Sys, e: Event): Sys {
    match e
    case Heard(hb, at) =>
      if at < s.now then s else
      var v := Beat(Seen(s), hb, at, s.router.next);
      if hb.id in s.children then s.(children := v.children, now := at)
      else s.(router := R.Step(s.router, R.AddNode(hb.id)).(table := v.table), children := v.children,
              workers := s.workers[v.children[hb.id].queues := hb.id], now := at)
    case Tick(at, order) =>
      if at < s.now || !Lists(order, StaleIds(Seen(s), at)) then s
      else s.(router := R.RemoveAll(s.router, order), children := s.children - StaleIds(Seen(s), at), now := at)
    case Pause(x) =>
      if x in s.children then s.(children := s.children[x := s.children[x].(paused := true)]) else s
    case Traffic(te) =>
      if IsTraffic(s, te) then s.(router := R.Step(s.router, te)) else s
  }

  ghost function Run(s: Sys, es: seq<Event>): Sys {
    if es == [] then s else Step(Run(s, es[..|es| - 1]), es[|es| - 1])
  }

  ghost predicate TablesInv(s: Sys) {
    R.RouterInv(s.router) && TablesCoupled(Seen(s), s.id)
  }

  /** Every worker was started for a node object of its child, and every child has one. */
  ghost predicate WorkersInv(id: string, owner: map<nat, string>, children: map<string, Child<nat>>, workers: map<nat, string>) {
    && (forall n :: n in workers ==> n in owner && owner[n] == workers[n] && workers[n] != id)
    && (forall x :: x in children ==> children[x].queues in workers)
    && id !in children
  }

  ghost predicate SysInv(s: Sys) {
    TablesInv(s) && WorkersInv(s.id, s.router.owner, s.children, s.workers)
  }

  /** A tick that takes effect. */
  ghost predicate Sweeps(s: Sys, e: Event) {
    e.Tick? && s.now <= e.at && Lists(e.order, StaleIds(Seen(s), e.at))
  }

  /** A tick that evicts the master's own entry. */
  ghost predicate SweepsMaster(s: Sys, e: Event) {
    Sweeps(s, e) && s.id in StaleIds(Seen(s), e.at)
  }

  /** A heartbeat that carries the master's own ID. */
  predicate ImpersonatesMaster(s: Sys, e: Event) {
    e.Heard? && s.now <= e.at && e.hb.id == s.id
  }

  lemma RemoveFirst<N>(t: Table<N>, a: string, part: set<string>)
    requires t.Agree() && a in t.nodes && a !in part
    ensures RemoveNodes(t.RemoveNode(a), part) == RemoveNodes(t, part + {a})
  {
    assert t.nodes - {a} - part == t.nodes - (part + {a});
    forall ty | ty in t.routes ensures t.routes[ty] - {a} - part == t.routes[ty] - (part + {a}) {}
  }

  lemma {:induction false} RemoveAllTable(r: R.Router, ids: seq<string>, gone: set<string>)
    requires r.table.Agree() && Distinct(ids) && gone <= r.table.nodes.Keys
    requires forall x :: x in ids <==> x in gone
    ensures R.RemoveAll(r, ids).table == RemoveNodes(r.table, gone)
    ensures R.RemoveAll(r, ids).owner == r.owner
    decreases |ids|
  {
    if ids == [] {
      assert gone == {};
      var v: View<nat> := View(r.table, map[]);
      RemoveNone(v);
    } else {
      var a, rest, part := ids[0], ids[1..], gone - {ids[0]};
      assert a in ids && forall x :: x in ids <==> x == a || x in rest;
      var r' := R.RemoveStep(r, a);
      RemoveNodeAgree(r.table, a);
      RemoveAllTable(r', rest, part);
      RemoveFirst(r.table, a, part);
      assert part + {a} == gone;
    }
  }

  /** The step's tables and children are those of the specification of one sweep. */
  lemma TickIsSweep(s: Sys, e: Event)
    requires TablesCoupled(Seen(s), s.id) && Sweeps(s, e)
    ensures Seen(Step(s, e)) == Swept(Seen(s), e.at) && Step(s, e).router.owner == s.router.owner
  {
    RemoveAllTable(s.router, e.order, StaleIds(Seen(s), e.at));
  }

  lemma TickTablesInv(s: Sys, e: Event)
    requires TablesInv(s) && Sweeps(s, e) && !SweepsMaster(s, e)
    ensures TablesInv(Step(s, e))
  {
    TickIsSweep(s, e);
    R.RemoveAllInv(s.router, e.order);
    SweptCoupledIff(Seen(s), s.id, e.at);
  }

  lemma RoutesOnlyInv(r: R.Router, t: Table<nat>)
    requires R.RouterInv(r) && t.Agree() && t.nodes == r.table.nodes
    ensures R.RouterInv(r.(table := t))
  {
    assert forall n :: R.Live(r.(table := t), n) <==> R.Live(r, n);
  }

  /** The router's part of the first heartbeat of a child. */
  lemma DiscoveryRouter(s: Sys, hb: Heartbeat, at: Nanos)
    requires TablesInv(s) && hb.id !in s.children
    ensures var r := R.Step(s.router, R.AddNode(hb.id)).(table := Beat(Seen(s), hb, at, s.router.next).table); R.RouterInv(r)
  {
    R.RouterInvStep(s.router, R.AddNode(hb.id));
    var r := R.Step(s.router, R.AddNode(hb.id));
    AddRoutesAgree(r.table, hb.subscriptions, hb.id);
    RoutesOnlyInv(r, Beat(Seen(s), hb, at, s.router.next).table);
  }

  lemma HeardTablesInv(s: Sys, hb: Heartbeat, at: Nanos)
    requires TablesInv(s) && s.now <= at
    ensures TablesInv(Step(s, Heard(hb, at)))
  {
    BeatTablesCoupled(Seen(s), s.id, hb, at, s.router.next);
    if hb.id !in s.children { DiscoveryRouter(s, hb, at); }
  }

  lemma TrafficKeeps(r: R.Router, te: R.Event)
    requires te.Enqueue? || te.Forward? || te.Send? || te.Sent?
    ensures R.Step(r, te).table == r.table && R.Step(r, te).owner == r.owner
  {
  }

  lemma TrafficTablesInv(s: Sys, te: R.Event)
    requires TablesInv(s)
    ensures TablesInv(Step(s, Traffic(te)))
  {
    if IsTraffic(s, te) {
      R.RouterInvStep(s.router, te);
      TrafficKeeps(s.router, te);
    }
  }

  /** Only a sweep of the master's own entry can take the tables apart. */
  lemma TablesInvStep(s: Sys, e: Event)
    requires TablesInv(s) && !SweepsMaster(s, e)
    ensures TablesInv(Step(s, e))
  {
    match e
    case Heard(hb, at) => if s.now <= at { HeardTablesInv(s, hb, at); }
    case Tick(at, order) => if Sweeps(s, e) { TickTablesInv(s, e); }
    case Pause(x) =>
    case Traffic(te) => TrafficTablesInv(s, te);
  }

  /** What a new child's worker is started for. */
  lemma DiscoveryWorker(s: Sys, hb: Heartbeat, at: Nanos)
    requires TablesInv(s) && hb.id !in s.children && hb.id != s.id && s.now <= at
    ensures var t := Step(s, Heard(hb, at));
            && t.children == s.children[hb.id := Child(s.router.next, at, hb.interval, false)]
            && t.workers == s.workers[s.router.next := hb.id]
            && t.router.owner == s.router.owner[s.router.next := hb.id] && s.router.next !in s.router.owner
  {
    AddRoutesAgree(s.router.table.AddNode(hb.id, s.router.next), hb.subscriptions, hb.id);
  }

  lemma NewWorker(id: string, owner: map<nat, string>, children: map<string, Child<nat>>, workers: map<nat, string>,
                  n: nat, x: string, c: Child<nat>)
    requires WorkersInv(id, owner, children, workers) && n !in owner && x != id && c.queues == n
    ensures WorkersInv(id, owner[n := x], children[x := c], workers[n := x])
  {
  }

  lemma WorkersStep(s: Sys, e: Event)
    requires SysInv(s) && !ImpersonatesMaster(s, e)
    ensures var t := Step(s, e); WorkersInv(s.id, t.router.owner, t.children, t.workers)
  {
    match e
    case Heard(hb, at) =>
      if s.now <= at && hb.id !in s.children {
        DiscoveryWorker(s, hb, at);
        NewWorker(s.id, s.router.owner, s.children, s.workers, s.router.next, hb.id, Child(s.router.next, at, hb.interval, false));
      }
    case Tick(at, order) => if Sweeps(s, e) { TickIsSweep(s, e); }
    case Pause(x) =>
    case Traffic(te) => if IsTraffic(s, te) { TrafficKeeps(s.router, te); }
  }

  lemma {:induction false} KeepsId(s: Sys, e: Event)
    ensures Step(s, e).id == s.id
  {
  }

  lemma SysInvStep(s: Sys, e: Event)
    requires SysInv(s) && !ImpersonatesMaster(s, e)
    ensures SysInv(Step(s, e)) && Step(s, e).id == s.id
  {
    TablesInvStep(s, e);
    WorkersStep(s, e);
    KeepsId(s, e);
  }

  lemma InitInv(id: string, now: Nanos)
    ensures SysInv(Init(id, now))
  {
    R.RouterInvStep(R.EMPTY_ROUTER, R.AddNode(id));
  }

  /** IDs are unique across the master and its children. */
  ghost predicate UniqueIds(s: Sys, es: seq<Event>) {
    forall k :: 0 <= k < |es| ==> !ImpersonatesMaster(Run(s, es[..k]), es[k])
  }

  lemma {:induction false} CoupledAlways(s: Sys, es: seq<Event>)
    requires SysInv(s) && UniqueIds(s, es)
    ensures SysInv(Run(s, es)) && Run(s, es).id == s.id
  {
    if es != [] {
      var init := es[..|es| - 1];
      assert forall k :: 0 <= k < |init| ==> init[..k] == es[..k];
      assert es[..|init|] == init;
      CoupledAlways(s, init);
      SysInvStep(Run(s, init), es[|es| - 1]);
    }
  }

  ghost predicate NeverSweepsMaster(s: Sys, es: seq<Event>) {
    forall k :: 0 <= k < |es| ==> !SweepsMaster(Run(s, es[..k]), es[k])
  }

  lemma {:induction false} TablesCoupledAlways(s: Sys, es: seq<Event>)
    requires TablesInv(s) && NeverSweepsMaster(s, es)
    ensures TablesInv(Run(s, es))
  {
    if es != [] {
      var init := es[..|es| - 1];
      assert forall k :: 0 <= k < |init| ==> init[..k] == es[..k];
      assert es[..|init|] == init;
      TablesCoupledAlways(s, init);
      TablesInvStep(Run(s, init), es[|es| - 1]);
    }
  }

  /**
   The tables of master and router stay coupled through a whole run exactly when no tick of it evicts
   the master's own entry.
   */
  lemma CoupledIffMasterStays(id: string, now: Nanos, es: seq<Event>)
    ensures (forall k :: 0 <= k <= |es| ==> TablesCoupled(Seen(Run(Init(id, now), es[..k])), id))
       <==> NeverSweepsMaster(Init(id, now), es)
  {
    var s0 := Init(id, now);
    InitInv(id, now);
    if NeverSweepsMaster(s0, es) {
      forall k | 0 <= k <= |es| ensures TablesCoupled(Seen(Run(s0, es[..k])), id) {
        assert forall j :: 0 <= j < k ==> es[..k][..j] == es[..j];
        TablesCoupledAlways(s0, es[..k]);
        SameId(s0, es[..k]);
      }
    } else {
      var k :| 0 <= k < |es| && SweepsMaster(Run(s0, es[..k]), es[k]);
      SameId(s0, es[..k]);
      RunNext(s0, es, k);
      MasterSwept(s0, Run(s0, es[..k]), Run(s0, es[..k + 1]), es[k]);
    }
  }

  lemma SweepBreaks(p: Sys, e: Event)
    requires SweepsMaster(p, e) && TablesCoupled(Seen(p), p.id)
    ensures !TablesCoupled(Seen(Step(p, e)), p.id)
  {
    TickIsSweep(p, e);
    SweptCoupledIff(Seen(p), p.id, e.at);
  }

  lemma RunNext(s: Sys, es: seq<Event>, k: nat)
    requires k < |es|
    ensures Run(s, es[..k + 1]) == Step(Run(s, es[..k]), es[k])
  {
    assert es[..k + 1][..k] == es[..k];
  }

  lemma MasterSwept(s: Sys, p: Sys, next: Sys, e: Event)
    requires SweepsMaster(p, e) && next == Step(p, e) && p.id == s.id
    ensures !TablesCoupled(Seen(p), s.id) || !TablesCoupled(Seen(next), s.id)
  {
    if TablesCoupled(Seen(p), s.id) { SweepBreaks(p, e); }
  }

  /** The master's node is still the object it was created with. */
  ghost predicate MasterKept(s: Sys) {
    && TablesInv(s) && s.id in s.router.table.nodes && s.router.table.nodes[s.id] == 0
    && 0 in s.router.owner && s.router.owner[0] == s.id
  }

  lemma MasterKeptHeard(s: Sys, hb: Heartbeat, at: Nanos)
    requires MasterKept(s) && s.now <= at
    ensures var r := Step(s, Heard(hb, at)).router;
            s.id in r.table.nodes && r.table.nodes[s.id] == 0 && 0 in r.owner && r.owner[0] == s.id
  {
    AddRoutesAgree(s.router.table.AddNode(hb.id, s.router.next), hb.subscriptions, hb.id);
  }

  lemma MasterKeptStep(s: Sys, e: Event)
    requires MasterKept(s) && !SweepsMaster(s, e)
    ensures MasterKept(Step(s, e))
  {
    TablesInvStep(s, e);
    match e
    case Heard(hb, at) => if s.now <= at { MasterKeptHeard(s, hb, at); }
    case Tick(at, order) => if Sweeps(s, e) { TickIsSweep(s, e); }
    case Pause(x) =>
    case Traffic(te) => if IsTraffic(s, te) { TrafficKeeps(s.router, te); }
  }

  lemma {:induction false} MasterKeptAlways(s: Sys, es: seq<Event>)
    requires MasterKept(s) && NeverSweepsMaster(s, es)
    ensures MasterKept(Run(s, es))
  {
    if es != [] {
      var init := es[..|es| - 1];
      assert forall k :: 0 <= k < |init| ==> init[..k] == es[..k];
      assert es[..|init|] == init;
      MasterKeptAlways(s, init);
      MasterKeptStep(Run(s, init), es[|es| - 1]);
    }
  }

  /**
   As long as no tick evicts the master's own entry, the queues that the master was given at its start
   are the router's queues for its ID, and both are open.
   */
  lemma MasterQueuesStayOpen(id: string, now: Nanos, es: seq<Event>)
    requires NeverSweepsMaster(Init(id, now), es)
    ensures var own, r := Init(id, now).router.table.nodes[id], Run(Init(id, now), es).router;
            && id in r.table.nodes && r.table.nodes[id] == own
            && !R.Get(r.rcv, own).q.shuttingdown && !R.Get(r.snd, own).q.shuttingdown
  {
    InitInv(id, now);
    MasterKeptAlways(Init(id, now), es);
    SameId(Init(id, now), es);
    assert R.Live(Run(Init(id, now), es).router, 0);
  }

  /** With unique IDs the master is no child of its own, so no tick evicts it. */
  lemma UniqueIdsKeepMaster(id: string, now: Nanos, es: seq<Event>)
    requires UniqueIds(Init(id, now), es)
    ensures NeverSweepsMaster(Init(id, now), es)
  {
    InitInv(id, now);
    forall k | 0 <= k < |es| ensures !SweepsMaster(Run(Init(id, now), es[..k]), es[k]) {
      assert forall j :: 0 <= j < k ==> es[..k][..j] == es[..j];
      CoupledAlways(Init(id, now), es[..k]);
    }
  }

  /** One heartbeat with the master's own ID and a tick late enough: the router has lost the master. */
  lemma OwnHeartbeatThenLateTick(id: string, now: Nanos, hb: Heartbeat, at: Nanos, late: Nanos)
    requires hb.id == id && now <= at <= late && at + Grace(hb.interval) < late
    ensures var s := Run(Init(id, now), [Heard(hb, at)] + [Tick(late, [id])]);
            id !in s.router.table.nodes && !TablesCoupled(Seen(s), id)
  {
    var s0, heard, tick := Init(id, now), Heard(hb, at), Tick(late, [id]);
    var s1 := Step(s0, heard);
    InitInv(id, now);
    HeardTablesInv(s0, hb, at);
    assert s1.children.Keys == {id};
    assert StaleIds(Seen(s1), late) == {id};
    assert Sweeps(s1, tick);
    TickIsSweep(s1, tick);
    assert Run(s0, []) == s0 && [heard][..0] == [] && ([heard] + [tick])[..1] == [heard];
    assert Run(s0, [heard]) == s1;
  }

  lemma {:induction false} SameId(s: Sys, es: seq<Event>)
    ensures Run(s, es).id == s.id
  {
    if es != [] { SameId(s, es[..|es| - 1]); }
  }

  /** Some worker was started for the node object, and its send queue is still open. */
  ghost predicate SendsFor(s: Sys, n: nat) {
    n in s.workers && !R.Get(s.router.snd, n).q.shuttingdown
  }

  /**
   In every reachable state: a child's queues are the router's queues for its ID and are open, and of
   all workers ever started for one ID, through any evictions and rediscoveries, at most one has an
   open send queue.
   */
  lemma ChildrenOpenAndWorkersUnique(id: string, now: Nanos, es: seq<Event>)
    requires UniqueIds(Init(id, now), es)
    ensures var s := Run(Init(id, now), es);
            && (forall x :: x in s.children ==>
                  && x in s.router.table.nodes && s.children[x].queues == s.router.table.nodes[x]
                  && !R.Get(s.router.snd, s.children[x].queues).q.shuttingdown
                  && !R.Get(s.router.rcv, s.children[x].queues).q.shuttingdown)
            && (forall m, n :: SendsFor(s, m) && SendsFor(s, n) && s.workers[m] == s.workers[n] ==> m == n)
  {
    InitInv(id, now);
    CoupledAlways(Init(id, now), es);
    var s := Run(Init(id, now), es);
    forall x | x in s.children ensures R.Live(s.router, s.children[x].queues) {
      assert s.router.table.nodes[x] == s.children[x].queues;
    }
  }

  // ---------------------------------------------------------------- eviction timing

  predicate BeatOf(s: Sys, e: Event, x: string) {
    e.Heard? && e.hb.id == x && s.now <= e.at
  }

  /** When the latest heartbeat of `x` was processed; before the first, what the master has on record. */
  ghost function LastBeat(s: Sys, es: seq<Event>, x: string): Nanos
    requires x in s.children
  {
    if es == [] then s.children[x].lastTimestamp
    else if BeatOf(Run(s, es[..|es| - 1]), es[|es| - 1], x) then es[|es| - 1].at
    else LastBeat(s, es[..|es| - 1], x)
  }

  /** Consecutive processed heartbeats of `x` are at most `w` apart. */
  ghost predicate Regular(s: Sys, es: seq<Event>, x: string, w: Nanos)
    requires x in s.children
  {
    forall k :: 0 <= k < |es| && BeatOf(Run(s, es[..k]), es[k], x) ==> es[k].at <= LastBeat(s, es[..k], x) + w
  }

  /** While heartbeats keep coming at most three intervals apart, the child is never removed. */
  lemma {:induction false} RegularChildIsKept(s: Sys, es: seq<Event>, x: string)
    requires SysInv(s) && UniqueIds(s, es) && x in s.children && s.children[x].interval <= 3_074_457_345
    requires var w := 3 * s.children[x].interval * SECOND;
             Regular(s, es, x, w) && Run(s, es).now <= LastBeat(s, es, x) + w
    ensures var u := Run(s, es);
            && x in u.children && u.children[x].queues == s.children[x].queues && u.children[x].interval == s.children[x].interval
            && u.children[x].lastTimestamp == LastBeat(s, es, x)
  {
    if es != [] {
      var init, e := es[..|es| - 1], es[|es| - 1];
      var p := Run(s, init);
      assert forall k :: 0 <= k < |es| ==> init[..k] == es[..k];
      assert es[..|init|] == init;
      TimeNeverGoesBack(p, e);
      assert LastBeat(s, es, x) == (if BeatOf(p, e, x) then e.at else LastBeat(s, init, x));
      RegularChildIsKept(s, init, x);
      CoupledAlways(s, init);
      TimelyStep(p, e, x);
    }
  }

  /** What a step that is no sweep does to a child. */
  lemma OtherStep(s: Sys, e: Event, x: string)
    requires x in s.children && !Sweeps(s, e)
    ensures var u := Step(s, e);
            && x in u.children && u.children[x].queues == s.children[x].queues && u.children[x].interval == s.children[x].interval
            && u.children[x].lastTimestamp == (if BeatOf(s, e, x) then e.at else s.children[x].lastTimestamp)
  {
  }

  /** One step keeps a child whose last heartbeat is at most three intervals before the step's time. */
  lemma TimelyStep(s: Sys, e: Event, x: string)
    requires TablesCoupled(Seen(s), s.id) && x in s.children && s.children[x].interval <= 3_074_457_345
    requires Sweeps(s, e) ==> e.at <= s.children[x].lastTimestamp + 3 * s.children[x].interval * SECOND
    ensures var u := Step(s, e);
            && x in u.children && u.children[x].queues == s.children[x].queues && u.children[x].interval == s.children[x].interval
            && u.children[x].lastTimestamp == (if BeatOf(s, e, x) then e.at else s.children[x].lastTimestamp)
  {
    if Sweeps(s, e) { SilentChildIsRemoved(s, e.at, e.order, x); } else { OtherStep(s, e, x); }
  }

  lemma TimeNeverGoesBack(s: Sys, e: Event)
    ensures s.now <= Step(s, e).now && (Sweeps(s, e) || (e.Heard? && s.now <= e.at) ==> Step(s, e).now == e.at)
  {
  }

  /** A tick later than the last heartbeat plus three intervals removes the child and all its routes. */
  lemma SilentChildIsRemoved(s: Sys, at: Nanos, order: seq<string>, x: string)
    requires TablesCoupled(Seen(s), s.id) && s.now <= at && Lists(order, StaleIds(Seen(s), at))
    requires x in s.children && s.children[x].interval <= 3_074_457_345
    ensures var u := Step(s, Tick(at, order));
            && (x in u.children <==> at <= s.children[x].lastTimestamp + 3 * s.children[x].interval * SECOND)
            && (x in u.children ==> u.children[x] == s.children[x])
            && (x !in u.children ==> x !in u.router.table.nodes && forall ty :: x !in u.router.table.RoutedFor(ty))
  {
    TickIsSweep(s, Tick(at, order));
    GraceExactIff(s.children[x].interval);
    SweptExactly(Seen(s), s.id, at, x);
  }

  ghost predicate Gone(s: Sys, x: string) {
    x !in s.children && x !in s.router.table.nodes && forall ty :: x !in s.router.table.RoutedFor(ty)
  }

  ghost predicate NoBeatOf(es: seq<Event>, x: string) {
    forall e :: e in es && e.Heard? ==> e.hb.id != x
  }

  lemma ChildlessIsGone(s: Sys, x: string)
    requires SysInv(s) && x !in s.children && x != s.id
    ensures Gone(s, x)
  {
    assert x !in s.router.table.nodes;
  }

  ghost predicate SameRecord(s: Sys, u: Sys, x: string) {
    x in s.children && x in u.children
    && u.children[x].lastTimestamp == s.children[x].lastTimestamp && u.children[x].interval == s.children[x].interval
  }

  /** A child that nobody hears of keeps its record while it stays, and nothing but a heartbeat brings it back. */
  lemma SilentRecord(s: Sys, e: Event, x: string)
    requires e.Heard? ==> e.hb.id != x
    ensures x in Step(s, e).children ==> SameRecord(s, Step(s, e), x)
  {
  }

  lemma SilentStep(s: Sys, e: Event, x: string)
    requires SysInv(s) && !ImpersonatesMaster(s, e) && x != s.id && (e.Heard? ==> e.hb.id != x)
    ensures var u := Step(s, e);
            && (Gone(s, x) ==> Gone(u, x))
            && (if x in u.children then SameRecord(s, u, x) else Gone(u, x))
  {
    SysInvStep(s, e);
    SilentRecord(s, e, x);
    if x !in Step(s, e).children { ChildlessIsGone(Step(s, e), x); }
  }

  lemma SilentPrefix(s: Sys, es: seq<Event>, x: string)
    requires es != [] && UniqueIds(s, es) && NoBeatOf(es, x)
    ensures var init, e := es[..|es| - 1], es[|es| - 1];
            && UniqueIds(s, init) && NoBeatOf(init, x) && Run(s, es) == Step(Run(s, init), e)
            && !ImpersonatesMaster(Run(s, init), e) && (e.Heard? ==> e.hb.id != x)
  {
    var init := es[..|es| - 1];
    assert forall j :: 0 <= j < |init| ==> init[..j] == es[..j] && init[j] == es[j];
    assert es[..|init|] == init;
    assert (forall f :: f in init ==> f in es) && es[|es| - 1] in es;
  }

  /** One more silent step of a run. */
  lemma SilentNext(s: Sys, es: seq<Event>, x: string)
    requires es != [] && SysInv(s) && UniqueIds(s, es) && NoBeatOf(es, x) && x != s.id
    ensures var init := es[..|es| - 1];
            && UniqueIds(s, init) && NoBeatOf(init, x) && SysInv(Run(s, init)) && Run(s, init).id == s.id
            && (Gone(Run(s, init), x) ==> Gone(Run(s, es), x))
            && (if x in Run(s, es).children then SameRecord(Run(s, init), Run(s, es), x) else Gone(Run(s, es), x))
  {
    var init := es[..|es| - 1];
    SilentPrefix(s, es, x);
    CoupledAlways(s, init);
    SilentStep(Run(s, init), es[|es| - 1], x);
  }

  lemma SilentChildIsSwept(s: Sys, es: seq<Event>, x: string)
    requires es != [] && SysInv(s) && UniqueIds(s, es) && NoBeatOf(es, x)
    requires x in s.children && s.children[x].interval <= 3_074_457_345
    requires var e := es[|es| - 1];
             Sweeps(Run(s, es[..|es| - 1]), e) && e.at > s.children[x].lastTimestamp + 3 * s.children[x].interval * SECOND
    ensures Gone(Run(s, es), x)
  {
    var init, e := es[..|es| - 1], es[|es| - 1];
    SilentNext(s, es, x);
    SilentUnchanged(s, init, x);
    SweepFindsIt(s, Run(s, init), e, x);
  }

  lemma GoneNext(s: Sys, es: seq<Event>, x: string)
    requires es != [] && SysInv(s) && UniqueIds(s, es) && NoBeatOf(es, x) && x != s.id
    requires Gone(Run(s, es[..|es| - 1]), x)
    ensures Gone(Run(s, es), x)
  {
    SilentNext(s, es, x);
  }

  lemma SilentInit(s: Sys, es: seq<Event>, x: string)
    requires es != [] && UniqueIds(s, es) && NoBeatOf(es, x)
    ensures UniqueIds(s, es[..|es| - 1]) && NoBeatOf(es[..|es| - 1], x)
  {
    SilentPrefix(s, es, x);
  }

  lemma {:induction false} GoneStays(s: Sys, es: seq<Event>, x: string, k: nat)
    requires SysInv(s) && UniqueIds(s, es) && NoBeatOf(es, x) && x != s.id
    requires k <= |es| && Gone(Run(s, es[..k]), x)
    ensures Gone(Run(s, es), x)
    decreases |es|
  {
    if k == |es| {
      assert es[..k] == es;
    } else {
      SilentInit(s, es, x);
      assert es[..|es| - 1][..k] == es[..k];
      GoneStays(s, es[..|es| - 1], x, k);
      GoneNext(s, es, x);
    }
  }

  /** Without further heartbeats, from the first tick later than the deadline on the child is gone. */
  lemma SilentChildStaysGone(s: Sys, es: seq<Event>, x: string, k: nat)
    requires SysInv(s) && UniqueIds(s, es) && NoBeatOf(es, x)
    requires x in s.children && s.children[x].interval <= 3_074_457_345
    requires k < |es| && Sweeps(Run(s, es[..k]), es[k])
    requires es[k].at > s.children[x].lastTimestamp + 3 * s.children[x].interval * SECOND
    ensures Gone(Run(s, es), x)
  {
    var now := es[..k + 1];
    assert forall j :: 0 <= j <= k ==> now[..j] == es[..j];
    assert forall e :: e in now ==> e in es;
    assert now[..|now| - 1] == es[..k];
    SilentChildIsSwept(s, now, x);
    GoneStays(s, es, x, k + 1);
  }

  lemma SweepFindsIt(s: Sys, p: Sys, e: Event, x: string)
    requires SysInv(p) && Sweeps(p, e) && x != p.id
    requires x in s.children && s.children[x].interval <= 3_074_457_345
    requires x in p.children ==> SameRecord(s, p, x)
    requires e.at > s.children[x].lastTimestamp + 3 * s.children[x].interval * SECOND
    ensures x in p.children ==> Gone(Step(p, e), x)
  {
    if x in p.children { SilentChildIsRemoved(p, e.at, e.order, x); }
  }

  lemma {:induction false} SilentUnchanged(s: Sys, es: seq<Event>, x: string)
    requires SysInv(s) && UniqueIds(s, es) && NoBeatOf(es, x) && x in s.children
    ensures var u := Run(s, es);
            if x in u.children then SameRecord(s, u, x) else Gone(u, x)
  {
    if es != [] {
      SilentNext(s, es, x);
      SilentUnchanged(s, es[..|es| - 1], x);
    }
  }

  // ---------------------------------------------------------------- subscribers are routed

  ghost predicate RoutedSame(s: Sys, u: Sys, x: string) {
    forall t {:trigger u.router.table.RoutedFor(t)} :: x in u.router.table.RoutedFor(t) <==> x in s.router.table.RoutedFor(t)
  }

  lemma HeardKeepsRoutes(s: Sys, hb: Heartbeat, at: Nanos, x: string)
    requires TablesInv(s) && x in s.children && s.now <= at
    ensures RoutedSame(s, Step(s, Heard(hb, at)), x)
  {
    if hb.id !in s.children {
      BeatRoutes(Seen(s), hb, at, s.router.next);
      var u := Step(s, Heard(hb, at));
      forall t ensures x in u.router.table.RoutedFor(t) <==> x in s.router.table.RoutedFor(t) {
        assert x in u.router.table.RoutedFor(t) <==> x in u.router.table.RoutedFor(t) - {hb.id};
        assert x in s.router.table.RoutedFor(t) <==> x in s.router.table.RoutedFor(t) - {hb.id};
      }
    }
  }

  lemma SweepKeepsRoutes(s: Sys, e: Event, x: string)
    requires TablesInv(s) && Sweeps(s, e) && x in Step(s, e).children
    ensures RoutedSame(s, Step(s, e), x)
  {
    TickIsSweep(s, e);
    SweptExactly(Seen(s), s.id, e.at, x);
  }

  /** No step changes the types for which a child is routed, while it is one. */
  lemma RoutedStep(s: Sys, e: Event, x: string)
    requires TablesInv(s) && x in s.children && x in Step(s, e).children
    ensures RoutedSame(s, Step(s, e), x)
  {
    match e
    case Heard(hb, at) => if s.now <= at { HeardKeepsRoutes(s, hb, at, x); }
    case Tick(at, order) => if Sweeps(s, e) { SweepKeepsRoutes(s, e, x); }
    case Pause(c) =>
    case Traffic(te) => if IsTraffic(s, te) { TrafficKeeps(s.router, te); }
  }

  /** The step is the first heartbeat of a node that is no child. */
  predicate Discovers(s: Sys, e: Event, x: string) {
    BeatOf(s, e, x) && x !in s.children && x != s.id
  }

  ghost predicate RoutedExactly(s: Sys, x: string, types: seq<MessageType>) {
    forall t {:trigger s.router.table.RoutedFor(t)} :: x in s.router.table.RoutedFor(t) <==> t in types
  }

  lemma DiscoveredIsRouted(s: Sys, e: Event, x: string)
    requires TablesInv(s) && Discovers(s, e, x)
    ensures RoutedExactly(Step(s, e), x, e.hb.subscriptions)
  {
    BeatRoutes(Seen(s), e.hb, e.at, s.router.next);
    assert x !in s.router.table.nodes;
    assert forall t :: x !in s.router.table.RoutedFor(t);
  }

  /** The node is a child all along the run. */
  ghost predicate ChildThroughout(s: Sys, es: seq<Event>, x: string) {
    forall j :: 0 <= j <= |es| ==> x in Run(s, es[..j]).children
  }

  lemma {:induction false} StaysRouted(s: Sys, es: seq<Event>, x: string, types: seq<MessageType>)
    requires TablesInv(s) && NeverSweepsMaster(s, es) && ChildThroughout(s, es, x) && RoutedExactly(s, x, types)
    ensures RoutedExactly(Run(s, es), x, types)
  {
    if es != [] {
      var init := es[..|es| - 1];
      assert forall k :: 0 <= k <= |init| ==> init[..k] == es[..k];
      assert es[..|init|] == init && es[..|es|] == es;
      StaysRouted(s, init, x, types);
      TablesCoupledAlways(s, init);
      RoutedOneMore(Run(s, init), es[|es| - 1], Run(s, es), x, types);
    }
  }

  lemma RoutedOneMore(p: Sys, e: Event, u: Sys, x: string, types: seq<MessageType>)
    requires TablesInv(p) && u == Step(p, e) && x in p.children && x in u.children && RoutedExactly(p, x, types)
    ensures RoutedExactly(u, x, types)
  {
    RoutedStep(p, e, x);
  }

  /**
   From the heartbeat that discovers it on, a child is routed for exactly the types of that heartbeat,
   as long as it stays a child: through heartbeats, discoveries and evictions of others, and traffic.
   */
  lemma ChildIsRoutedForItsTypes(s: Sys, e: Event, x: string, es: seq<Event>)
    requires TablesInv(s) && Discovers(s, e, x)
    requires NeverSweepsMaster(Step(s, e), es) && ChildThroughout(Step(s, e), es, x)
    ensures TablesInv(Run(Step(s, e), es)) && RoutedExactly(Run(Step(s, e), es), x, e.hb.subscriptions)
  {
    TablesInvStep(s, e);
    DiscoveredIsRouted(s, e, x);
    StaysRouted(Step(s, e), es, x, e.hb.subscriptions);
    TablesCoupledAlways(Step(s, e), es);
  }

  /** So a message of one of these types, when a worker of the router takes it, is put on the child's send queue. */
  lemma SubscriberIsOffered(s: Sys, x: string, types: seq<MessageType>, n: nat, m: Message)
    requires TablesInv(s) && x in s.children && RoutedExactly(s, x, types)
    requires n in s.router.owner && R.Get(s.router.rcv, n).q.queue != [] && R.Get(s.router.rcv, n).q.queue[0] == m
    requires m.id.msgType in types
    ensures var own, before, after := s.children[x].queues, s.router, Step(s, Traffic(R.Forward(n))).router;
            && s.router.table.nodes[x] == own
            && R.Get(after.snd, own).got == R.Get(before.snd, own).got + [m]
            && R.Get(after.snd, own).q == R.Get(before.snd, own).q.Add(m)
  {
    assert x in s.router.table.RoutedFor(m.id.msgType);
    R.ForwardReachesExactlyTheRouted(s.router, n, s.children[x].queues);
  }

  /** Traffic is the router's, and changes nothing else. */
  lemma TrafficIsTheRouters(s: Sys, te: R.Event)
    requires IsTraffic(s, te)
    ensures Step(s, Traffic(te)) == s.(router := R.Step(s.router, te))
  {
  }

  /** A worker that pauses shows it, and nothing else changes. */
  lemma PauseEffect(s: Sys, x: string)
    requires x in s.children
    ensures var u := Step(s, Pause(x)); u == s.(children := s.children[x := s.children[x].(paused := true)])
  {
  }
}
