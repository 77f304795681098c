/**
 All runs of the centralized router: its operations, the senders that put messages on receive
 queues, its forwarding workers and the consumers of the send queues.
 */
module CentralRuns {
  import opened Messages
  import opened WorkQueue
  import opened CentralRouting
  import F = FanOut

  /** A node object is a number that is never used again; `owner` is the ID it was created for. */
  type Handle = nat

  datatype Router = Router(table: Table<Handle>, next: Handle, owner: map<Handle, string>, rcv: map<Handle, F.Node>, snd: map<Handle, F.Node>)

  const EMPTY_ROUTER := Router(Table(map[], map[]), 0, map[], map[], map[])

  const EMPTY_NODE := F.Node(NEW_QUEUE, [], [])

  function Get(m: map<Handle, F.Node>, n: Handle): F.Node {
    if n in m then m[n] else EMPTY_NODE
  }

  datatype Event =
    | AddNode(id: string)
    | AddRoute(t: MessageType, id: string)
    | RemoveNode(id: string)
    | Stop(order: seq<string>)
    | Enqueue(n: Handle, m: Message)
    | Forward(n: Handle)
    | Send(n: Handle)
    | Sent(n: Handle, m: Message)

  function Closed(n: F.Node): F.Node {
    n.(q := n.q.ShutDown())
  }

  function RemoveStep(s: Router, id: string): Router {
    if id !in s.table.nodes then s else
    var n := s.table.nodes[id];
    s.(table := s.table.RemoveNode(id), rcv := s.rcv[n := Closed(Get(s.rcv, n))], snd := s.snd[n := Closed(Get(s.snd, n))])
  }

  function RemoveAll(s: Router, ids: seq<string>): Router
    decreases ids
  {
    if ids == [] then s else RemoveAll(RemoveStep(s, ids[0]), ids[1..])
  }

  /** The send queues after offering `m` to a set of routed nodes. */
  function OfferTo(snd: map<Handle, F.Node>, targets: set<Handle>, m: Message): map<Handle, F.Node> {
    map n | n in snd.Keys + targets :: if n in targets then Get(snd, n).Offer(m) else snd[n]
  }

  /** `order` is the order in which ranging over the node table visits its keys. */
  predicate Visits(order: seq<string>, table: Table<Handle>) {
    forall id :: id in table.nodes ==> id in order
  }

  function Step(s: Router, e: Event): Router {
    match e
    case AddNode(id) =>
      if id in s.table.nodes then s
      else s.(table := s.table.AddNode(id, s.next), next := s.next + 1, owner := s.owner[s.next := id])
    case AddRoute(t, id) => s.(table := s.table.AddRoute(t, id))
    case RemoveNode(id) => RemoveStep(s, id)
    case Stop(order) => if Visits(order, s.table) then RemoveAll(s, order) else s
    case Enqueue(n, m) => s.(rcv := s.rcv[n := Get(s.rcv, n).Offer(m)])
    case Forward(n) =>
      var node := Get(s.rcv, n);
      if node.q.queue == [] then s else
      var m := node.q.queue[0];
      var taken := node.Take();
      s.(rcv := s.rcv[n := taken.(q := taken.q.Done(m))], snd := OfferTo(s.snd, s.table.RoutedFor(m.id.msgType).Values, m))
    case Send(n) =>
      if Get(s.snd, n).q.queue == [] then s else s.(snd := s.snd[n := Get(s.snd, n).Take()])
    case Sent(n, m) => s.(snd := s.snd[n := Get(s.snd, n).(q := Get(s.snd, n).q.Done(m))])
  }

  function Run(s: Router, es: seq<Event>): Router {
    if es == [] then s else Step(Run(s, es[..|es| - 1]), es[|es| - 1])
  }

  ghost predicate Live(s: Router, n: Handle) {
    n in s.owner && s.owner[n] in s.table.nodes && s.table.nodes[s.owner[n]] == n
  }

  /** Table entries are live objects; a created object's queues are open exactly while it is live. */
  ghost predicate RouterInv(s: Router) {
    && s.table.Agree()
    && (forall n: nat :: n in s.owner <==> n < s.next)
    && (forall id :: id in s.table.nodes ==> s.table.nodes[id] in s.owner && s.owner[s.table.nodes[id]] == id)
    && (forall n :: n in s.owner ==>
          && (Get(s.rcv, n).q.shuttingdown <==> !Live(s, n))
          && (Get(s.snd, n).q.shuttingdown <==> !Live(s, n)))
    && (forall n :: n in s.rcv || n in s.snd ==> n in s.owner)
  }

  lemma RemoveStepInv(s: Router, id: string)
    requires RouterInv(s)
    ensures RouterInv(RemoveStep(s, id))
    ensures RemoveStep(s, id).table.nodes.Keys == s.table.nodes.Keys - {id}
  {
    var t := RemoveStep(s, id);
    if id in s.table.nodes {
      forall n | n in t.owner
        ensures Get(t.rcv, n).q.shuttingdown <==> !Live(t, n)
        ensures Get(t.snd, n).q.shuttingdown <==> !Live(t, n)
      {
        if n != s.table.nodes[id] { assert Live(s, n) <==> Live(t, n); }
      }
    }
  }

  lemma {:induction false} RemoveAllInv(s: Router, ids: seq<string>)
    requires RouterInv(s)
    ensures RouterInv(RemoveAll(s, ids))
    ensures RemoveAll(s, ids).table.nodes.Keys == s.table.nodes.Keys - set id | id in ids
    decreases ids
  {
    if ids != [] {
      RemoveStepInv(s, ids[0]);
      RemoveAllInv(RemoveStep(s, ids[0]), ids[1..]);
      assert (set id | id in ids) == {ids[0]} + set id | id in ids[1..];
    }
  }

  /** Nobody holds a handle to a node that was never created. */
  ghost predicate Known(s: Router, e: Event) {
    && (e.Enqueue? || e.Forward? || e.Send? || e.Sent? ==> e.n in s.owner)
  }

  lemma OfferToAt(snd: map<Handle, F.Node>, targets: set<Handle>, m: Message, k: Handle)
    ensures Get(OfferTo(snd, targets, m), k) == if k in targets then Get(snd, k).Offer(m) else Get(snd, k)
  {
  }

  /** A step that changes neither the tables nor which queues are open. */
  lemma SameOpennessInv(s: Router, t: Router)
    requires RouterInv(s) && t.table == s.table && t.next == s.next && t.owner == s.owner
    requires forall n :: n in s.owner ==> Get(t.rcv, n).q.shuttingdown == Get(s.rcv, n).q.shuttingdown
    requires forall n :: n in s.owner ==> Get(t.snd, n).q.shuttingdown == Get(s.snd, n).q.shuttingdown
    requires forall n :: n in t.rcv || n in t.snd ==> n in s.owner
    ensures RouterInv(t)
  {
    assert forall n :: Live(s, n) <==> Live(t, n);
  }

  lemma RcvChange(s: Router, n: Handle, node: F.Node)
    requires RouterInv(s) && n in s.owner && node.q.shuttingdown == Get(s.rcv, n).q.shuttingdown
    ensures RouterInv(s.(rcv := s.rcv[n := node]))
  {
    SameOpennessInv(s, s.(rcv := s.rcv[n := node]));
  }

  lemma SndChange(s: Router, n: Handle, node: F.Node)
    requires RouterInv(s) && n in s.owner && node.q.shuttingdown == Get(s.snd, n).q.shuttingdown
    ensures RouterInv(s.(snd := s.snd[n := node]))
  {
    SameOpennessInv(s, s.(snd := s.snd[n := node]));
  }

  lemma OfferInv(s: Router, m: Message)
    requires RouterInv(s)
    ensures RouterInv(s.(snd := OfferTo(s.snd, s.table.RoutedFor(m.id.msgType).Values, m)))
  {
    var routed := s.table.RoutedFor(m.id.msgType);
    var t := s.(snd := OfferTo(s.snd, routed.Values, m));
    forall k | k in routed.Values ensures k in s.owner {
      var id :| id in routed && routed[id] == k;
      assert s.table.nodes[id] == k;
    }
    forall k | k in s.owner ensures Get(t.snd, k).q.shuttingdown == Get(s.snd, k).q.shuttingdown {
      OfferToAt(s.snd, routed.Values, m, k);
    }
    SameOpennessInv(s, t);
  }

  lemma ForwardInv(s: Router, n: Handle)
    requires RouterInv(s) && n in s.owner
    ensures RouterInv(Step(s, Forward(n)))
  {
    var node := Get(s.rcv, n);
    if node.q.queue != [] {
      var m, taken := node.q.queue[0], node.Take();
      var done := taken.(q := taken.q.Done(m));
      RcvChange(s, n, done);
      OfferInv(s.(rcv := s.rcv[n := done]), m);
    }
  }

  lemma AddNodeInv(s: Router, id: string)
    requires RouterInv(s) && id !in s.table.nodes
    ensures RouterInv(Step(s, AddNode(id)))
  {
    var t := Step(s, AddNode(id));
    assert s.next !in s.owner && s.next !in s.rcv && s.next !in s.snd;
    forall n | n in t.owner
      ensures Get(t.rcv, n).q.shuttingdown <==> !Live(t, n)
      ensures Get(t.snd, n).q.shuttingdown <==> !Live(t, n)
    {
      if n != s.next { assert Live(s, n) <==> Live(t, n); }
    }
  }

  lemma AddRouteInv(s: Router, ty: MessageType, id: string)
    requires RouterInv(s)
    ensures RouterInv(Step(s, AddRoute(ty, id)))
  {
    var t := Step(s, AddRoute(ty, id));
    assert forall n :: Live(s, n) <==> Live(t, n);
  }

  lemma OneQueueInv(s: Router, e: Event)
    requires RouterInv(s) && (e.Enqueue? || e.Send? || e.Sent?) && e.n in s.owner
    ensures RouterInv(Step(s, e))
  {
    match e
    case Enqueue(n, m) => RcvChange(s, n, Get(s.rcv, n).Offer(m));
    case Send(n) => if Get(s.snd, n).q.queue != [] { SndChange(s, n, Get(s.snd, n).Take()); }
    case Sent(n, m) => SndChange(s, n, Get(s.snd, n).(q := Get(s.snd, n).q.Done(m)));
  }

  lemma EmptyRouterInv()
    ensures RouterInv(EMPTY_ROUTER)
  {
  }

  lemma RouterInvStep(s: Router, e: Event)
    requires RouterInv(s) && Known(s, e)
    ensures RouterInv(Step(s, e))
  {
    match e
    case AddNode(id) => if id !in s.table.nodes { AddNodeInv(s, id); }
    case AddRoute(t, id) => AddRouteInv(s, t, id);
    case RemoveNode(id) => RemoveStepInv(s, id);
    case Stop(order) => if Visits(order, s.table) { RemoveAllInv(s, order); }
    case Forward(n) => ForwardInv(s, n);
    case Enqueue(n, m) => OneQueueInv(s, e);
    case Send(n) => OneQueueInv(s, e);
    case Sent(n, m) => OneQueueInv(s, e);
  }

  ghost predicate KnownRun(s: Router, es: seq<Event>) {
    forall k :: 0 <= k < |es| ==> Known(Run(s, es[..k]), es[k])
  }

  /** In every reachable state each route entry is the node table's entry, and only live nodes are open. */
  lemma {:induction false} TablesAgreeAlways(s: Router, es: seq<Event>)
    requires RouterInv(s) && KnownRun(s, es)
    ensures RouterInv(Run(s, es))
  {
    if es != [] {
      var init := es[..|es| - 1];
      assert forall k :: 0 <= k < |init| ==> init[..k] == es[..k];
      assert es[..|init|] == init;
      TablesAgreeAlways(s, init);
      RouterInvStep(Run(s, init), es[|es| - 1]);
    }
  }

  lemma ForwardSnd(s: Router, n: Handle, k: Handle)
    requires Get(s.rcv, n).q.queue != []
    ensures var m := Get(s.rcv, n).q.queue[0];
            Get(Step(s, Forward(n)).snd, k) ==
            if k in s.table.RoutedFor(m.id.msgType).Values then Get(s.snd, k).Offer(m) else Get(s.snd, k)
  {
    var m := Get(s.rcv, n).q.queue[0];
    OfferToAt(s.snd, s.table.RoutedFor(m.id.msgType).Values, m, k);
  }

  lemma RoutedIsLive(s: Router, t: MessageType, k: Handle)
    requires RouterInv(s)
    ensures k in s.table.RoutedFor(t).Values <==> exists id :: id in s.table.RoutedFor(t) && s.table.nodes[id] == k
    ensures k in s.table.RoutedFor(t).Values ==> Live(s, k) && !Get(s.snd, k).q.shuttingdown
  {
    var routed := s.table.RoutedFor(t);
    assert forall id :: id in routed ==> routed[id] in routed.Values && s.table.nodes[id] == routed[id];
  }

  /**
   A worker offers the message it takes to exactly the nodes then routed for its type, source
   included; every one of them is live and takes it.
   */
  lemma ForwardReachesExactlyTheRouted(s: Router, n: Handle, k: Handle)
    requires RouterInv(s) && n in s.owner && Get(s.rcv, n).q.queue != []
    ensures var m, t := Get(s.rcv, n).q.queue[0], Step(s, Forward(n));
            if exists id :: id in s.table.RoutedFor(m.id.msgType) && s.table.nodes[id] == k
            then Live(s, k) && Get(t.snd, k).got == Get(s.snd, k).got + [m] && Get(t.snd, k).q == Get(s.snd, k).q.Add(m)
            else Get(t.snd, k) == Get(s.snd, k)
  {
    ForwardSnd(s, n, k);
    RoutedIsLive(s, Get(s.rcv, n).q.queue[0].id.msgType, k);
  }

  lemma DeadStep(s: Router, e: Event, n: Handle)
    requires RouterInv(s) && Known(s, e) && n in s.owner && !Live(s, n)
    ensures var t := Step(s, e);
            && n in t.owner && !Live(t, n)
            && Get(t.rcv, n).got == Get(s.rcv, n).got && Get(t.snd, n).got == Get(s.snd, n).got
  {
    RouterInvStep(s, e);
    match e
    case Stop(order) => if Visits(order, s.table) { DeadRemoveAll(s, order, n); }
    case Forward(k) =>
      if Get(s.rcv, k).q.queue != [] { ForwardReachesExactlyTheRouted(s, k, n); }
    case _ =>
  }

  lemma {:induction false} DeadRemoveAll(s: Router, ids: seq<string>, n: Handle)
    requires RouterInv(s) && n in s.owner && !Live(s, n)
    ensures var t := RemoveAll(s, ids);
            && n in t.owner && !Live(t, n)
            && Get(t.rcv, n).got == Get(s.rcv, n).got && Get(t.snd, n).got == Get(s.snd, n).got
    decreases ids
  {
    if ids != [] {
      RemoveStepInv(s, ids[0]);
      DeadRemoveAll(RemoveStep(s, ids[0]), ids[1..], n);
    }
  }

  /**
   Once a node is removed, its queues never accept another message, whatever happens later and even
   if its ID is added again: it stays dead, and what its queues have accepted does not change.
   */
  lemma {:induction false} RemovedNodeGetsNothing(s: Router, es: seq<Event>, n: Handle)
    requires RouterInv(s) && KnownRun(s, es) && n in s.owner && !Live(s, n)
    ensures var t := Run(s, es);
            && n in t.owner && !Live(t, n)
            && Get(t.rcv, n).got == Get(s.rcv, n).got && Get(t.snd, n).got == Get(s.snd, n).got
  {
    if es != [] {
      var init := es[..|es| - 1];
      assert forall k :: 0 <= k < |init| ==> init[..k] == es[..k];
      assert es[..|init|] == init;
      RemovedNodeGetsNothing(s, init, n);
      TablesAgreeAlways(s, init);
      DeadStep(Run(s, init), es[|es| - 1], n);
    }
  }

  /** Stop, in whatever order it visits the nodes, leaves no node, only empty route sets and no open queue. */
  lemma StopClearsEverything(s: Router, order: seq<string>)
    requires RouterInv(s) && Visits(order, s.table)
    ensures var t := Step(s, Stop(order));
            && t.table.nodes == map[] && (forall ty :: ty in t.table.routes ==> t.table.routes[ty] == map[])
            && (forall n :: n in t.owner ==> Get(t.rcv, n).q.shuttingdown && Get(t.snd, n).q.shuttingdown)
  {
    RemoveAllInv(s, order);
    var t := Step(s, Stop(order));
    assert t.table.nodes.Keys == {};
    NoNodesNoRoutes(t.table);
  }

  // ---------------------------------------------------------------- what the calls are for

  /** A new node gets an object of its own, with two open, empty queues; a known one keeps what it has. */
  lemma AddNodeEffect(s: Router, id: string)
    requires RouterInv(s)
    ensures var t := Step(s, AddNode(id));
            if id in s.table.nodes then t == s
            else
              && id in t.table.nodes && t.table.nodes[id] !in s.owner && t.table.nodes == s.table.nodes[id := t.table.nodes[id]]
              && Get(t.rcv, t.table.nodes[id]).q == NEW_QUEUE && Get(t.snd, t.table.nodes[id]).q == NEW_QUEUE
              && t.table.routes == s.table.routes && t.rcv == s.rcv && t.snd == s.snd
  {
  }

  /** A route to a known node is there afterwards, and no other route changes. */
  lemma AddRouteEffect(s: Router, ty: MessageType, id: string, other: MessageType)
    ensures var t := Step(s, AddRoute(ty, id));
            if id !in s.table.nodes then t == s
            else
              && t.table.RoutedFor(ty) == s.table.RoutedFor(ty)[id := s.table.nodes[id]]
              && (other != ty ==> t.table.RoutedFor(other) == s.table.RoutedFor(other))
              && t.table.nodes == s.table.nodes && t.rcv == s.rcv && t.snd == s.snd
  {
  }

  /** A removal takes the node out of every route and touches no other. */
  lemma RemoveNodeEffect(s: Router, id: string, ty: MessageType)
    requires RouterInv(s)
    ensures var t := Step(s, RemoveNode(id));
            && t.table.nodes == s.table.nodes - {id} && t.table.RoutedFor(ty) == s.table.RoutedFor(ty) - {id}
  {
    RemoveNodeAgree(s.table, id);
    assert s.table.RemoveNode(id).RoutedFor(ty) == s.table.RoutedFor(ty) - {id};
  }

  // ---------------------------------------------------------------- each queue on its own

  /** The calls that a step makes on the receive queue of `n`... */
  function RcvCalls(s: Router, e: Event, n: Handle): seq<Call> {
    match e
    case Enqueue(k, m) => if k == n then [CallAdd(m)] else []
    case Forward(k) => if k == n && Get(s.rcv, n).q.queue != [] then [CallGet, CallDone(Get(s.rcv, n).q.queue[0])] else []
    case RemoveNode(id) => if id in s.table.nodes && s.table.nodes[id] == n then [CallShutDown] else []
    case Stop(order) => if Visits(order, s.table) && n in s.table.nodes.Values then [CallShutDown] else []
    case _ => []
  }

  /** ... and on its send queue. */
  function SndCalls(s: Router, e: Event, n: Handle): seq<Call> {
    match e
    case Forward(k) =>
      var q := Get(s.rcv, k).q.queue;
      if q != [] && n in s.table.RoutedFor(q[0].id.msgType).Values then [CallAdd(q[0])] else []
    case Send(k) => if k == n then [CallGet] else []
    case Sent(k, m) => if k == n then [CallDone(m)] else []
    case RemoveNode(id) => if id in s.table.nodes && s.table.nodes[id] == n then [CallShutDown] else []
    case Stop(order) => if Visits(order, s.table) && n in s.table.nodes.Values then [CallShutDown] else []
    case _ => []
  }

  function RcvHistory(s: Router, es: seq<Event>, n: Handle): seq<Call> {
    if es == [] then [] else RcvHistory(s, es[..|es| - 1], n) + RcvCalls(Run(s, es[..|es| - 1]), es[|es| - 1], n)
  }

  function SndHistory(s: Router, es: seq<Event>, n: Handle): seq<Call> {
    if es == [] then [] else SndHistory(s, es[..|es| - 1], n) + SndCalls(Run(s, es[..|es| - 1]), es[|es| - 1], n)
  }

  function ClosedIf(hit: bool, node: F.Node): F.Node {
    if hit then Closed(node) else node
  }

  lemma RemoveCloses(s: Router, id: string, n: Handle)
    ensures var hit := id in s.table.nodes && s.table.nodes[id] == n;
            && Get(RemoveStep(s, id).rcv, n) == ClosedIf(hit, Get(s.rcv, n))
            && Get(RemoveStep(s, id).snd, n) == ClosedIf(hit, Get(s.snd, n))
  {
  }

  /** One of the IDs is that of the node. */
  ghost predicate Hits(s: Router, ids: seq<string>, n: Handle) {
    exists id :: id in ids && id in s.table.nodes && s.table.nodes[id] == n
  }

  lemma HitsNext(s: Router, ids: seq<string>, n: Handle)
    requires RouterInv(s) && ids != []
    ensures Hits(s, ids, n) <==> (ids[0] in s.table.nodes && s.table.nodes[ids[0]] == n) || Hits(RemoveStep(s, ids[0]), ids[1..], n)
  {
    var t := RemoveStep(s, ids[0]);
    assert forall id :: id in ids <==> id == ids[0] || id in ids[1..];
    assert forall id :: id in t.table.nodes <==> id in s.table.nodes && id != ids[0];
    assert forall id :: id in t.table.nodes ==> t.table.nodes[id] == s.table.nodes[id];
  }

  lemma {:induction false} RemoveAllCloses(s: Router, ids: seq<string>, n: Handle)
    requires RouterInv(s)
    ensures Get(RemoveAll(s, ids).rcv, n) == ClosedIf(Hits(s, ids, n), Get(s.rcv, n))
    ensures Get(RemoveAll(s, ids).snd, n) == ClosedIf(Hits(s, ids, n), Get(s.snd, n))
    decreases ids
  {
    if ids != [] {
      RemoveStepInv(s, ids[0]);
      RemoveCloses(s, ids[0], n);
      HitsNext(s, ids, n);
      RemoveAllCloses(RemoveStep(s, ids[0]), ids[1..], n);
    }
  }

  lemma StopCloses(s: Router, order: seq<string>, n: Handle)
    requires RouterInv(s) && Visits(order, s.table)
    ensures Get(Step(s, Stop(order)).rcv, n) == ClosedIf(n in s.table.nodes.Values, Get(s.rcv, n))
    ensures Get(Step(s, Stop(order)).snd, n) == ClosedIf(n in s.table.nodes.Values, Get(s.snd, n))
  {
    RemoveAllCloses(s, order, n);
    assert Hits(s, order, n) <==> n in s.table.nodes.Values by {
      if Hits(s, order, n) {
        var id :| id in order && id in s.table.nodes && s.table.nodes[id] == n;
        assert s.table.nodes[id] in s.table.nodes.Values;
      }
    }
  }

  lemma RcvForward(s: Router, k: Handle, n: Handle)
    ensures Get(Step(s, Forward(k)).rcv, n).q == WorkQueue.Run(Get(s.rcv, n).q, RcvCalls(s, Forward(k), n))
  {
    var q := Get(s.rcv, n).q;
    RunNone(q);
    if q.queue != [] { RunTwo(q, CallGet, CallDone(q.queue[0])); }
  }

  lemma RcvEnqueue(s: Router, k: Handle, m: Message, n: Handle)
    ensures Get(Step(s, Enqueue(k, m)).rcv, n).q == WorkQueue.Run(Get(s.rcv, n).q, RcvCalls(s, Enqueue(k, m), n))
    ensures Get(s.rcv, n).got <= Get(Step(s, Enqueue(k, m)).rcv, n).got
  {
    RunNone(Get(s.rcv, n).q);
    RunOne(Get(s.rcv, n).q, CallAdd(m));
  }

  /** The steps that leave all receive queues as they are. */
  lemma RcvOther(s: Router, e: Event, n: Handle)
    requires e.AddNode? || e.AddRoute? || e.Send? || e.Sent?
    ensures Get(Step(s, e).rcv, n) == Get(s.rcv, n) && RcvCalls(s, e, n) == []
  {
  }

  lemma RcvStep(s: Router, e: Event, n: Handle)
    requires RouterInv(s)
    ensures Get(Step(s, e).rcv, n).q == WorkQueue.Run(Get(s.rcv, n).q, RcvCalls(s, e, n))
  {
    var q := Get(s.rcv, n).q;
    RunNone(q);
    RunOne(q, CallShutDown);
    match e
    case Enqueue(k, m) => RcvEnqueue(s, k, m, n);
    case Forward(k) => RcvForward(s, k, n);
    case RemoveNode(id) => RemoveCloses(s, id, n);
    case Stop(order) => if Visits(order, s.table) { StopCloses(s, order, n); }
    case _ => RcvOther(s, e, n);
  }

  lemma SndForward(s: Router, k: Handle, n: Handle)
    ensures Get(Step(s, Forward(k)).snd, n).q == WorkQueue.Run(Get(s.snd, n).q, SndCalls(s, Forward(k), n))
  {
    RunNone(Get(s.snd, n).q);
    if Get(s.rcv, k).q.queue != [] {
      ForwardSnd(s, k, n);
      RunOne(Get(s.snd, n).q, CallAdd(Get(s.rcv, k).q.queue[0]));
    }
  }

  lemma SndOther(s: Router, e: Event, n: Handle)
    requires e.AddNode? || e.AddRoute? || e.Enqueue?
    ensures Get(Step(s, e).snd, n) == Get(s.snd, n) && SndCalls(s, e, n) == []
  {
  }

  lemma SndStep(s: Router, e: Event, n: Handle)
    requires RouterInv(s)
    ensures Get(Step(s, e).snd, n).q == WorkQueue.Run(Get(s.snd, n).q, SndCalls(s, e, n))
  {
    var q := Get(s.snd, n).q;
    RunNone(q);
    RunOne(q, CallShutDown);
    match e
    case Forward(k) => SndForward(s, k, n);
    case Send(k) => RunOne(q, CallGet);
    case Sent(k, m) => RunOne(q, CallDone(m));
    case RemoveNode(id) => RemoveCloses(s, id, n);
    case Stop(order) => if Visits(order, s.table) { StopCloses(s, order, n); }
    case _ => SndOther(s, e, n);
  }

  /**
   Over every run of the router each queue goes through a run of the work queue's own calls: the Adds
   of senders and forwards, the Get and Done of each forward and of each consumer, and the shutdown of
   a removal. So what holds of all runs of the work queue holds of each of them.
   */
  lemma {:induction false} QueuesRunOnTheirOwn(s: Router, es: seq<Event>, n: Handle)
    requires RouterInv(s) && KnownRun(s, es)
    ensures Get(Run(s, es).rcv, n).q == WorkQueue.Run(Get(s.rcv, n).q, RcvHistory(s, es, n))
    ensures Get(Run(s, es).snd, n).q == WorkQueue.Run(Get(s.snd, n).q, SndHistory(s, es, n))
  {
    if es != [] {
      var init, e := es[..|es| - 1], es[|es| - 1];
      assert forall k :: 0 <= k < |init| ==> init[..k] == es[..k];
      assert es[..|init|] == init;
      var p := Run(s, init);
      QueuesRunOnTheirOwn(s, init, n);
      TablesAgreeAlways(s, init);
      RcvStep(p, e, n);
      SndStep(p, e, n);
      RunAppend(Get(s.rcv, n).q, RcvHistory(s, init, n), RcvCalls(p, e, n));
      RunAppend(Get(s.snd, n).q, SndHistory(s, init, n), SndCalls(p, e, n));
    }
  }

  // ---------------------------------------------------------------- nothing is kept back

  function Forwards(n: Handle, j: nat): seq<Event> {
    if j == 0 then [] else Forwards(n, j - 1) + [Forward(n)]
  }

  /** One pass of a worker takes the head of the receive queue, for good. */
  lemma ForwardTakesHead(s: Router, n: Handle)
    requires Get(s.rcv, n).q.queue != []
    ensures var t, q := Step(s, Forward(n)), Get(s.rcv, n).q;
            && t.table == s.table && t.owner == s.owner
            && Get(t.rcv, n).q.queue == q.queue[1..] && Get(t.rcv, n).taken == Get(s.rcv, n).taken + [q.queue[0]]
            && q.queue[0].id !in Get(t.rcv, n).q.processing
  {
  }

  /** The first `j` of the queued messages have reached every node routed for them. */
  ghost predicate Reached(s: Router, t: Router, queue: seq<Message>, j: nat) {
    && j <= |queue| && t.table == s.table && t.owner == s.owner
    && forall i, id :: 0 <= i < j && id in s.table.RoutedFor(queue[i].id.msgType) && id in s.table.nodes ==>
         queue[i] in Get(t.snd, s.table.nodes[id]).got
  }

  lemma ForwardGrows(s: Router, n: Handle, k: Handle)
    requires RouterInv(s) && n in s.owner && Get(s.rcv, n).q.queue != []
    ensures Get(s.snd, k).got <= Get(Step(s, Forward(n)).snd, k).got
  {
    ForwardSnd(s, n, k);
  }

  ghost predicate ForwardedUpTo(s: Router, t: Router, n: Handle, queue: seq<Message>, j: nat) {
    RouterInv(t) && n in t.owner && Reached(s, t, queue, j) && Get(t.rcv, n).q.queue == queue[j..]
  }

  lemma ReachedNext(s: Router, t: Router, u: Router, n: Handle, queue: seq<Message>, j: nat)
    requires ForwardedUpTo(s, t, n, queue, j) && j < |queue| && u == Step(t, Forward(n))
    ensures Reached(s, u, queue, j + 1)
  {
    ForwardTakesHead(t, n);
    assert queue[j..][0] == queue[j];
    forall i, id | 0 <= i < j + 1 && id in s.table.RoutedFor(queue[i].id.msgType) && id in s.table.nodes
      ensures queue[i] in Get(u.snd, s.table.nodes[id]).got
    {
      ForwardGrows(t, n, s.table.nodes[id]);
      if i == j { ForwardReachesExactlyTheRouted(t, n, s.table.nodes[id]); }
    }
  }

  lemma ForwardedNext(s: Router, t: Router, u: Router, n: Handle, queue: seq<Message>, j: nat)
    requires ForwardedUpTo(s, t, n, queue, j) && j < |queue| && u == Step(t, Forward(n))
    ensures ForwardedUpTo(s, u, n, queue, j + 1)
  {
    ReachedNext(s, t, u, n, queue, j);
    ForwardInv(t, n);
    ForwardTakesHead(t, n);
    assert queue[j..][1..] == queue[j + 1..];
  }

  /**
   Forwarding empties a receive queue, in as many passes as it holds messages, and each of them reaches
   every node routed for its type.
   */
  lemma {:induction false} ForwardsReach(s: Router, n: Handle, queue: seq<Message>, j: nat)
    requires RouterInv(s) && n in s.owner && queue == Get(s.rcv, n).q.queue && j <= |queue|
    ensures ForwardedUpTo(s, Run(s, Forwards(n, j)), n, queue, j)
  {
    if j == 0 {
      NoneForwarded(s, n, queue);
    } else {
      ForwardsReach(s, n, queue, j - 1);
      OneMoreForwarded(s, n, queue, j - 1, Run(s, Forwards(n, j - 1)));
    }
  }

  lemma NoneForwarded(s: Router, n: Handle, queue: seq<Message>)
    requires RouterInv(s) && n in s.owner && queue == Get(s.rcv, n).q.queue
    ensures ForwardedUpTo(s, s, n, queue, 0)
  {
    assert queue[0..] == queue;
  }

  lemma OneMoreForwarded(s: Router, n: Handle, queue: seq<Message>, i: nat, t: Router)
    requires t == Run(s, Forwards(n, i)) && ForwardedUpTo(s, t, n, queue, i) && i < |queue|
    ensures ForwardedUpTo(s, Run(s, Forwards(n, i + 1)), n, queue, i + 1)
  {
    var u := Step(t, Forward(n));
    ForwardedNext(s, t, u, n, queue, i);
    RunSnoc(s, Forwards(n, i), Forward(n), u);
  }

  lemma RunSnoc(s: Router, es: seq<Event>, e: Event, u: Router)
    requires u == Step(Run(s, es), e)
    ensures Run(s, es + [e]) == u
  {
    assert (es + [e])[..|es|] == es;
  }

  /** A message put on the open receive queue of a node reaches every node routed for its type. */
  lemma EnqueuedMessageArrives(s: Router, t: Router, n: Handle, m: Message, id: string)
    requires RouterInv(s) && Live(s, n) && Get(s.rcv, n).q.AddAppends(m) && id in s.table.RoutedFor(m.id.msgType)
    requires t == Step(s, Enqueue(n, m)) && id in s.table.nodes
    ensures m in Get(Run(t, Forwards(n, |Get(t.rcv, n).q.queue|)).snd, s.table.nodes[id]).got
  {
    var queue := Get(t.rcv, n).q.queue;
    OneQueueInv(s, Enqueue(n, m));
    EnqueueAppends(s, n, m);
    ForwardsReach(t, n, queue, |queue|);
    assert queue[|queue| - 1] == m;
  }

  lemma EnqueueAppends(s: Router, n: Handle, m: Message)
    requires Get(s.rcv, n).q.AddAppends(m)
    ensures var t := Step(s, Enqueue(n, m));
            Get(t.rcv, n).q.queue == Get(s.rcv, n).q.queue + [m] && t.table == s.table && t.owner == s.owner
  {
  }

  /** A consumer that gets from the send queue gets its oldest message. */
  lemma SendTakesHead(s: Router, n: Handle)
    requires Get(s.snd, n).q.queue != []
    ensures var t := Step(s, Send(n));
            && Get(t.snd, n).taken == Get(s.snd, n).taken + [Get(s.snd, n).q.queue[0]]
            && Get(t.snd, n).q.queue == Get(s.snd, n).q.queue[1..]
  {
  }

  // ---------------------------------------------------------------- conservation

  ghost predicate TidyRcv(s: Router, n: Handle) {
    Tidy(Get(s.rcv, n).q, Get(s.rcv, n).got, Get(s.rcv, n).taken)
  }

  lemma RcvGrows(s: Router, e: Event, n: Handle)
    requires RouterInv(s)
    ensures Get(s.rcv, n).got <= Get(Step(s, e).rcv, n).got
  {
    match e
    case Enqueue(k, m) => RcvEnqueue(s, k, m, n);
    case Forward(k) =>
    case RemoveNode(id) => RemoveCloses(s, id, n);
    case Stop(order) => if Visits(order, s.table) { StopCloses(s, order, n); }
    case _ => RcvOther(s, e, n);
  }

  lemma TidyForward(s: Router, n: Handle)
    requires TidyRcv(s, n) && Get(s.rcv, n).q.queue != []
    ensures TidyRcv(Step(s, Forward(n)), n)
  {
    var node := Get(s.rcv, n);
    var m := node.q.queue[0];
    TidyTake(node.q, node.got, node.taken);
    TidyDone(node.q.Take(), node.got, node.taken + [m], m);
  }

  lemma TidyEnqueue(s: Router, n: Handle, m: Message)
    requires TidyRcv(s, n) && DistinctIDs(Get(Step(s, Enqueue(n, m)).rcv, n).got)
    ensures TidyRcv(Step(s, Enqueue(n, m)), n)
  {
    var node := Get(s.rcv, n);
    if !node.q.shuttingdown {
      var all := node.got + [m];
      assert all[|node.got|] == m && forall i :: 0 <= i < |node.got| ==> all[i] == node.got[i];
      TidyAdd(node.q, node.got, node.taken, m);
    }
  }

  lemma TidyRcvStep(s: Router, e: Event, n: Handle)
    requires RouterInv(s) && TidyRcv(s, n) && DistinctIDs(Get(Step(s, e).rcv, n).got)
    ensures TidyRcv(Step(s, e), n)
  {
    match e
    case Enqueue(k, m) => if k == n { TidyEnqueue(s, n, m); }
    case Forward(k) => if k == n && Get(s.rcv, n).q.queue != [] { TidyForward(s, n); }
    case RemoveNode(id) => RemoveCloses(s, id, n);
    case Stop(order) => if Visits(order, s.table) { StopCloses(s, order, n); }
    case _ => RcvOther(s, e, n);
  }

  lemma PrefixDistinct(a: seq<Message>, b: seq<Message>)
    requires a <= b && DistinctIDs(b)
    ensures DistinctIDs(a)
  {
  }

  /**
   While no identifier is accepted twice by a receive queue, what it has accepted is what has been
   forwarded from it, in order, followed by what is still queued.
   */
  lemma {:induction false} ReceivedIsForwardedOrQueued(s: Router, es: seq<Event>, n: Handle)
    requires RouterInv(s) && KnownRun(s, es) && TidyRcv(s, n) && DistinctIDs(Get(Run(s, es).rcv, n).got)
    ensures TidyRcv(Run(s, es), n)
    ensures var node := Get(Run(s, es).rcv, n); node.got == node.taken + node.q.queue
  {
    if es != [] {
      var init, e := es[..|es| - 1], es[|es| - 1];
      assert forall k :: 0 <= k < |init| ==> init[..k] == es[..k];
      assert es[..|init|] == init;
      TablesAgreeAlways(s, init);
      RcvGrows(Run(s, init), e, n);
      PrefixDistinct(Get(Run(s, init).rcv, n).got, Get(Run(s, es).rcv, n).got);
      ReceivedIsForwardedOrQueued(s, init, n);
      TidyRcvStep(Run(s, init), e, n);
    }
  }
}
