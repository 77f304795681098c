/**
 The RF24 master: discovery of child nodes by heartbeat and eviction of silent ones, as functions on
 the master's children and the router's tables, and the objects that are proved against them.
 */
module MasterNode {
  import opened Messages
  import opened CentralRouting

  // ---------------------------------------------------------------- time

  /** A Go time.Duration is an int64 number of nanoseconds; instants are unbounded. */
  type Nanos = int

  const SECOND: Nanos := 1_000_000_000
  const INTERVALS_TO_WAIT := 3
  const TWO_63 := 0x8000_0000_0000_0000
  const TWO_64 := 0x1_0000_0000_0000_0000

  /** Two's-complement truncation to 64 bits. */
  function Wrap64(x: int): (r: int)
    ensures -TWO_63 <= r < TWO_63 && (-TWO_63 <= x < TWO_63 ==> r == x)
  {
    (x + TWO_63) % TWO_64 - TWO_63
  }

  /** intervalsToWait * time.Second * node.heartbeatInterval, for an interval read as a uint64. */
  function Grace(interval: nat): Nanos {
    Wrap64(INTERVALS_TO_WAIT * SECOND * Wrap64(interval))
  }

  /** The product is the intended three intervals exactly when the interval is at most 3074457345 s. */
  lemma GraceExactIff(interval: nat)
    requires interval < TWO_64
    ensures Grace(interval) == 3_000_000_000 * interval <==> interval <= 3_074_457_345
  {
    if interval < TWO_63 {
      assert Wrap64(interval) == interval;
    } else {
      assert 3_000_000_000 * interval >= TWO_63;
    }
  }

  // ---------------------------------------------------------------- the functions

  datatype Heartbeat = Heartbeat(id: string, address: nat, interval: nat, subscriptions: seq<MessageType>)

  datatype Child<N> = Child(queues: N, lastTimestamp: Nanos, interval: nat, paused: bool)

  /** What the master keeps about its children, and the tables of its router. */
  datatype View<N> = View(table: Table<N>, children: map<string, Child<N>>)

  predicate Stale<N>(c: Child<N>, now: Nanos) {
    c.lastTimestamp + Grace(c.interval) < now
  }

  /** `n` is the node object the router creates when it does not know the ID yet. */
  function Beat<N>(v: View<N>, hb: Heartbeat, now: Nanos, n: N): View<N> {
    if hb.id in v.children then
      v.(children := v.children[hb.id := v.children[hb.id].(lastTimestamp := now, paused := false)])
    else
      var t := v.table.AddNode(hb.id, n);
      View(t.AddRoutes(hb.subscriptions, hb.id),
           v.children[hb.id := Child(t.nodes[hb.id], now, hb.interval, false)])
  }

  function RemoveNodes<N>(t: Table<N>, ids: set<string>): Table<N> {
    Table(t.nodes - ids, map ty | ty in t.routes :: t.routes[ty] - ids)
  }

  function StaleIds<N>(v: View<N>, now: Nanos): set<string> {
    set id | id in v.children && Stale(v.children[id], now)
  }

  /** One run of a sweeper. */
  function Swept<N>(v: View<N>, now: Nanos): View<N> {
    View(RemoveNodes(v.table, StaleIds(v, now)), v.children - StaleIds(v, now))
  }

  /**
   The coupling of master and router: the router's nodes are the children and the master itself, each
   child holds the very queues the router holds for its ID, and every route leads to a known node.
   */
  ghost predicate TablesCoupled<N>(v: View<N>, masterId: string) {
    && v.table.Agree()
    && v.table.nodes.Keys == v.children.Keys + {masterId}
    && forall id :: id in v.children ==> v.children[id].queues == v.table.nodes[id]
  }

  /** Coupled, and the master is not a child of its own. */
  ghost predicate Coupled<N>(v: View<N>, masterId: string) {
    TablesCoupled(v, masterId) && masterId !in v.children
  }

  /** A heartbeat keeps the tables coupled, even one that carries the master's own ID. */
  lemma BeatTablesCoupled<N>(v: View<N>, masterId: string, hb: Heartbeat, now: Nanos, n: N)
    requires TablesCoupled(v, masterId)
    ensures TablesCoupled(Beat(v, hb, now, n), masterId)
  {
    if hb.id !in v.children {
      AddRoutesAgree(v.table.AddNode(hb.id, n), hb.subscriptions, hb.id);
    }
  }

  lemma BeatCoupled<N>(v: View<N>, masterId: string, hb: Heartbeat, now: Nanos, n: N)
    requires Coupled(v, masterId) && hb.id != masterId
    ensures Coupled(Beat(v, hb, now, n), masterId)
  {
    BeatTablesCoupled(v, masterId, hb, now, n);
  }

  /**
   What the discovery of a node is for: it is routed, with its own queues, for exactly the types it has
   subscribed to besides those it was routed for before, and no other ID's routes change.
   */
  ghost predicate NewlyRouted<N>(before: Table<N>, after: Table<N>, id: string, types: seq<MessageType>, queues: N) {
    forall t {:trigger after.RoutedFor(t)} ::
      && (id in after.RoutedFor(t) <==> t in types || id in before.RoutedFor(t))
      && (id in after.RoutedFor(t) ==> after.RoutedFor(t)[id] == queues)
      && after.RoutedFor(t) - {id} == before.RoutedFor(t) - {id}
  }

  lemma BeatRoutes<N>(v: View<N>, hb: Heartbeat, now: Nanos, n: N)
    requires v.table.Agree() && hb.id !in v.children
    ensures var w := Beat(v, hb, now, n);
            && hb.id in w.children && hb.id in w.table.nodes && w.children[hb.id].queues == w.table.nodes[hb.id]
            && NewlyRouted(v.table, w.table, hb.id, hb.subscriptions, w.table.nodes[hb.id])
  {
    var tab, w := v.table.AddNode(hb.id, n), Beat(v, hb, now, n).table;
    AddRoutesAgree(tab, hb.subscriptions, hb.id);
    forall t
      ensures hb.id in w.RoutedFor(t) <==> t in hb.subscriptions || hb.id in v.table.RoutedFor(t)
      ensures hb.id in w.RoutedFor(t) ==> w.RoutedFor(t)[hb.id] == w.nodes[hb.id]
      ensures w.RoutedFor(t) - {hb.id} == v.table.RoutedFor(t) - {hb.id}
    {
      AddRoutesExact(tab, hb.subscriptions, hb.id, t);
      assert tab.RoutedFor(t) == v.table.RoutedFor(t);
      assert tab.RoutedFor(t)[hb.id := tab.nodes[hb.id]] - {hb.id} == tab.RoutedFor(t) - {hb.id};
    }
  }

  /** A sweep keeps them coupled exactly when the master is not among those it evicts. */
  lemma SweptCoupledIff<N>(v: View<N>, masterId: string, now: Nanos)
    requires TablesCoupled(v, masterId)
    ensures TablesCoupled(Swept(v, now), masterId) <==> masterId !in StaleIds(v, now)
  {
    var w := Swept(v, now);
    if masterId in StaleIds(v, now) {
      assert masterId !in w.table.nodes && masterId in w.children.Keys + {masterId};
    }
  }

  /** A sweep removes exactly the silent children, from the node table and from every route set. */
  lemma SweptExactly<N>(v: View<N>, masterId: string, now: Nanos, id: string)
    requires TablesCoupled(v, masterId)
    ensures var w := Swept(v, now);
            && (id in w.children <==> id in v.children && now <= v.children[id].lastTimestamp + Grace(v.children[id].interval))
            && (id in w.children ==> w.children[id] == v.children[id] && w.table.nodes[id] == v.table.nodes[id])
            && (id in w.children ==> forall ty {:trigger w.table.RoutedFor(ty)} ::
                  && (id in w.table.RoutedFor(ty) <==> id in v.table.RoutedFor(ty))
                  && (id in w.table.RoutedFor(ty) ==> w.table.RoutedFor(ty)[id] == v.table.RoutedFor(ty)[id]))
            && (id in v.children && id !in w.children ==> id !in w.table.nodes && forall ty :: id !in w.table.RoutedFor(ty))
  {
  }

  /** cleanupNode, for one ID of the list of stale ones. */
  function Cleaned<N>(v: View<N>, id: string): View<N> {
    View(v.table.RemoveNode(id), v.children - {id})
  }

  function CleanedAll<N>(v: View<N>, ids: seq<string>): View<N> {
    if ids == [] then v else Cleaned(CleanedAll(v, ids[..|ids| - 1]), ids[|ids| - 1])
  }

  lemma CleanedAllNext<N>(v: View<N>, ids: seq<string>, i: nat)
    requires i < |ids|
    ensures CleanedAll(v, ids[..i + 1]) == Cleaned(CleanedAll(v, ids[..i]), ids[i])
  {
    assert ids[..i + 1][..i] == ids[..i];
  }

  lemma RemoveNodesOneMore<N>(t: Table<N>, ids: set<string>, id: string)
    requires t.Agree() && id in t.nodes && id !in ids
    ensures RemoveNodes(t, ids).RemoveNode(id) == RemoveNodes(t, ids + {id})
  {
    assert t.nodes - ids - {id} == t.nodes - (ids + {id});
    forall ty | ty in t.routes ensures t.routes[ty] - ids - {id} == t.routes[ty] - (ids + {id}) {
    }
  }

  lemma RemoveNone<N>(v: View<N>)
    ensures View(RemoveNodes(v.table, {}), v.children - {}) == v
  {
    assert v.table.nodes - {} == v.table.nodes;
    forall ty | ty in v.table.routes ensures v.table.routes[ty] - {} == v.table.routes[ty] {}
    assert v.children - {} == v.children;
  }

  lemma RemoveOneMore<N>(v: View<N>, masterId: string, gone: set<string>, id: string)
    requires TablesCoupled(v, masterId) && id in v.children && id !in gone
    ensures Cleaned(View(RemoveNodes(v.table, gone), v.children - gone), id)
         == View(RemoveNodes(v.table, gone + {id}), v.children - (gone + {id}))
  {
    RemoveNodesOneMore(v.table, gone, id);
    assert v.children - gone - {id} == v.children - (gone + {id});
  }

  /** Cleaning up a duplicate-free list of children, one by one, removes them all at once. */
  lemma {:induction false} CleanupIsRemoval<N>(v: View<N>, masterId: string, ids: seq<string>, gone: set<string>)
    requires TablesCoupled(v, masterId) && Distinct(ids) && gone <= v.children.Keys
    requires forall id :: id in ids <==> id in gone
    ensures CleanedAll(v, ids) == View(RemoveNodes(v.table, gone), v.children - gone)
    decreases |ids|
  {
    if ids == [] {
      assert gone == {};
      RemoveNone(v);
    } else {
      var init, last := ids[..|ids| - 1], ids[|ids| - 1];
      var part := gone - {last};
      assert last in ids && forall id :: id in ids <==> id in init || id == last;
      CleanupIsRemoval(v, masterId, init, part);
      RemoveOneMore(v, masterId, part, last);
      assert part + {last} == gone;
    }
  }

  /** When its turn comes, each ID of the list is still a child and still a node of the router. */
  lemma CleanupNeverMisses<N>(v: View<N>, masterId: string, ids: seq<string>, k: nat)
    requires TablesCoupled(v, masterId) && Distinct(ids) && forall id :: id in ids ==> id in v.children
    requires k < |ids|
    ensures var w := CleanedAll(v, ids[..k]); ids[k] in w.children && ids[k] in w.table.nodes
  {
    var gone := set id | id in ids[..k];
    assert ids[k] in ids && forall id :: id in ids[..k] ==> id in ids;
    CleanupIsRemoval(v, masterId, ids[..k], gone);
  }

  // ---------------------------------------------------------------- the objects

  class ChildNode {
    const id: string
    const address: nat
    const routerQueues: NodeQueues
    const heartbeatInterval: nat
    var lastTimestamp: Nanos
    var paused: bool

    constructor (id: string, address: nat, queues: NodeQueues, interval: nat, now: Nanos)
      ensures this.id == id && this.address == address && routerQueues == queues && heartbeatInterval == interval
      ensures lastTimestamp == now && !paused
    {
      this.id, this.address, routerQueues, heartbeatInterval := id, address, queues, interval;
      lastTimestamp, paused := now, false;
    }

    ghost function State(): Child<NodeQueues>
      reads this
    {
      Child(routerQueues, lastTimestamp, heartbeatInterval, paused)
    }

    method Pause()
      modifies this`paused
      ensures State() == old(State()).(paused := true)
    {
      paused := true;
    }

    method Unpause()
      modifies this`paused
      ensures State() == old(State()).(paused := false)
    {
      paused := false;
    }
  }

  /** Some of the children, each under its own ID. */
  ghost predicate SomeOf(part: map<string, ChildNode>, all: map<string, ChildNode>) {
    && part.Keys <= all.Keys && (forall x :: x in part ==> part[x] == all[x])
    && forall x :: x in all ==> all[x].id == x
  }

  ghost function ChildrenOf(all: map<string, ChildNode>, ids: set<string>): set<ChildNode> {
    set x | x in all && x in ids :: all[x]
  }

  /** The children that are no longer among `live` have been told to go on, so that their workers can exit. */
  ghost predicate Dismissed(all: map<string, ChildNode>, live: set<string>)
    reads all.Values
  {
    forall x :: x in all && x !in live ==> !all[x].paused
  }

  class Master {
    const id: string
    const router: CentralizedMessageRouter
    const routerQueues: NodeQueues
    var nodes: map<string, ChildNode>
    var workers: set<ChildNode>   // the children whose worker has been started
    ghost var children: map<string, Child<NodeQueues>>

    constructor (id: string)
      ensures Valid() && Coupled(Seen(), id) && this.id == id && nodes == map[] && workers == {}
      ensures id in router.nodes && router.nodes[id] == routerQueues && routerQueues.IsNew()
    {
      this.id := id;
      var r := new CentralizedMessageRouter();
      var q := r.AddNode(id);
      router, routerQueues, nodes, workers, children := r, q, map[], {}, map[];
    }

    ghost function Seen(): View<NodeQueues>
      reads this, router
    {
      View(router.Tables(), children)
    }

    /** The ghost map shows the state of each child object. */
    ghost predicate Mirrors()
      reads this, nodes.Values
    {
      children.Keys == nodes.Keys && forall x :: x in nodes ==> nodes[x].id == x && children[x] == nodes[x].State()
    }

    ghost predicate Valid()
      reads this, router, nodes.Values
    {
      router.Valid() && Mirrors()
    }

    method AddRoutes(subscriptions: seq<MessageType>, nodeId: string)
      requires router.Valid()
      modifies router`routes
      ensures router.Valid() && router.Tables() == old(router.Tables()).AddRoutes(subscriptions, nodeId)
    {
      for i := 0 to |subscriptions|
        invariant router.Valid() && router.Tables() == old(router.Tables()).AddRoutes(subscriptions[..i], nodeId)
      {
        assert subscriptions[..i + 1][..i] == subscriptions[..i];
        var r := router.AddRoute(subscriptions[i], nodeId);
      }
      assert subscriptions[..|subscriptions|] == subscriptions;
    }

    /** A new child, and its worker. */
    method Adopt(hb: Heartbeat, queues: NodeQueues, now: Nanos)
      requires Mirrors() && hb.id !in nodes
      modifies this`nodes, this`children, this`workers
      ensures Mirrors() && hb.id in nodes && nodes == old(nodes)[hb.id := nodes[hb.id]]
      ensures children == old(children)[hb.id := Child(queues, now, hb.interval, false)]
      ensures nodes[hb.id].routerQueues == queues && nodes[hb.id].address == hb.address % 0x1_0000
      ensures workers == old(workers) + {nodes[hb.id]}
    {
      var child := new ChildNode(hb.id, hb.address % 0x1_0000, queues, hb.interval, now);
      nodes, children := nodes[child.id := child], children[child.id := child.State()];
      workers := workers + {child};
    }

    method Touch(x: string, now: Nanos)
      requires Mirrors() && x in nodes
      modifies this`children, nodes[x]
      ensures Mirrors() && children == old(children)[x := old(children)[x].(lastTimestamp := now, paused := false)]
    {
      var node := nodes[x];
      node.lastTimestamp := now;
      node.Unpause();
      children := children[x := node.State()];
    }

    /** node.stop() and the deletion from the master's map; it opens no queue. */
    method Forget(node: ChildNode, ghost known: map<string, NodeQueues>, ghost live: set<string>)
      requires Mirrors() && node.id in nodes && nodes[node.id] == node && ShutExcept(known, live)
      modifies this`nodes, this`children, node`paused
      ensures ShutExcept(known, live)
      ensures Mirrors() && nodes == old(nodes) - {node.id} && children == old(children) - {node.id} && !node.paused
    {
      node.Unpause();
      nodes, children := nodes - {node.id}, children - {node.id};
    }

    /** The branch of heartbeatHandler for an ID it has not seen. */
    method Discover(hb: Heartbeat, now: Nanos)
      requires Valid() && hb.id !in nodes
      modifies this`nodes, this`children, this`workers, router
      ensures Valid() && hb.id in nodes && Seen() == Beat(old(Seen()), hb, now, nodes[hb.id].routerQueues)
      ensures nodes == old(nodes)[hb.id := nodes[hb.id]]
      ensures nodes[hb.id].address == hb.address % 0x1_0000 && workers == old(workers) + {nodes[hb.id]}
      ensures hb.id !in old(router.nodes) ==> nodes[hb.id].routerQueues.IsNew() && fresh(nodes[hb.id].routerQueues)
    {
      var queues := router.AddNode(hb.id);
      AddRoutes(hb.subscriptions, hb.id);
      Adopt(hb, queues, now);
    }

    /** heartbeatHandler: `now` is what the clock shows. */
    method HandleHeartbeat(hb: Heartbeat, now: Nanos)
      requires Valid()
      modifies this`nodes, this`children, this`workers, router, if hb.id in nodes then {nodes[hb.id]} else {}
      ensures Valid() && hb.id in nodes && Seen() == Beat(old(Seen()), hb, now, nodes[hb.id].routerQueues)
      ensures nodes == old(nodes)[hb.id := nodes[hb.id]]
      ensures hb.id !in old(nodes) ==> nodes[hb.id].address == hb.address % 0x1_0000
      ensures workers == if hb.id in old(nodes) then old(workers) else old(workers) + {nodes[hb.id]}
      ensures hb.id !in old(nodes) && hb.id !in old(router.nodes) ==>
                nodes[hb.id].routerQueues.IsNew() && fresh(nodes[hb.id].routerQueues)
    {
      if hb.id !in nodes {
        Discover(hb, now);
      } else {
        Touch(hb.id, now);
      }
    }

    /**
     And what that comes to: a known child goes on, with a new timestamp and its routes as they were; a
     new one is a node of the router, with its own queues, and routed for what it has subscribed to.
     */
    method HeartbeatHandler(hb: Heartbeat, now: Nanos)
      requires Valid()
      modifies this`nodes, this`children, this`workers, router, if hb.id in nodes then {nodes[hb.id]} else {}
      ensures Valid() && hb.id in nodes && Seen() == Beat(old(Seen()), hb, now, nodes[hb.id].routerQueues)
      ensures nodes == old(nodes)[hb.id := nodes[hb.id]] && nodes[hb.id].lastTimestamp == now && !nodes[hb.id].paused
      ensures hb.id in old(nodes) ==> workers == old(workers) && router.Tables() == old(router.Tables())
      ensures hb.id !in old(nodes) ==>
                && nodes[hb.id].address == hb.address % 0x1_0000 && nodes[hb.id].heartbeatInterval == hb.interval
                && workers == old(workers) + {nodes[hb.id]}
                && hb.id in router.nodes && nodes[hb.id].routerQueues == router.nodes[hb.id]
                && NewlyRouted(old(router.Tables()), router.Tables(), hb.id, hb.subscriptions, router.nodes[hb.id])
      ensures hb.id !in old(nodes) && hb.id !in old(router.nodes) ==>
                nodes[hb.id].routerQueues.IsNew() && fresh(nodes[hb.id].routerQueues)
    {
      ghost var before := Seen();
      HandleHeartbeat(hb, now);
      if hb.id !in before.children { BeatRoutes(before, hb, now, nodes[hb.id].routerQueues); }
      assert children[hb.id] == nodes[hb.id].State();
    }

    /** findStaleNodes: the range over the children visits each of them once, in some order. */
    method FindStaleNodes(now: Nanos) returns (ids: seq<string>)
      requires Valid()
      ensures Distinct(ids) && forall x :: x in ids <==> x in StaleIds(Seen(), now)
    {
      ids := [];
      var todo := nodes.Keys;
      while todo != {}
        invariant todo <= nodes.Keys && Distinct(ids)
        invariant forall x :: x in ids <==> x in nodes && x !in todo && Stale(nodes[x].State(), now)
        decreases |todo|
      {
        var x :| x in todo;
        var deadline := nodes[x].lastTimestamp + Grace(nodes[x].heartbeatInterval);
        if deadline < now {
          ids := ids + [x];
        }
        todo := todo - {x};
      }
    }

    /**
     cleanupNode: the router entry goes first, then the child is stopped and forgotten. `known` are the
     router's nodes from before the sweep.
     */
    method CleanupNode(ghost known: map<string, NodeQueues>, nodeId: string)
      requires Valid() && nodeId in nodes && nodeId in router.nodes
      requires WellNamed(known) && Within(router.nodes, known) && ShutExcept(known, router.nodes.Keys)
      modifies this`nodes, this`children, router, nodes[nodeId], router.nodes[nodeId].rcvQ, router.nodes[nodeId].sndQ
      ensures Valid() && Seen() == Cleaned(old(Seen()), nodeId)
      ensures nodes == old(nodes) - {nodeId} && router.nodes == old(router.nodes) - {nodeId} && !old(nodes[nodeId]).paused
      ensures ShutExcept(known, router.nodes.Keys)
    {
      ghost var before := Seen();
      router.RemoveBeside(known, nodeId);
      Forget(nodes[nodeId], known, router.nodes.Keys);
      assert Seen() == View(before.table.RemoveNode(nodeId), before.children - {nodeId});
    }

    /** The same, beside the children that were there. */
    method CleanupNext(ghost known: map<string, NodeQueues>, ghost all: map<string, ChildNode>, nodeId: string)
      requires Valid() && nodeId in nodes && nodeId in router.nodes
      requires WellNamed(known) && Within(router.nodes, known) && ShutExcept(known, router.nodes.Keys)
      requires SomeOf(nodes, all) && Dismissed(all, nodes.Keys)
      modifies this`nodes, this`children, router, nodes[nodeId], router.nodes[nodeId].rcvQ, router.nodes[nodeId].sndQ
      ensures Valid() && Seen() == Cleaned(old(Seen()), nodeId)
      ensures nodes == old(nodes) - {nodeId} && router.nodes == old(router.nodes) - {nodeId}
      ensures ShutExcept(known, router.nodes.Keys) && Dismissed(all, nodes.Keys)
    {
      CleanupNode(known, nodeId);
    }

    /** The loop over the list of stale IDs; it touches the queues and children of no other ID. */
    method CleanupAll(ids: seq<string>, ghost gone: set<string>)
      requires Valid() && TablesCoupled(Seen(), id) && Distinct(ids) && gone <= nodes.Keys
      requires forall x :: x in ids <==> x in gone
      modifies this`nodes, this`children, router, ChildrenOf(nodes, gone), QueuesOfIds(router.nodes, gone)
      ensures Valid() && Seen() == CleanedAll(old(Seen()), ids)
      ensures ShutExcept(old(router.nodes), router.nodes.Keys) && Dismissed(old(nodes), nodes.Keys)
    {
      ghost var before, all, known := Seen(), nodes, router.nodes;
      for i := 0 to |ids|
        invariant Valid() && Seen() == CleanedAll(before, ids[..i])
        invariant SomeOf(nodes, all) && Within(router.nodes, known)
        invariant ShutExcept(known, router.nodes.Keys) && Dismissed(all, nodes.Keys)
      {
        CleanedAllNext(before, ids, i);
        CleanupNeverMisses(before, id, ids, i);
        assert ids[i] in gone;
        CleanupNext(known, all, ids[i]);
      }
      assert ids[..|ids|] == ids;
    }

    /**
     One tick of removeStaleRoutes. Both queues of every node it removes are shut and the child is
     unpaused; it touches no queue and no child of an ID that is not stale.
     */
    method RemoveStaleRoutes(now: Nanos)
      requires Valid() && TablesCoupled(Seen(), id)
      modifies this`nodes, this`children, router
      modifies ChildrenOf(nodes, StaleIds(Seen(), now)), QueuesOfIds(router.nodes, StaleIds(Seen(), now))
      ensures Valid() && Seen() == Swept(old(Seen()), now)
      ensures ShutExcept(old(router.nodes), router.nodes.Keys) && Dismissed(old(nodes), nodes.Keys)
    {
      var ids := FindStaleNodes(now);
      ghost var gone := StaleIds(Seen(), now);
      CleanupIsRemoval(Seen(), id, ids, gone);
      CleanupAll(ids, gone);
    }
  }
}
