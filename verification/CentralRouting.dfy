/**
 The centralized router of the RF24 master: a node table and a route table that must agree, and the
 object that holds them together with the queues of its nodes.
 */
module CentralRouting {
  import opened Messages
  import opened WorkQueue

  /** The two tables, for any notion of node identity. */
  datatype Table<N> = Table(nodes: map<string, N>, routes: map<MessageType, map<string, N>>) {
    function RoutedFor(t: MessageType): map<string, N> {
      if t in routes then routes[t] else map[]
    }

    function AddNode(id: string, n: N): Table<N> {
      if id in nodes then this else this.(nodes := nodes[id := n])
    }

    function AddRoute(t: MessageType, id: string): Table<N> {
      if id !in nodes then this else this.(routes := routes[t := RoutedFor(t)[id := nodes[id]]])
    }

    function AddRoutes(ts: seq<MessageType>, id: string): Table<N> {
      if ts == [] then this else AddRoutes(ts[..|ts| - 1], id).AddRoute(ts[|ts| - 1], id)
    }

    function RemoveNode(id: string): Table<N> {
      if id !in nodes then this else Table(nodes - {id}, map t | t in routes :: routes[t] - {id})
    }

    /** Every route entry is the node table's entry for that ID. */
    ghost predicate Agree() {
      forall t, id {:trigger id in routes[t]} :: t in routes && id in routes[t] ==> id in nodes && routes[t][id] == nodes[id]
    }
  }

  lemma {:induction false} AddRoutesAgree<N>(tab: Table<N>, ts: seq<MessageType>, id: string)
    requires tab.Agree()
    ensures tab.AddRoutes(ts, id).Agree() && tab.AddRoutes(ts, id).nodes == tab.nodes
    decreases |ts|
  {
    if ts != [] { AddRoutesAgree(tab, ts[..|ts| - 1], id); }
  }

  /** Adding the routes of a known node puts it in the sets of exactly those types. */
  lemma {:induction false} AddRoutesExact<N>(tab: Table<N>, ts: seq<MessageType>, id: string, t: MessageType)
    requires id in tab.nodes
    ensures tab.AddRoutes(ts, id).nodes == tab.nodes
    ensures tab.AddRoutes(ts, id).RoutedFor(t) == if t in ts then tab.RoutedFor(t)[id := tab.nodes[id]] else tab.RoutedFor(t)
    decreases |ts|
  {
    if ts != [] {
      AddRoutesExact(tab, ts[..|ts| - 1], id, t);
      assert t in ts <==> t in ts[..|ts| - 1] || t == ts[|ts| - 1];
    }
  }

  lemma RemoveNodeAgree<N>(tab: Table<N>, id: string)
    requires tab.Agree()
    ensures tab.RemoveNode(id).Agree() && tab.RemoveNode(id).nodes == tab.nodes - {id}
    ensures forall t {:trigger tab.RemoveNode(id).RoutedFor(t)} :: tab.RemoveNode(id).RoutedFor(t) == tab.RoutedFor(t) - {id}
  {
    if id !in tab.nodes {
      assert forall t, x :: t in tab.routes && x in tab.routes[t] ==> x != id;
      forall t ensures tab.RemoveNode(id).RoutedFor(t) == tab.RoutedFor(t) - {id} {
        assert tab.RoutedFor(t) - {id} == tab.RoutedFor(t);
      }
      assert tab.nodes - {id} == tab.nodes;
    }
  }

  lemma NoNodesNoRoutes<N>(tab: Table<N>)
    requires tab.Agree() && tab.nodes.Keys == {}
    ensures tab.nodes == map[] && forall t :: t in tab.routes ==> tab.routes[t] == map[]
  {
    forall t | t in tab.routes ensures tab.routes[t] == map[] {
      assert forall id :: id !in tab.routes[t];
    }
  }

  // ---------------------------------------------------------------- the object

  class NodeQueues {
    const id: string
    const rcvQ: Queue
    const sndQ: Queue

    constructor (id: string, serial: nat)
      ensures this.id == id && fresh(rcvQ) && fresh(sndQ) && Named()
      ensures rcvQ.State() == NEW_QUEUE && sndQ.State() == NEW_QUEUE
    {
      this.id := id;
      rcvQ := new Queue(QRef(id, serial, Rcv));
      sndQ := new Queue(QRef(id, serial, Snd));
    }

    ghost predicate IsNew()
      reads rcvQ, sndQ
    {
      rcvQ.State() == NEW_QUEUE && sndQ.State() == NEW_QUEUE
    }

    /** Both queues carry the node's ID, so queues of different nodes are different objects. */
    predicate Named() {
      rcvQ.ref.id == id && rcvQ.ref.side == Rcv && sndQ.ref.id == id && sndQ.ref.side == Snd
    }
  }

  ghost predicate WellNamed(m: map<string, NodeQueues>) {
    forall id :: id in m ==> m[id].id == id && m[id].Named()
  }

  lemma QueuesApart(m: map<string, NodeQueues>, a: string, b: string)
    requires WellNamed(m) && a in m && b in m
    ensures m[a].rcvQ != m[b].sndQ
    ensures a != b ==> m[a].rcvQ != m[b].rcvQ && m[a].sndQ != m[b].sndQ
  {
    assert m[a].rcvQ.ref.side != m[b].sndQ.ref.side;
  }

  lemma OthersApart(m: map<string, NodeQueues>, a: string)
    requires WellNamed(m) && a in m
    ensures m[a].rcvQ != m[a].sndQ
    ensures forall b :: b in m && b != a ==> m[b].rcvQ !in {m[a].rcvQ, m[a].sndQ} && m[b].sndQ !in {m[a].rcvQ, m[a].sndQ}
  {
    QueuesApart(m, a, a);
    forall b | b in m && b != a
      ensures m[b].rcvQ !in {m[a].rcvQ, m[a].sndQ} && m[b].sndQ !in {m[a].rcvQ, m[a].sndQ}
    {
      QueuesApart(m, a, b);
      QueuesApart(m, b, a);
    }
  }

  ghost predicate Within(part: map<string, NodeQueues>, all: map<string, NodeQueues>) {
    part.Keys <= all.Keys && forall id :: id in part ==> part[id] == all[id]
  }

  ghost function QueuesOf(m: map<string, NodeQueues>): set<Queue> {
    (set id | id in m :: m[id].rcvQ) + (set id | id in m :: m[id].sndQ)
  }

  ghost function QueuesOfIds(m: map<string, NodeQueues>, ids: set<string>): set<Queue> {
    (set id | id in m && id in ids :: m[id].rcvQ) + (set id | id in m && id in ids :: m[id].sndQ)
  }

  /** Both queues of every node outside `live` are shut down. */
  ghost predicate ShutExcept(all: map<string, NodeQueues>, live: set<string>)
    reads QueuesOf(all)
  {
    forall id :: id in all && id !in live ==> all[id].rcvQ.shuttingdown && all[id].sndQ.shuttingdown
  }

  /** The inner loop of RemoveNode: the node leaves the node set of every message type. */
  method RemoveRoutes(routes: map<MessageType, map<string, NodeQueues>>, id: string)
    returns (rs: map<MessageType, map<string, NodeQueues>>)
    ensures rs == map t | t in routes :: routes[t] - {id}
  {
    rs := routes;
    var todo := routes.Keys;
    while todo != {}
      invariant todo <= routes.Keys && rs.Keys == routes.Keys
      invariant forall t :: t in routes ==> rs[t] == if t in todo then routes[t] else routes[t] - {id}
      decreases |todo|
    {
      var t :| t in todo;
      rs := rs[t := rs[t] - {id}];
      todo := todo - {t};
    }
  }

  /** The send queues of `todo` are as they were, the others have been offered the message once. */
  ghost predicate OfferedBut(nodeSet: map<string, NodeQueues>, was: map<string, QState>, todo: set<string>, msg: Message)
    reads set id | id in nodeSet :: nodeSet[id].sndQ
  {
    was.Keys == nodeSet.Keys
    && forall id :: id in nodeSet ==> nodeSet[id].sndQ.State() == if id in todo then was[id] else was[id].Add(msg)
  }

  method OfferOne(nodeSet: map<string, NodeQueues>, ghost was: map<string, QState>, ghost todo: set<string>, id: string, msg: Message)
    requires WellNamed(nodeSet) && id in nodeSet && id in todo && OfferedBut(nodeSet, was, todo, msg)
    modifies nodeSet[id].sndQ
    ensures OfferedBut(nodeSet, was, todo - {id}, msg)
  {
    forall x | x in nodeSet && x != id ensures nodeSet[x].sndQ != nodeSet[id].sndQ {
      QueuesApart(nodeSet, x, id);
    }
    nodeSet[id].sndQ.Add(msg);
  }

  /** The inner loop of a worker, over the nodes of one type. */
  method OfferAll(nodeSet: map<string, NodeQueues>, msg: Message)
    requires WellNamed(nodeSet)
    modifies set id | id in nodeSet :: nodeSet[id].sndQ
    ensures forall id :: id in nodeSet ==> nodeSet[id].sndQ.State() == old(nodeSet[id].sndQ.State()).Add(msg)
  {
    ghost var was := map id | id in nodeSet :: nodeSet[id].sndQ.State();
    var todo := nodeSet.Keys;
    while todo != {}
      invariant todo <= nodeSet.Keys && OfferedBut(nodeSet, was, todo, msg)
      decreases |todo|
    {
      var id :| id in todo;
      OfferOne(nodeSet, was, todo, id, msg);
      todo := todo - {id};
    }
  }

  class CentralizedMessageRouter {
    var routes: map<MessageType, map<string, NodeQueues>>
    var nodes: map<string, NodeQueues>
    var created: nat

    ghost function Tables(): Table<NodeQueues>
      reads this
    {
      Table(nodes, routes)
    }

    ghost predicate Valid()
      reads this
    {
      Tables().Agree() && WellNamed(nodes)
    }

    constructor ()
      ensures Valid() && Tables() == Table(map[], map[])
    {
      routes, nodes, created := map[], map[], 0;
    }

    method AddRoute(t: MessageType, id: string) returns (r: Outcome)
      requires Valid()
      modifies this`routes
      ensures Valid() && Tables() == old(Tables()).AddRoute(t, id) && (r.Ok? <==> id in nodes)
      ensures r.Err? ==> routes == old(routes)
      ensures r.Ok? ==> t in routes && routes - {t} == old(routes) - {t}
                        && routes[t] == (if t in old(routes) then old(routes)[t] else map[])[id := nodes[id]]
    {
      if id !in nodes {
        return Err("AddRoute: no entry for node found");
      }
      var nodeSet: map<string, NodeQueues> := if t in routes then routes[t] else map[];
      routes := routes[t := nodeSet[id := nodes[id]]];
      return Ok;
    }

    method AddNode(id: string) returns (node: NodeQueues)
      requires Valid()
      modifies this`nodes, this`created
      ensures Valid() && id in nodes && node == nodes[id] && Tables() == old(Tables()).AddNode(id, node)
      ensures if id in old(nodes) then nodes == old(nodes) else nodes == old(nodes)[id := node]
      ensures id !in old(nodes) ==> fresh(node) && fresh(node.rcvQ) && fresh(node.sndQ)
      ensures id !in old(nodes) ==> node.rcvQ.State() == NEW_QUEUE && node.sndQ.State() == NEW_QUEUE
    {
      if id in nodes {
        return nodes[id];
      }
      node := new NodeQueues(id, created);
      nodes := nodes[id := node];
      created := created + 1;
    }

    method RemoveNode(id: string) returns (found: bool)
      requires Valid()
      modifies this`nodes, this`routes
      modifies if id in nodes then {nodes[id].rcvQ, nodes[id].sndQ} else {}
      ensures Valid() && Tables() == old(Tables()).RemoveNode(id) && (found <==> id in old(nodes))
      ensures nodes == old(nodes) - {id} && routes.Keys == old(routes).Keys && forall t :: t in routes ==> routes[t] == old(routes)[t] - {id}
      ensures found ==> var n := old(nodes)[id];
                        n.rcvQ.State() == old(n.rcvQ.State()).ShutDown() && n.sndQ.State() == old(n.sndQ.State()).ShutDown()
    {
      if id !in nodes {
        return false;
      }
      var node := nodes[id];
      var rs := RemoveRoutes(routes, id);
      RemoveNodeAgree(Tables(), id);
      QueuesApart(nodes, id, id);
      node.rcvQ.ShutDown();
      node.sndQ.ShutDown();
      routes, nodes := rs, nodes - {id};
      return true;
    }

    /** RemoveNode of a known node, beside the nodes of an earlier table `all`. */
    method RemoveBeside(ghost all: map<string, NodeQueues>, id: string)
      requires Valid() && WellNamed(all) && id in nodes && Within(nodes, all) && ShutExcept(all, nodes.Keys)
      modifies this`nodes, this`routes, nodes[id].rcvQ, nodes[id].sndQ
      ensures Valid() && Tables() == old(Tables()).RemoveNode(id)
      ensures nodes == old(nodes) - {id} && ShutExcept(all, nodes.Keys)
    {
      var n := nodes[id];
      RemoveNodeAgree(Tables(), id);
      OthersApart(all, id);
      var found := RemoveNode(n.id);
      assert n.rcvQ.State().shuttingdown && n.sndQ.State().shuttingdown;
    }

    /** Ranging over the node table while every iteration deletes its own entry. */
    method Stop()
      requires Valid()
      modifies this`nodes, this`routes, QueuesOf(nodes)
      ensures Valid() && nodes == map[] && forall t :: t in routes ==> routes[t] == map[]
      ensures ShutExcept(old(nodes), {})
    {
      var all := nodes;
      while nodes.Keys != {}
        invariant Valid() && Within(nodes, all) && ShutExcept(all, nodes.Keys)
        decreases |nodes.Keys|
      {
        var id :| id in nodes;
        RemoveBeside(all, nodes[id].id);
      }
      NoNodesNoRoutes(Tables());
    }

    /** One pass of a worker: the message goes to every node routed for its type, the source included. */
    method Forward(msg: Message)
      requires Valid()
      modifies set id | id in Tables().RoutedFor(msg.id.msgType) :: Tables().RoutedFor(msg.id.msgType)[id].sndQ
      ensures forall id :: id in Tables().RoutedFor(msg.id.msgType) ==>
                nodes[id].sndQ.State() == old(nodes[id].sndQ.State()).Add(msg)
    {
      if msg.id.msgType in routes {
        assert forall id :: id in routes[msg.id.msgType] ==> routes[msg.id.msgType][id] == nodes[id];
        OfferAll(routes[msg.id.msgType], msg);
      }
    }

    /** The loop body of a worker of `node`, which may have been removed, run by goroutine `g`. */
    method WorkerPass(node: NodeQueues, g: Goroutine) returns (r: GetResult)
      requires Valid() && node.Named()
      modifies node.rcvQ, set id | id in nodes :: nodes[id].sndQ
      ensures r.Item? <==> old(node.rcvQ.queue) != []
      ensures r.Closed? <==> old(node.rcvQ.queue) == [] && node.rcvQ.shuttingdown
      ensures !r.Item? ==> node.rcvQ.State() == old(node.rcvQ.State())
      ensures !r.Item? ==> forall id :: id in nodes ==> nodes[id].sndQ.State() == old(nodes[id].sndQ.State())
      ensures r.Item? ==> r.msg == old(node.rcvQ.queue)[0] && node.rcvQ.State() == old(node.rcvQ.State()).Take().Done(r.msg)
      ensures r.Item? ==> forall id :: id in nodes ==>
                nodes[id].sndQ.State() == if id in Tables().RoutedFor(r.msg.id.msgType) then old(nodes[id].sndQ.State()).Add(r.msg)
                                          else old(nodes[id].sndQ.State())
    {
      assert forall id :: id in nodes ==> nodes[id].sndQ.ref.id == id && nodes[id].sndQ.ref.side != node.rcvQ.ref.side;
      r := node.rcvQ.Get(g);
      if r.Item? {
        Forward(r.msg);
        node.rcvQ.Done(r.msg);
      }
    }
  }
}
