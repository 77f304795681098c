/**
 The machine's publish/subscribe router: subscription lists per message type, and listeners that
 forward every message of a send queue to the other subscribers.
 */
module MessageRouting {
  import opened Messages
  import opened WorkQueue

  type Routes = map<MessageType, seq<QRef>>

  function SetFor(routes: Routes, t: MessageType): seq<QRef> {
    if t in routes then routes[t] else []
  }

  /** Position of the first entry with this ID, or the length of the list. */
  function IndexOf(list: seq<QRef>, id: string): (i: nat)
    ensures i <= |list| && (i < |list| ==> list[i].id == id && list[i] in list) && forall j :: 0 <= j < i ==> list[j].id != id
  {
    if list == [] || list[0].id == id then 0 else 1 + IndexOf(list[1..], id)
  }

  function Subscribed(list: seq<QRef>, r: QRef): seq<QRef> {
    if IndexOf(list, r.id) < |list| then list else list + [r]
  }

  function Unsubscribed(list: seq<QRef>, id: string): seq<QRef> {
    var i := IndexOf(list, id);
    if i < |list| then list[..i] + list[i + 1..] else list
  }

  /** What AddSubscriberQueue answers; it changes the routes only when it answers Ok. */
  function SubscribeAnswer(msgType: string, q: QState): Outcome {
    if msgType !in MESSAGE_TYPE_VALUE then Err("message type not found")
    else if q.shuttingdown then Err("queue must not be shutting down")
    else if q.queue != [] then Err("queue must be empty")
    else Ok
  }

  ghost predicate DistinctNames(list: seq<QRef>) {
    forall i, j :: 0 <= i < j < |list| ==> list[i].id != list[j].id
  }

  lemma SubscribedDistinct(list: seq<QRef>, r: QRef)
    requires DistinctNames(list)
    ensures DistinctNames(Subscribed(list, r))
    ensures exists q :: q in Subscribed(list, r) && q.id == r.id
    ensures forall q :: q in Subscribed(list, r) ==> q in list || q == r
  {
    var i := IndexOf(list, r.id);
    if i < |list| { assert list[i] in list; } else { assert r in list + [r]; }
  }

  lemma UnsubscribedDistinct(list: seq<QRef>, id: string)
    requires DistinctNames(list)
    ensures DistinctNames(Unsubscribed(list, id))
    ensures forall q :: q in Unsubscribed(list, id) <==> q in list && q.id != id
  {
    var i := IndexOf(list, id);
    var rest := Unsubscribed(list, id);
    if i < |list| {
      assert forall j :: 0 <= j < |rest| ==> rest[j] == list[if j < i then j else j + 1];
      forall q | q in list && q.id != id ensures q in rest {
        var j :| 0 <= j < |list| && list[j] == q;
        assert rest[if j < i then j else j - 1] == q;
      }
    }
  }

  function Refs(qs: seq<Queue>): seq<QRef> {
    seq(|qs|, i requires 0 <= i < |qs| => qs[i].ref)
  }

  /** An entry of that name whose queue is still open stands in the way of a removal. */
  ghost predicate OpenEntry(qs: seq<Queue>, id: string)
    reads set q | q in qs
  {
    exists q :: q in qs && q.ref.id == id && !q.shuttingdown
  }

  lemma EntryFound(qs: seq<Queue>, i: nat)
    requires i < |qs| && DistinctNames(Refs(qs))
    ensures qs[i] in qs && forall q :: q in qs && q.ref.id == qs[i].ref.id ==> q == qs[i]
    ensures IndexOf(Refs(qs), qs[i].ref.id) == i
    ensures OpenEntry(qs, qs[i].ref.id) <==> !qs[i].shuttingdown
  {
    var list := Refs(qs);
    assert forall j :: 0 <= j < |qs| ==> list[j] == qs[j].ref;
  }

  lemma EntryMissing(qs: seq<Queue>, id: string)
    requires forall i :: 0 <= i < |qs| ==> qs[i].ref.id != id
    ensures IndexOf(Refs(qs), id) == |qs| && !OpenEntry(qs, id)
  {
  }

  /** The same two operations on the queue objects. */
  function WithQueue(qs: seq<Queue>, q: Queue): seq<Queue> {
    if IndexOf(Refs(qs), q.ref.id) < |qs| then qs else qs + [q]
  }

  function WithoutQueue(qs: seq<Queue>, id: string): seq<Queue> {
    var i := IndexOf(Refs(qs), id);
    if i < |qs| then qs[..i] + qs[i + 1..] else qs
  }

  lemma WithQueueRefs(qs: seq<Queue>, q: Queue)
    ensures Refs(WithQueue(qs, q)) == Subscribed(Refs(qs), q.ref)
  {
    assert Refs(qs + [q]) == Refs(qs) + [q.ref];
  }

  lemma WithoutQueueRefs(qs: seq<Queue>, id: string)
    ensures Refs(WithoutQueue(qs, id)) == Unsubscribed(Refs(qs), id)
  {
    var i := IndexOf(Refs(qs), id);
    if i < |qs| { assert Refs(qs[..i] + qs[i + 1..]) == Refs(qs)[..i] + Refs(qs)[i + 1..]; }
  }

  function RoutesOf(routeMap: map<MessageType, seq<Queue>>): Routes {
    map t | t in routeMap :: Refs(routeMap[t])
  }

  /** A change of one type's queues is the same change of its route list, and of no other. */
  lemma RoutesFollow(before: map<MessageType, seq<Queue>>, after: map<MessageType, seq<Queue>>, t: MessageType)
    requires after - {t} == before - {t}
    ensures SetFor(RoutesOf(after), t) == Refs(QueuesIn(after, t))
    ensures RoutesOf(after) - {t} == RoutesOf(before) - {t}
  {
    forall u | u in before && u != t ensures u in after && after[u] == before[u] {
      assert u in before - {t} && (before - {t})[u] == before[u];
    }
    forall u | u in after && u != t ensures u in before && after[u] == before[u] {
      assert u in after - {t} && (after - {t})[u] == after[u];
    }
  }

  function QueuesIn(routeMap: map<MessageType, seq<Queue>>, t: MessageType): seq<Queue> {
    if t in routeMap then routeMap[t] else []
  }

  lemma SubscribeFollows(before: map<MessageType, seq<Queue>>, after: map<MessageType, seq<Queue>>, t: MessageType, q: Queue)
    requires after - {t} == before - {t} && QueuesIn(after, t) == WithQueue(QueuesIn(before, t), q)
    ensures SetFor(RoutesOf(after), t) == Subscribed(SetFor(RoutesOf(before), t), q.ref)
    ensures RoutesOf(after) - {t} == RoutesOf(before) - {t}
  {
    RoutesFollow(before, after, t);
    WithQueueRefs(QueuesIn(before, t), q);
  }

  lemma UnsubscribeFollows(before: map<MessageType, seq<Queue>>, after: map<MessageType, seq<Queue>>, t: MessageType, id: string)
    requires after - {t} == before - {t} && QueuesIn(after, t) == WithoutQueue(QueuesIn(before, t), id)
    ensures SetFor(RoutesOf(after), t) == Unsubscribed(SetFor(RoutesOf(before), t), id)
    ensures RoutesOf(after) - {t} == RoutesOf(before) - {t}
  {
    RoutesFollow(before, after, t);
    WithoutQueueRefs(QueuesIn(before, t), id);
  }

  ghost predicate NamesDistinct(routeMap: map<MessageType, seq<Queue>>) {
    forall t :: t in routeMap ==> DistinctNames(Refs(routeMap[t]))
  }

  lemma WithoutKeepsValid(routeMap: map<MessageType, seq<Queue>>, t: MessageType, id: string)
    requires NamesDistinct(routeMap)
    ensures NamesDistinct(routeMap[t := WithoutQueue(QueuesIn(routeMap, t), id)])
  {
    var list := QueuesIn(routeMap, t);
    WithoutQueueRefs(list, id);
    UnsubscribedDistinct(Refs(list), id);
  }

  lemma WithKeepsValid(routeMap: map<MessageType, seq<Queue>>, t: MessageType, q: Queue)
    requires NamesDistinct(routeMap)
    ensures NamesDistinct(routeMap[t := WithQueue(QueuesIn(routeMap, t), q)])
  {
    var list := QueuesIn(routeMap, t);
    WithQueueRefs(list, q);
    SubscribedDistinct(Refs(list), q.ref);
  }

  class MessageRouter {
    var routeMap: map<MessageType, seq<Queue>>

    ghost function Routes(): Routes
      reads this
    {
      RoutesOf(routeMap)
    }

    ghost predicate Valid()
      reads this
    {
      NamesDistinct(routeMap)
    }

    function QueuesFor(t: MessageType): seq<Queue>
      reads this
    {
      QueuesIn(routeMap, t)
    }

    constructor ()
      ensures Valid() && Routes() == map[]
    {
      routeMap := map[];
    }

    method AddSubscriberQueue(msgType: string, queue: Queue) returns (r: Outcome)
      requires Valid()
      modifies this
      ensures Valid() && r == SubscribeAnswer(msgType, queue.State())
      ensures r.Ok? <==> msgType in MESSAGE_TYPE_VALUE && !queue.shuttingdown && queue.queue == []
      ensures r.Err? ==> routeMap == old(routeMap)
      ensures r.Ok? ==> var t := MESSAGE_TYPE_VALUE[msgType];
                        && QueuesFor(t) == WithQueue(old(QueuesFor(t)), queue) && routeMap - {t} == old(routeMap) - {t}
                        && SetFor(Routes(), t) == Subscribed(old(SetFor(Routes(), t)), queue.ref)
                        && Routes() - {t} == old(Routes()) - {t}
    {
      if msgType !in MESSAGE_TYPE_VALUE {
        return Err("message type not found");
      }
      var t := MESSAGE_TYPE_VALUE[msgType];
      var list := QueuesFor(t);
      if queue.shuttingdown {
        return Err("queue must not be shutting down");
      }
      if |queue.queue| != 0 {
        return Err("queue must be empty");
      }
      ghost var before := routeMap;
      WithKeepsValid(routeMap, t, queue);
      var i := 0;
      while i < |list|
        invariant i <= |list|
        invariant forall j :: 0 <= j < i ==> list[j].ref.id != queue.ref.id
      {
        if queue.ref.id == list[i].ref.id {
          EntryFound(list, i);
          SubscribeFollows(before, routeMap, t, queue);
          return Ok;
        }
        i := i + 1;
      }
      EntryMissing(list, queue.ref.id);
      routeMap := routeMap[t := list + [queue]];
      SubscribeFollows(before, routeMap, t, queue);
      return Ok;
    }

    method RemoveSubscriberQueue(msgType: string, subID: string) returns (r: Outcome)
      requires Valid()
      modifies this
      ensures Valid()
      ensures msgType !in MESSAGE_TYPE_VALUE ==> r.Err?
      ensures r.Err? ==> routeMap == old(routeMap)
      ensures msgType in MESSAGE_TYPE_VALUE ==>
                var t := MESSAGE_TYPE_VALUE[msgType];
                && (r.Err? <==> old(OpenEntry(QueuesFor(t), subID)))
                && (r.Ok? ==>
                      && QueuesFor(t) == WithoutQueue(old(QueuesFor(t)), subID) && routeMap - {t} == old(routeMap) - {t}
                      && SetFor(Routes(), t) == Unsubscribed(old(SetFor(Routes(), t)), subID)
                      && Routes() - {t} == old(Routes()) - {t})
    {
      if msgType !in MESSAGE_TYPE_VALUE {
        return Err("message type not found");
      }
      var t := MESSAGE_TYPE_VALUE[msgType];
      var list := QueuesFor(t);
      ghost var before := routeMap;
      WithoutKeepsValid(routeMap, t, subID);
      var i := 0;
      while i < |list|
        invariant i <= |list|
        invariant forall j :: 0 <= j < i ==> list[j].ref.id != subID
      {
        if subID == list[i].ref.id {
          EntryFound(list, i);
          if !list[i].shuttingdown {
            return Err("queue must first be shutdown");
          }
          routeMap := routeMap[t := list[..i] + list[i + 1..]];
          UnsubscribeFollows(before, routeMap, t, subID);
          return Ok;
        }
        i := i + 1;
      }
      EntryMissing(list, subID);
      UnsubscribeFollows(before, routeMap, t, subID);
      return Ok;
    }

    /** The loop of a listener over the subscribers of one message; nothing goes back to its source. */
    method Forward(source: Queue, msg: Message)
      requires Valid()
      modifies set q | q in QueuesFor(msg.id.msgType) && q.ref.id != source.ref.id
      ensures forall q :: q in QueuesFor(msg.id.msgType) ==>
                q.State() == if q.ref.id == source.ref.id then old(q.State()) else old(q.State()).Add(msg)
    {
      var list := QueuesFor(msg.id.msgType);
      assert forall i :: 0 <= i < |list| ==> Refs(list)[i] == list[i].ref;
      assert forall i, j :: 0 <= i < j < |list| ==> list[i].ref.id != list[j].ref.id;
      for i := 0 to |list|
        invariant forall j :: 0 <= j < i ==>
                    list[j].State() == if list[j].ref.id == source.ref.id then old(list[j].State()) else old(list[j].State()).Add(msg)
        invariant forall j :: i <= j < |list| ==> list[j].State() == old(list[j].State())
      {
        if source.ref.id == list[i].ref.id {
          continue;
        }
        list[i].Add(msg);
      }
    }

    /** One pass of the listener's loop on `queue`, run by goroutine `g`. */
    method ListenOnce(queue: Queue, g: Goroutine) returns (r: GetResult)
      requires Valid()
      modifies queue, set t, q | t in routeMap && q in routeMap[t] && q.ref.id != queue.ref.id :: q
      ensures r.Item? <==> old(queue.queue) != []
      ensures r.Closed? <==> old(queue.queue) == [] && queue.shuttingdown
      ensures !r.Item? ==> queue.State() == old(queue.State())
      ensures !r.Item? ==> forall t, q :: t in routeMap && q in routeMap[t] ==> q.State() == old(q.State())
      ensures r.Item? ==> r.msg == old(queue.queue)[0] && queue.State() == old(queue.State()).Take().Done(r.msg)
      ensures r.Item? ==> forall q :: q in QueuesFor(r.msg.id.msgType) && q != queue ==>
                            q.State() == if q.ref.id == queue.ref.id then old(q.State()) else old(q.State()).Add(r.msg)
      ensures r.Item? ==> forall t, q :: t in routeMap && q in routeMap[t] && q != queue && q !in QueuesFor(r.msg.id.msgType) ==>
                            q.State() == old(q.State())
    {
      r := queue.Get(g);
      if r.Item? {
        Forward(queue, r.msg);
        queue.Done(r.msg);
      }
    }
  }
}
