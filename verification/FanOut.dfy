/**
 Runs of the publish/subscribe router: publishers, one listener per send queue, subscribers coming
 and going, and consumers of the receive queues. Each forwarded message is one atomic step.
 */
module FanOut {
  import opened Messages
  import opened WorkQueue
  import opened MessageRouting

  /** A queue with what observers have seen: the Adds it accepted and the messages its Gets returned. */
  datatype Node = Node(q: QState, got: seq<Message>, taken: seq<Message>) {
    function Offer(m: Message): Node {
      if q.shuttingdown then this else Node(q.Add(m), got + [m], taken)
    }

    function Take(): Node
      requires q.queue != []
    {
      Node(q.Take(), got, taken + [q.queue[0]])
    }
  }

  /** `owner` records which send queue a message identifier was published on. */
  datatype Net = Net(routes: Routes, nodes: map<QRef, Node>, owner: map<MessageID, QRef>)

  const EMPTY_NET := Net(map[], map[], map[])

  function At(s: Net, h: QRef): Node {
    if h in s.nodes then s.nodes[h] else Node(NEW_QUEUE, [], [])
  }

  function With(s: Net, h: QRef, n: Node): Net {
    s.(nodes := s.nodes[h := n])
  }

  /** The listener's loop over the subscriber list. */
  function OfferAll(s: Net, list: seq<QRef>, source: string, m: Message): Net
    decreases list
  {
    if list == [] then s
    else if list[0].id == source then OfferAll(s, list[1..], source, m)
    else OfferAll(With(s, list[0], At(s, list[0]).Offer(m)), list[1..], source, m)
  }

  /**
   Fan-out without echo: the message is offered exactly once to every subscriber whose ID differs
   from the source's, and to no other queue.
   */
  lemma {:induction false} OfferedExactlyOnce(s: Net, list: seq<QRef>, source: string, m: Message)
    requires DistinctNames(list)
    ensures var t := OfferAll(s, list, source, m);
            && t.routes == s.routes && t.owner == s.owner
            && forall h {:trigger At(t, h)} :: At(t, h) == if h in list && h.id != source then At(s, h).Offer(m) else At(s, h)
    decreases list
  {
    if list != [] {
      var h0, rest := list[0], list[1..];
      assert forall h :: h in list <==> h == h0 || h in rest;
      assert forall i :: 0 <= i < |rest| ==> rest[i] == list[i + 1];
      assert h0 !in rest;
      var s1 := if h0.id == source then s else With(s, h0, At(s, h0).Offer(m));
      OfferedExactlyOnce(s1, rest, source, m);
    }
  }

  datatype Event =
    | Publish(h: QRef, m: Message)
    | Listen(h: QRef)
    | Subscribe(msgType: string, h: QRef)
    | Unsubscribe(msgType: string, id: string)
    | Consume(h: QRef)
    | Finish(h: QRef, m: Message)
    | Close(h: QRef)

  /** Components publish on send queues, and subscribe, consume and finish on receive queues. */
  function Step(s: Net, e: Event): Net {
    match e
    case Publish(h, m) =>
      if h.side.Snd? then With(s, h, At(s, h).Offer(m)).(owner := s.owner[m.id := h]) else s
    case Listen(h) =>
      if h.side.Snd? && At(s, h).q.queue != [] then
        var m := At(s, h).q.queue[0];
        var t := OfferAll(With(s, h, At(s, h).Take()), SetFor(s.routes, m.id.msgType), h.id, m);
        With(t, h, At(t, h).(q := At(t, h).q.Done(m)))
      else s
    case Subscribe(name, h) =>
      if h.side.Rcv? && SubscribeAnswer(name, At(s, h).q).Ok? then
        var t := MESSAGE_TYPE_VALUE[name];
        s.(routes := s.routes[t := Subscribed(SetFor(s.routes, t), h)])
      else s
    case Unsubscribe(name, id) =>
      if name in MESSAGE_TYPE_VALUE then
        var t := MESSAGE_TYPE_VALUE[name];
        var list := SetFor(s.routes, t);
        var i := IndexOf(list, id);
        if i < |list| && !At(s, list[i]).q.shuttingdown then s
        else s.(routes := s.routes[t := Unsubscribed(list, id)])
      else s
    case Consume(h) =>
      if h.side.Rcv? && At(s, h).q.queue != [] then With(s, h, At(s, h).Take()) else s
    case Finish(h, m) =>
      if h.side.Rcv? && m in At(s, h).taken then With(s, h, At(s, h).(q := At(s, h).q.Done(m))) else s
    case Close(h) => With(s, h, At(s, h).(q := At(s, h).q.ShutDown()))
  }

  function Run(s: Net, es: seq<Event>): Net {
    if es == [] then s else Step(Run(s, es[..|es| - 1]), es[|es| - 1])
  }

  ghost predicate ListOk(list: seq<QRef>) {
    DistinctNames(list) && forall r :: r in list ==> r.side.Rcv?
  }

  ghost predicate RoutesInv(routes: Routes) {
    forall t :: ListOk(SetFor(routes, t))
  }

  lemma RoutesInvUpdate(routes: Routes, t: MessageType, list: seq<QRef>)
    requires RoutesInv(routes) && ListOk(list)
    ensures RoutesInv(routes[t := list])
  {
    var routes' := routes[t := list];
    forall u ensures ListOk(SetFor(routes', u)) {
      assert u != t ==> SetFor(routes', u) == SetFor(routes, u) && ListOk(SetFor(routes, u));
    }
  }

  lemma RoutesInvStep(s: Net, e: Event)
    requires RoutesInv(s.routes)
    ensures RoutesInv(Step(s, e).routes)
  {
    match e
    case Listen(h) =>
      if h.side.Snd? && At(s, h).q.queue != [] {
        var m := At(s, h).q.queue[0];
        OfferedExactlyOnce(With(s, h, At(s, h).Take()), SetFor(s.routes, m.id.msgType), h.id, m);
      }
    case Subscribe(name, h) =>
      if h.side.Rcv? && SubscribeAnswer(name, At(s, h).q).Ok? {
        var t := MESSAGE_TYPE_VALUE[name];
        SubscribedDistinct(SetFor(s.routes, t), h);
        RoutesInvUpdate(s.routes, t, Subscribed(SetFor(s.routes, t), h));
      }
    case Unsubscribe(name, id) =>
      if name in MESSAGE_TYPE_VALUE {
        var t := MESSAGE_TYPE_VALUE[name];
        UnsubscribedDistinct(SetFor(s.routes, t), id);
        RoutesInvUpdate(s.routes, t, Unsubscribed(SetFor(s.routes, t), id));
      }
    case _ =>
  }

  /** What one listener step does to every queue of the network. */
  lemma ListenEffect(s: Net, h: QRef)
    requires RoutesInv(s.routes) && h.side.Snd? && At(s, h).q.queue != []
    ensures var m, t := At(s, h).q.queue[0], Step(s, Listen(h));
            && t.routes == s.routes && t.owner == s.owner
            && At(t, h) == At(s, h).Take().(q := At(s, h).q.Take().Done(m))
            && forall r {:trigger At(t, r)} :: r != h ==>
                 At(t, r) == if r in SetFor(s.routes, m.id.msgType) && r.id != h.id then At(s, r).Offer(m) else At(s, r)
  {
    var m := At(s, h).q.queue[0];
    var s1 := With(s, h, At(s, h).Take());
    var list := SetFor(s.routes, m.id.msgType);
    var u, t := OfferAll(s1, list, h.id, m), Step(s, Listen(h));
    assert ListOk(list);
    OfferedExactlyOnce(s1, list, h.id, m);
    assert At(u, h) == At(s1, h) == At(s, h).Take();
    assert t == With(u, h, At(u, h).(q := At(u, h).q.Done(m)));
    forall r | r != h
      ensures At(t, r) == if r in list && r.id != h.id then At(s, r).Offer(m) else At(s, r)
    {
      assert At(t, r) == At(u, r) && At(s1, r) == At(s, r);
    }
  }

  /** The head of a send queue has been published on it and not been taken before. */
  lemma HeadOwned(s: Net, h: QRef)
    requires NetInv(s) && h.side.Snd? && At(s, h).q.queue != []
    ensures var n, m := At(s, h), At(s, h).q.queue[0];
            n.got == n.taken + n.q.queue && DistinctIDs(n.got) && n.got[|n.taken|] == m && Owned(s, h, m)
  {
    var n, m := At(s, h), At(s, h).q.queue[0];
    assert n.got[|n.taken|] == m;
    assert m in At(s, h).got;
  }

  /**
   In every run each type's subscriber IDs stay distinct, so each message a listener takes is offered
   exactly once to each current subscriber with another ID and to no other queue.
   */
  lemma {:induction false} NoEchoAlways(es: seq<Event>, h: QRef)
    ensures var s := Run(EMPTY_NET, es);
            && RoutesInv(s.routes)
            && (h.side.Snd? && At(s, h).q.queue != [] ==>
                  var m, t := At(s, h).q.queue[0], Step(s, Listen(h));
                  forall r {:trigger At(t, r)} :: r != h ==>
                    At(t, r) == if r in SetFor(s.routes, m.id.msgType) && r.id != h.id then At(s, r).Offer(m) else At(s, r))
  {
    if es != [] {
      NoEchoAlways(es[..|es| - 1], h);
      RoutesInvStep(Run(EMPTY_NET, es[..|es| - 1]), es[|es| - 1]);
    }
    var s := Run(EMPTY_NET, es);
    if h.side.Snd? && At(s, h).q.queue != [] { ListenEffect(s, h); }
  }

  // ---------------------------------------------------------------- order, with distinct message IDs

  /** Publishers never reuse a message identifier. */
  ghost predicate FreshPublish(s: Net, e: Event) {
    e.Publish? ==> e.m.id !in s.owner
  }

  ghost predicate Owned(s: Net, h: QRef, m: Message) {
    && m.id in s.owner && s.owner[m.id].side.Snd?
    && (h.side.Snd? ==> s.owner[m.id] == h)
    && (h.side.Rcv? ==> m in At(s, s.owner[m.id]).taken)
  }

  ghost predicate NetInv(s: Net) {
    && RoutesInv(s.routes)
    && (forall h {:trigger At(s, h)} :: Tidy(At(s, h).q, At(s, h).got, At(s, h).taken))
    && (forall h, m {:trigger m in At(s, h).got} :: m in At(s, h).got ==> Owned(s, h, m))
  }

  lemma OfferTidy(n: Node, m: Message)
    requires Tidy(n.q, n.got, n.taken) && (n.q.shuttingdown || !Queued(n.got, m.id))
    ensures var o := n.Offer(m); Tidy(o.q, o.got, o.taken)
  {
    if !n.q.shuttingdown { TidyAdd(n.q, n.got, n.taken, m); }
  }

  lemma PublishInv(s: Net, h: QRef, m: Message)
    requires NetInv(s) && h.side.Snd? && m.id !in s.owner
    ensures NetInv(Step(s, Publish(h, m)))
  {
    var t := Step(s, Publish(h, m));
    forall k ensures Tidy(At(t, k).q, At(t, k).got, At(t, k).taken) {
      if k == h {
        forall x | x in At(s, h).got ensures x.id != m.id { assert Owned(s, h, x); }
        OfferTidy(At(s, h), m);
      } else {
        assert At(t, k) == At(s, k);
      }
    }
    forall k, x | x in At(t, k).got ensures Owned(t, k, x) {
      PublishOwned(s, h, m, k, x);
    }
  }

  lemma PublishOwned(s: Net, h: QRef, m: Message, k: QRef, x: Message)
    requires NetInv(s) && h.side.Snd? && m.id !in s.owner
    requires x in At(Step(s, Publish(h, m)), k).got
    ensures Owned(Step(s, Publish(h, m)), k, x)
  {
    var t := Step(s, Publish(h, m));
    assert k != h ==> At(t, k) == At(s, k);
    assert At(t, h) == At(s, h).Offer(m);
    if x in At(s, k).got {
      assert Owned(s, k, x);
      var p := s.owner[x.id];
      assert t.owner[x.id] == p;
      assert p != h ==> At(t, p) == At(s, p);
      assert At(t, p).taken == At(s, p).taken;
    }
  }

  /** The message a listener is about to forward has not reached any receive queue yet. */
  lemma HeadIsNew(s: Net, h: QRef, r: QRef)
    requires NetInv(s) && h.side.Snd? && At(s, h).q.queue != [] && r.side.Rcv?
    ensures !Queued(At(s, r).got, At(s, h).q.queue[0].id)
  {
    var n, m := At(s, h), At(s, h).q.queue[0];
    HeadOwned(s, h);
    forall x | x in At(s, r).got ensures x.id != m.id {
      assert Owned(s, r, x);
      if s.owner[x.id] == h {
        var i :| 0 <= i < |n.taken| && n.taken[i] == x;
        assert n.got[i] == x;
      }
    }
  }

  lemma ListenTidy(s: Net, h: QRef, k: QRef)
    requires NetInv(s) && h.side.Snd? && At(s, h).q.queue != []
    ensures var n := At(Step(s, Listen(h)), k); Tidy(n.q, n.got, n.taken)
  {
    ListenEffect(s, h);
    var n, m := At(s, h), At(s, h).q.queue[0];
    if k == h {
      TidyTake(n.q, n.got, n.taken);
      TidyDone(n.q.Take(), n.got, n.taken + [m], m);
    } else if k in SetFor(s.routes, m.id.msgType) && k.id != h.id {
      HeadIsNew(s, h, k);
      OfferTidy(At(s, k), m);
    }
  }

  lemma ListenOwned(s: Net, h: QRef, k: QRef, x: Message)
    requires NetInv(s) && h.side.Snd? && At(s, h).q.queue != []
    requires x in At(Step(s, Listen(h)), k).got
    ensures Owned(Step(s, Listen(h)), k, x)
  {
    ListenEffect(s, h);
    var t, m := Step(s, Listen(h)), At(s, h).q.queue[0];
    HeadOwned(s, h);
    assert m in At(t, h).taken;
    if x in At(s, k).got {
      assert Owned(s, k, x);
      var p := s.owner[x.id];
      assert forall y :: y in At(s, p).taken ==> y in At(t, p).taken;
    } else {
      assert k != h && x == m && k.side.Rcv?;
    }
  }

  /** A step that changes the fields and Gets of one queue, and nothing else. */
  lemma OneQueueInv(s: Net, t: Net, h: QRef, n: Node)
    requires NetInv(s) && RoutesInv(t.routes) && t.owner == s.owner && t.nodes == s.nodes[h := n]
    requires Tidy(n.q, n.got, n.taken) && n.got == At(s, h).got && At(s, h).taken <= n.taken
    ensures NetInv(t)
  {
    forall k ensures Tidy(At(t, k).q, At(t, k).got, At(t, k).taken) {
      assert k != h ==> At(t, k) == At(s, k);
    }
    forall k, x | x in At(t, k).got ensures Owned(t, k, x) {
      assert x in At(s, k).got && Owned(s, k, x);
      assert forall y :: y in At(s, s.owner[x.id]).taken ==> y in At(t, s.owner[x.id]).taken;
    }
  }

  lemma RoutesOnlyInv(s: Net, t: Net)
    requires NetInv(s) && RoutesInv(t.routes) && t.owner == s.owner && t.nodes == s.nodes
    ensures NetInv(t)
  {
    forall k, x | x in At(t, k).got ensures Owned(t, k, x) { assert x in At(s, k).got && Owned(s, k, x); }
    forall k ensures Tidy(At(t, k).q, At(t, k).got, At(t, k).taken) { assert At(t, k) == At(s, k); }
  }

  lemma NetInvStep(s: Net, e: Event)
    requires NetInv(s) && FreshPublish(s, e)
    ensures NetInv(Step(s, e))
  {
    RoutesInvStep(s, e);
    var t := Step(s, e);
    if t != s {
      match e
      case Publish(h, m) => PublishInv(s, h, m);
      case Listen(h) =>
        forall k ensures Tidy(At(t, k).q, At(t, k).got, At(t, k).taken) { ListenTidy(s, h, k); }
        forall k, x | x in At(t, k).got ensures Owned(t, k, x) { ListenOwned(s, h, k, x); }
      case Subscribe(name, h) => RoutesOnlyInv(s, t);
      case Unsubscribe(name, id) => RoutesOnlyInv(s, t);
      case Consume(h) =>
        TidyTake(At(s, h).q, At(s, h).got, At(s, h).taken);
        OneQueueInv(s, t, h, At(s, h).Take());
      case Finish(h, m) =>
        TidyDone(At(s, h).q, At(s, h).got, At(s, h).taken, m);
        OneQueueInv(s, t, h, At(s, h).(q := At(s, h).q.Done(m)));
      case Close(h) =>
        OneQueueInv(s, t, h, At(s, h).(q := At(s, h).q.ShutDown()));
    }
  }

  ghost predicate FreshRun(s: Net, es: seq<Event>) {
    forall k :: 0 <= k < |es| ==> FreshPublish(Run(s, es[..k]), es[k])
  }

  lemma {:induction false} NetInvAlways(s: Net, es: seq<Event>)
    requires NetInv(s) && FreshRun(s, es)
    ensures NetInv(Run(s, es))
  {
    if es != [] {
      var init := es[..|es| - 1];
      assert forall k :: 0 <= k < |init| ==> init[..k] == es[..k];
      NetInvAlways(s, init);
      NetInvStep(Run(s, init), es[|es| - 1]);
    }
  }

  /** The messages of type `t` published on `p`, in the order in which they occur in `s`. */
  function From(s: seq<Message>, owner: map<MessageID, QRef>, p: QRef, t: MessageType): seq<Message> {
    if s == [] then []
    else
      var m := s[|s| - 1];
      From(s[..|s| - 1], owner, p, t)
      + if m.id in owner && owner[m.id] == p && m.id.msgType == t then [m] else []
  }

  lemma {:induction false} FromAppend(a: seq<Message>, b: seq<Message>, owner: map<MessageID, QRef>, p: QRef, t: MessageType)
    ensures From(a + b, owner, p, t) == From(a, owner, p, t) + From(b, owner, p, t)
  {
    if b == [] {
      assert a + b == a;
    } else {
      var b' := b[..|b| - 1];
      FromAppend(a, b', owner, p, t);
      assert (a + b)[..|a + b| - 1] == a + b';
    }
  }

  lemma {:induction false} FromOwnerGrows(s: seq<Message>, owner: map<MessageID, QRef>, id: MessageID, h: QRef, p: QRef, t: MessageType)
    requires forall m :: m in s ==> m.id in owner
    requires id !in owner
    ensures From(s, owner[id := h], p, t) == From(s, owner, p, t)
  {
    if s != [] {
      FromOwnerGrows(s[..|s| - 1], owner, id, h, p, t);
      assert s[|s| - 1] in s;
    }
  }

  ghost predicate Open(s: Net, r: QRef, t: MessageType) {
    r in SetFor(s.routes, t) && !At(s, r).q.shuttingdown
  }

  /**
   Between `s` and `u`, what `r` has got of `p`'s messages of type `t` has grown by exactly those
   that the listener has taken from `p` meanwhile, in the order it took them.
   */
  ghost predicate HandedOver(s: Net, u: Net, p: QRef, r: QRef, t: MessageType) {
    && At(s, p).taken <= At(u, p).taken
    && From(At(u, r).got, u.owner, p, t)
       == From(At(s, r).got, s.owner, p, t) + From(At(u, p).taken[|At(s, p).taken|..], u.owner, p, t)
  }

  lemma HandedOverPublish(s: Net, h: QRef, m: Message, p: QRef, r: QRef, t: MessageType)
    requires NetInv(s) && m.id !in s.owner && h.side.Snd? && r.side.Rcv?
    ensures HandedOver(s, Step(s, Publish(h, m)), p, r, t)
  {
    var u := Step(s, Publish(h, m));
    var got := At(s, r).got;
    assert At(u, r) == At(s, r) && At(u, p).taken == At(s, p).taken;
    forall x | x in got ensures x.id in s.owner { assert Owned(s, r, x); }
    FromOwnerGrows(got, s.owner, m.id, h, p, t);
  }

  lemma GrownByOne(got: seq<Message>, got': seq<Message>, taken: seq<Message>, taken': seq<Message>, m: Message,
                   owner: map<MessageID, QRef>, h: QRef, p: QRef, t: MessageType)
    requires m.id in owner && owner[m.id] == h
    requires taken' == if h == p then taken + [m] else taken
    requires got' == got + [m] || (got' == got && (h != p || m.id.msgType != t))
    ensures taken <= taken' && From(got', owner, p, t) == From(got, owner, p, t) + From(taken'[|taken|..], owner, p, t)
  {
    FromAppend(got, [m], owner, p, t);
    assert From([m], owner, p, t) == if h == p && m.id.msgType == t then [m] else [] by {
      assert [m][..0] == [];
    }
    assert taken'[|taken|..] == if h == p then [m] else [];
  }

  lemma HandedOverListen(s: Net, h: QRef, p: QRef, r: QRef, t: MessageType)
    requires NetInv(s) && h.side.Snd? && At(s, h).q.queue != [] && Open(s, r, t) && p.side.Snd? && p.id != r.id
    ensures HandedOver(s, Step(s, Listen(h)), p, r, t)
  {
    var m, u := At(s, h).q.queue[0], Step(s, Listen(h));
    var got, list := At(s, r).got, SetFor(s.routes, m.id.msgType);
    assert ListOk(SetFor(s.routes, t)) && ListOk(list);
    ListenEffect(s, h);
    HeadOwned(s, h);
    GrownByOne(got, At(u, r).got, At(s, p).taken, At(u, p).taken, m, s.owner, h, p, t);
  }

  /** Steps other than a publication or a listener's leave all three things alone. */
  lemma HandedOverOther(s: Net, e: Event, p: QRef, r: QRef, t: MessageType)
    requires !(e.Publish? && e.h.side.Snd?) && !(e.Listen? && e.h.side.Snd? && At(s, e.h).q.queue != [])
    requires p.side.Snd?
    ensures HandedOver(s, Step(s, e), p, r, t)
  {
    var u := Step(s, e);
    assert At(u, r).got == At(s, r).got && At(u, p).taken == At(s, p).taken && u.owner == s.owner;
  }

  /** One step hands a subscriber exactly those of its publisher's messages that the listener took. */
  lemma HandedOverStep(s: Net, e: Event, p: QRef, r: QRef, t: MessageType)
    requires NetInv(s) && FreshPublish(s, e) && Open(s, r, t) && p.side.Snd? && p.id != r.id
    ensures HandedOver(s, Step(s, e), p, r, t)
  {
    assert ListOk(SetFor(s.routes, t));
    if e.Publish? && e.h.side.Snd? {
      HandedOverPublish(s, e.h, e.m, p, r, t);
    } else if e.Listen? && e.h.side.Snd? && At(s, e.h).q.queue != [] {
      HandedOverListen(s, e.h, p, r, t);
    } else {
      HandedOverOther(s, e, p, r, t);
    }
  }

  /** A later publication does not change which of the taken messages are `p`'s. */
  lemma TakenOwnerGrows(v: Net, e: Event, p: QRef, t: MessageType, part: seq<Message>)
    requires NetInv(v) && FreshPublish(v, e) && forall m :: m in part ==> m in At(v, p).taken
    ensures From(part, Step(v, e).owner, p, t) == From(part, v.owner, p, t)
  {
    forall m | m in part ensures m.id in v.owner {
      assert m in At(v, p).got by { assert Tidy(At(v, p).q, At(v, p).got, At(v, p).taken); }
      assert Owned(v, p, m);
    }
    if e.Publish? && e.h.side.Snd? {
      FromOwnerGrows(part, v.owner, e.m.id, e.h, p, t);
    } else if e.Listen? && e.h.side.Snd? && At(v, e.h).q.queue != [] {
      ListenEffect(v, e.h);
    }
  }

  /**
   While a subscriber stays subscribed and open, the publisher's messages of that type that reach it
   are exactly those the listener has taken from the publisher since, in publish order.
   */
  lemma {:induction false} SubscriberSeesPublishOrder(s: Net, es: seq<Event>, p: QRef, r: QRef, t: MessageType)
    requires NetInv(s) && FreshRun(s, es) && p.side.Snd? && p.id != r.id
    requires forall k :: 0 <= k <= |es| ==> Open(Run(s, es[..k]), r, t)
    ensures HandedOver(s, Run(s, es), p, r, t)
  {
    if es != [] {
      var init, e := es[..|es| - 1], es[|es| - 1];
      assert forall k :: 0 <= k < |es| ==> init[..k] == es[..k];
      assert es[..|init|] == init;
      SubscriberSeesPublishOrder(s, init, p, r, t);
      NetInvAlways(s, init);
      HandedOverStep(Run(s, init), e, p, r, t);
      HandedOverJoin(s, Run(s, init), e, p, r, t);
    }
  }

  lemma HandedOverJoin(s: Net, v: Net, e: Event, p: QRef, r: QRef, t: MessageType)
    requires NetInv(v) && FreshPublish(v, e)
    requires HandedOver(s, v, p, r, t) && HandedOver(v, Step(v, e), p, r, t)
    ensures HandedOver(s, Step(v, e), p, r, t)
  {
    var u := Step(v, e);
    TakenOwnerGrows(v, e, p, t, At(v, p).taken[|At(s, p).taken|..]);
    GrownJoin(At(s, p).taken, At(v, p).taken, At(u, p).taken, u.owner, p, t);
    Associative(From(At(s, r).got, s.owner, p, t), From(At(v, p).taken[|At(s, p).taken|..], u.owner, p, t),
                From(At(u, p).taken[|At(v, p).taken|..], u.owner, p, t));
  }

  lemma GrownJoin(a: seq<Message>, b: seq<Message>, c: seq<Message>, owner: map<MessageID, QRef>, p: QRef, t: MessageType)
    requires a <= b <= c
    ensures From(c[|a|..], owner, p, t) == From(b[|a|..], owner, p, t) + From(c[|b|..], owner, p, t)
  {
    FromAppend(b[|a|..], c[|b|..], owner, p, t);
    assert c[|a|..] == b[|a|..] + c[|b|..];
  }

  lemma Associative(a: seq<Message>, b: seq<Message>, c: seq<Message>)
    ensures (a + b) + c == a + (b + c)
  {
  }

  lemma EmptyNetInv()
    ensures NetInv(EMPTY_NET)
  {
    assert forall h {:trigger At(EMPTY_NET, h)} :: At(EMPTY_NET, h) == Node(NEW_QUEUE, [], []);
  }

  ghost predicate TidyNet(s: Net) {
    forall h {:trigger At(s, h)} :: At(s, h).got == At(s, h).taken + At(s, h).q.queue && DistinctIDs(At(s, h).got)
  }

  /**
   The whole of it, from an empty network. After any start `pre` that reached `s`, while a subscriber
   stays subscribed and open during `es`: it gets a publisher's messages in publish order, and at
   both queues what was accepted is what was taken followed by what is still queued, with nothing twice.
   */
  lemma PublishOrderInEveryRun(pre: seq<Event>, s: Net, es: seq<Event>, p: QRef, r: QRef, t: MessageType)
    requires FreshRun(EMPTY_NET, pre) && s == Run(EMPTY_NET, pre) && FreshRun(s, es) && p.side.Snd? && p.id != r.id
    requires forall k :: 0 <= k <= |es| ==> Open(Run(s, es[..k]), r, t)
    ensures HandedOver(s, Run(s, es), p, r, t) && TidyNet(Run(s, es))
  {
    EmptyNetInv();
    NetInvAlways(EMPTY_NET, pre);
    SubscriberSeesPublishOrder(s, es, p, r, t);
    NetInvAlways(s, es);
    InvIsTidy(Run(s, es));
  }

  lemma InvIsTidy(s: Net)
    requires NetInv(s)
    ensures TidyNet(s)
  {
    assert forall h {:trigger At(s, h)} :: Tidy(At(s, h).q, At(s, h).got, At(s, h).taken);
  }

  // ---------------------------------------------------------------- subscribing and unsubscribing

  /**
   A receive queue under a known name is on the type's list afterwards, itself unless its ID was there
   already, exactly when it is open and empty; otherwise nothing changes. Other types' lists stay.
   */
  lemma SubscribeEffect(s: Net, name: string, h: QRef)
    requires h.side.Rcv?
    ensures var q, u := At(s, h).q, Step(s, Subscribe(name, h));
            if name in MESSAGE_TYPE_VALUE && !q.shuttingdown && q.queue == [] then
              var t := MESSAGE_TYPE_VALUE[name];
              && u.nodes == s.nodes && u.owner == s.owner && u.routes - {t} == s.routes - {t}
              && ((forall r :: r in SetFor(s.routes, t) ==> r.id != h.id) ==> SetFor(u.routes, t) == SetFor(s.routes, t) + [h])
              && ((exists r :: r in SetFor(s.routes, t) && r.id == h.id) ==> SetFor(u.routes, t) == SetFor(s.routes, t))
            else u == s
  {
    if name in MESSAGE_TYPE_VALUE {
      var list := SetFor(s.routes, MESSAGE_TYPE_VALUE[name]);
      var i := IndexOf(list, h.id);
      if r :| r in list && r.id == h.id {
        var j :| 0 <= j < |list| && list[j] == r;
        assert i < |list|;
      }
    }
  }

  /** An ID leaves the type's list, unless its entry there is still open; other types' lists stay. */
  lemma UnsubscribeEffect(s: Net, name: string, id: string)
    requires RoutesInv(s.routes) && name in MESSAGE_TYPE_VALUE
    ensures var t, u := MESSAGE_TYPE_VALUE[name], Step(s, Unsubscribe(name, id));
            if exists r :: r in SetFor(s.routes, t) && r.id == id && !At(s, r).q.shuttingdown then u == s
            else
              && u.nodes == s.nodes && u.owner == s.owner && u.routes - {t} == s.routes - {t}
              && forall r :: r in SetFor(u.routes, t) <==> r in SetFor(s.routes, t) && r.id != id
  {
    var t := MESSAGE_TYPE_VALUE[name];
    var list := SetFor(s.routes, t);
    assert ListOk(list);
    UnsubscribedDistinct(list, id);
    if r :| r in list && r.id == id && !At(s, r).q.shuttingdown {
      var j :| 0 <= j < |list| && list[j] == r;
      assert IndexOf(list, id) == j;
    }
  }

  // ---------------------------------------------------------------- each queue on its own

  /** The calls that a step makes on the queue `r`. */
  function CallsOn(s: Net, e: Event, r: QRef): seq<Call> {
    match e
    case Publish(h, m) => if h == r && h.side.Snd? then [CallAdd(m)] else []
    case Listen(h) =>
      if !h.side.Snd? || At(s, h).q.queue == [] then []
      else if h == r then [CallGet, CallDone(At(s, h).q.queue[0])]
      else if r in SetFor(s.routes, At(s, h).q.queue[0].id.msgType) && r.id != h.id then [CallAdd(At(s, h).q.queue[0])]
      else []
    case Consume(h) => if h == r && h.side.Rcv? then [CallGet] else []
    case Finish(h, m) => if h == r && h.side.Rcv? && m in At(s, h).taken then [CallDone(m)] else []
    case Close(h) => if h == r then [CallShutDown] else []
    case _ => []
  }

  function History(s: Net, es: seq<Event>, r: QRef): seq<Call> {
    if es == [] then [] else History(s, es[..|es| - 1], r) + CallsOn(Run(s, es[..|es| - 1]), es[|es| - 1], r)
  }

  lemma ListenCalls(s: Net, h: QRef, r: QRef)
    requires RoutesInv(s.routes) && h.side.Snd? && At(s, h).q.queue != []
    ensures At(Step(s, Listen(h)), r).q == WorkQueue.Run(At(s, r).q, CallsOn(s, Listen(h), r))
  {
    var q, m := At(s, r).q, At(s, h).q.queue[0];
    ListenEffect(s, h);
    RunNone(q);
    RunOne(q, CallAdd(m));
    if h == r { RunTwo(q, CallGet, CallDone(m)); }
  }

  lemma OtherCalls(s: Net, e: Event, r: QRef)
    requires !(e.Listen? && e.h.side.Snd? && At(s, e.h).q.queue != [])
    ensures At(Step(s, e), r).q == WorkQueue.Run(At(s, r).q, CallsOn(s, e, r))
  {
    var q := At(s, r).q;
    RunNone(q);
    match e
    case Publish(h, m) => RunOne(q, CallAdd(m));
    case Consume(h) => RunOne(q, CallGet);
    case Finish(h, m) => RunOne(q, CallDone(m));
    case Close(h) => RunOne(q, CallShutDown);
    case _ =>
  }

  /**
   Over every run each queue goes through a run of the work queue's own calls: the Adds of publishers
   and listeners, the Get and Done of each listener's pass and of each consumer, and the shutdown.
   */
  lemma {:induction false} QueuesRunOnTheirOwn(s: Net, es: seq<Event>, r: QRef)
    requires RoutesInv(s.routes)
    ensures RoutesInv(Run(s, es).routes)
    ensures At(Run(s, es), r).q == WorkQueue.Run(At(s, r).q, History(s, es, r))
  {
    if es != [] {
      var init, e := es[..|es| - 1], es[|es| - 1];
      var p := Run(s, init);
      QueuesRunOnTheirOwn(s, init, r);
      RoutesInvStep(p, e);
      if e.Listen? && e.h.side.Snd? && At(p, e.h).q.queue != [] { ListenCalls(p, e.h, r); } else { OtherCalls(p, e, r); }
      RunAppend(At(s, r).q, History(s, init, r), CallsOn(p, e, r));
    }
  }

  // ---------------------------------------------------------------- nothing is kept back

  /** `n` passes of the listener of `h`. */
  function Listens(h: QRef, n: nat): seq<Event> {
    if n == 0 then [] else Listens(h, n - 1) + [Listen(h)]
  }

  function Consumes(r: QRef, n: nat): seq<Event> {
    if n == 0 then [] else Consumes(r, n - 1) + [Consume(r)]
  }

  lemma RunSnoc(s: Net, es: seq<Event>, e: Event, u: Net)
    requires u == Step(Run(s, es), e)
    ensures Run(s, es + [e]) == u
  {
    assert (es + [e])[..|es|] == es;
  }

  /** The first `n` messages of the send queue have been offered to a subscriber of their type. */
  ghost predicate ListenedTo(s: Net, t: Net, h: QRef, r: QRef, n: nat) {
    && NetInv(t) && t.routes == s.routes && n <= |At(s, h).q.queue|
    && At(t, h).q.queue == At(s, h).q.queue[n..]
    && At(t, r).q.shuttingdown == At(s, r).q.shuttingdown
    && forall i :: 0 <= i < n && r in SetFor(s.routes, At(s, h).q.queue[i].id.msgType) && !At(s, r).q.shuttingdown ==>
         At(s, h).q.queue[i] in At(t, r).got
  }

  lemma ListenedNext(s: Net, t: Net, u: Net, h: QRef, r: QRef, n: nat)
    requires h.side.Snd? && r.side.Rcv? && r.id != h.id && ListenedTo(s, t, h, r, n) && n < |At(s, h).q.queue|
    requires u == Step(t, Listen(h))
    ensures ListenedTo(s, u, h, r, n + 1)
  {
    var queue := At(s, h).q.queue;
    assert queue[n..][0] == queue[n] && queue[n..][1..] == queue[n + 1..];
    NetInvStep(t, Listen(h));
    ListenEffect(t, h);
  }

  lemma OneMoreListened(s: Net, t: Net, h: QRef, r: QRef, n: nat)
    requires h.side.Snd? && r.side.Rcv? && r.id != h.id && n < |At(s, h).q.queue|
    requires t == Run(s, Listens(h, n)) && ListenedTo(s, t, h, r, n)
    ensures ListenedTo(s, Run(s, Listens(h, n) + [Listen(h)]), h, r, n + 1)
  {
    var u := Step(t, Listen(h));
    ListenedNext(s, t, u, h, r, n);
    RunSnoc(s, Listens(h, n), Listen(h), u);
  }

  lemma NoneListened(s: Net, h: QRef, r: QRef)
    requires NetInv(s)
    ensures ListenedTo(s, s, h, r, 0)
  {
    assert At(s, h).q.queue[0..] == At(s, h).q.queue;
  }

  /** As many passes of the listener as there are messages empty the send queue and hand each of them over. */
  lemma {:induction false} ListensReach(s: Net, h: QRef, r: QRef, n: nat)
    requires NetInv(s) && h.side.Snd? && r.side.Rcv? && r.id != h.id && n <= |At(s, h).q.queue|
    ensures ListenedTo(s, Run(s, Listens(h, n)), h, r, n)
  {
    if n == 0 {
      NoneListened(s, h, r);
    } else {
      var i: nat := n - 1;
      ListensReach(s, h, r, i);
      OneMoreListened(s, Run(s, Listens(h, i)), h, r, i);
      assert Listens(h, n) == Listens(h, i) + [Listen(h)];
    }
  }

  ghost predicate Consumed(s: Net, t: Net, r: QRef, n: nat) {
    NetInv(t) && At(t, r).got == At(s, r).got && n <= |At(s, r).q.queue| && At(t, r).q.queue == At(s, r).q.queue[n..]
  }

  lemma OneMoreConsumed(s: Net, t: Net, r: QRef, n: nat)
    requires r.side.Rcv? && n < |At(s, r).q.queue| && t == Run(s, Consumes(r, n)) && Consumed(s, t, r, n)
    ensures Consumed(s, Run(s, Consumes(r, n + 1)), r, n + 1)
  {
    var queue, u := At(s, r).q.queue, Step(t, Consume(r));
    assert queue[n..][1..] == queue[n + 1..];
    NetInvStep(t, Consume(r));
    RunSnoc(s, Consumes(r, n), Consume(r), u);
  }

  lemma {:induction false} ConsumesEmpty(s: Net, r: QRef, n: nat)
    requires NetInv(s) && r.side.Rcv? && n <= |At(s, r).q.queue|
    ensures Consumed(s, Run(s, Consumes(r, n)), r, n)
  {
    if n == 0 {
      assert At(s, r).q.queue[0..] == At(s, r).q.queue;
    } else {
      ConsumesEmpty(s, r, n - 1);
      OneMoreConsumed(s, Run(s, Consumes(r, n - 1)), r, n - 1);
    }
  }

  lemma PublishAppends(s: Net, h: QRef, m: Message)
    requires NetInv(s) && h.side.Snd? && m.id !in s.owner && !At(s, h).q.shuttingdown
    ensures var u := Step(s, Publish(h, m));
            NetInv(u) && u.routes == s.routes && At(u, h).q.queue == At(s, h).q.queue + [m]
            && forall r {:trigger At(u, r)} :: r != h ==> At(u, r) == At(s, r)
  {
    NetInvStep(s, Publish(h, m));
    forall x | x in At(s, h).got ensures x.id != m.id { assert Owned(s, h, x); }
    TidyAdd(At(s, h).q, At(s, h).got, At(s, h).taken, m);
  }

  /** A fresh message published on an open send queue is on every open subscriber's queue, or taken from it, once the listener is through. */
  lemma PublishedIsHandedOver(s: Net, u: Net, h: QRef, m: Message, r: QRef)
    requires NetInv(s) && h.side.Snd? && m.id !in s.owner && !At(s, h).q.shuttingdown
    requires Open(s, r, m.id.msgType) && r.id != h.id && u == Step(s, Publish(h, m))
    ensures var v := Run(u, Listens(h, |At(u, h).q.queue|)); NetInv(v) && m in At(v, r).got
  {
    assert ListOk(SetFor(s.routes, m.id.msgType));
    PublishAppends(s, h, m);
    var queue := At(u, h).q.queue;
    ListensReach(u, h, r, |queue|);
    LastListened(u, Run(u, Listens(h, |queue|)), h, r, m);
  }

  lemma LastListened(u: Net, v: Net, h: QRef, r: QRef, m: Message)
    requires var queue := At(u, h).q.queue; ListenedTo(u, v, h, r, |queue|) && queue != [] && queue[|queue| - 1] == m
    requires r in SetFor(u.routes, m.id.msgType) && !At(u, r).q.shuttingdown
    ensures m in At(v, r).got
  {
  }

  /** And it is taken by the subscriber once that has consumed what it then has. */
  lemma PublishedMessageArrives(s: Net, u: Net, v: Net, h: QRef, m: Message, r: QRef)
    requires NetInv(s) && h.side.Snd? && m.id !in s.owner && !At(s, h).q.shuttingdown
    requires Open(s, r, m.id.msgType) && r.id != h.id && u == Step(s, Publish(h, m))
    requires v == Run(u, Listens(h, |At(u, h).q.queue|))
    ensures m in At(Run(v, Consumes(r, |At(v, r).q.queue|)), r).taken
  {
    assert ListOk(SetFor(s.routes, m.id.msgType));
    PublishedIsHandedOver(s, u, h, m, r);
    ConsumesEmpty(v, r, |At(v, r).q.queue|);
    var w := Run(v, Consumes(r, |At(v, r).q.queue|));
    assert Tidy(At(w, r).q, At(w, r).got, At(w, r).taken);
  }
}
