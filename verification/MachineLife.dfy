/**
 Starting and stopping drivers and controllers on a machine: the component lists and the message
 routes change together, and over every run of successful starts and stops they agree.
 */
module MachineLife {
  import opened Messages
  import opened WorkQueue
  import opened MessageRouting

  datatype Kind = Driver | Controller

  /** `adaptorID` is used by drivers only. */
  datatype Conf = Conf(typ: string, id: string, adaptorID: string, subscriptions: seq<string>)

  /** A running component and its receive queue. */
  datatype Component = Component(conf: Conf, rcvQ: QRef)

  /**
   `closed` holds the receive queues that have been shut down, `serial` numbers queue objects, and
   `order` lists the running components of both kinds in the order in which they were started.
   */
  datatype Machine = Machine(
    adaptors: seq<string>,
    drivers: seq<Component>,
    controllers: seq<Component>,
    routes: Routes,
    closed: set<QRef>,
    serial: nat,
    order: seq<Component>)

  const NEW_MACHINE := Machine([], [], [], map[], {}, 0, [])

  function ListOf(m: Machine, k: Kind): seq<Component> {
    if k.Driver? then m.drivers else m.controllers
  }

  function WithList(m: Machine, k: Kind, list: seq<Component>): Machine {
    if k.Driver? then m.(drivers := list) else m.(controllers := list)
  }

  predicate HasType(list: seq<Component>, typ: string) {
    exists i :: 0 <= i < |list| && list[i].conf.typ == typ
  }

  datatype Result = Result(machine: Machine, outcome: Outcome)

  /** The subscription loop of a start; it stops at the first name that is not an enum name. */
  function SubscribeAll(routes: Routes, names: seq<string>, q: QRef): (Routes, Outcome)
    decreases names
  {
    if names == [] then (routes, Ok)
    else if names[0] !in MESSAGE_TYPE_VALUE then (routes, Err("message type not found"))
    else
      var t := MESSAGE_TYPE_VALUE[names[0]];
      SubscribeAll(routes[t := Subscribed(SetFor(routes, t), q)], names[1..], q)
  }

  /** The removal loop of a stop. */
  function UnsubscribeAll(routes: Routes, names: seq<string>, id: string, closed: set<QRef>): (Routes, Outcome)
    decreases names
  {
    if names == [] then (routes, Ok)
    else if names[0] !in MESSAGE_TYPE_VALUE then (routes, Err("message type not found"))
    else
      var t := MESSAGE_TYPE_VALUE[names[0]];
      var list := SetFor(routes, t);
      var i := IndexOf(list, id);
      if i < |list| && list[i] !in closed then (routes, Err("queue must first be shutdown"))
      else UnsubscribeAll(if i < |list| then routes[t := Unsubscribed(list, id)] else routes, names[1..], id, closed)
  }

  function StartOne(m: Machine, k: Kind, conf: Conf): Result {
    if HasType(ListOf(m, k), conf.typ) then Result(m, Err("already running"))
    else if k.Driver? && conf.adaptorID !in m.adaptors then Result(m, Err("no adapter"))
    else
      var q := QRef(conf.id, m.serial, Rcv);
      var c := Component(conf, q);
      var m' := WithList(m, k, ListOf(m, k) + [c]).(serial := m.serial + 1, order := m.order + [c]);
      var (routes, outcome) := SubscribeAll(m.routes, conf.subscriptions, q);
      Result(m'.(routes := routes), outcome)
  }

  function StartAll(m: Machine, k: Kind, confs: seq<Conf>): Result
    decreases confs
  {
    if confs == [] then Result(m, Ok) else
    var r := StartOne(m, k, confs[0]);
    if r.outcome.Err? then r else StartAll(r.machine, k, confs[1..])
  }

  /** startDrivers and startControllers. */
  function Start(m: Machine, k: Kind, confs: seq<Conf>): Result {
    if confs == [] then Result(m, Err("nothing specified")) else StartAll(m, k, confs)
  }

  /** A driver is found by type and ID, a controller by ID alone. */
  predicate Matches(c: Component, k: Kind, typ: string, id: string) {
    c.conf.id == id && (k.Driver? ==> c.conf.typ == typ)
  }

  function Find(list: seq<Component>, k: Kind, typ: string, id: string): (i: nat)
    ensures i <= |list| && (i < |list| ==> Matches(list[i], k, typ, id))
    ensures forall j :: 0 <= j < i ==> !Matches(list[j], k, typ, id)
  {
    if list == [] || Matches(list[0], k, typ, id) then 0 else 1 + Find(list[1..], k, typ, id)
  }

  function Without(list: seq<Component>, c: Component): seq<Component> {
    if list == [] then [] else
    Without(list[..|list| - 1], c) + if list[|list| - 1] == c then [] else [list[|list| - 1]]
  }

  /** stopDriver and stopController. */
  function Stop(m: Machine, k: Kind, typ: string, id: string): Result {
    var list := ListOf(m, k);
    var i := Find(list, k, typ, id);
    if i == |list| then Result(m, Err("not found"))
    else
      var c := list[i];
      var closed := m.closed + {c.rcvQ};
      var (routes, outcome) := UnsubscribeAll(m.routes, c.conf.subscriptions, c.conf.id, closed);
      var m' := m.(routes := routes, closed := closed);
      if outcome.Err? then Result(m', outcome)
      else Result(WithList(m', k, list[..i] + list[i + 1..]).(order := Without(m.order, c)), Ok)
  }

  // ---------------------------------------------------------------- what starts and stops are for

  /** The configurations of a list of running components. */
  function ConfsOf(list: seq<Component>): (r: seq<Conf>)
    ensures |r| == |list| && forall i :: 0 <= i < |list| ==> r[i] == list[i].conf
  {
    seq(|list|, i requires 0 <= i < |list| => list[i].conf)
  }

  ghost predicate KnownNames(conf: Conf) {
    forall name :: name in conf.subscriptions ==> name in MESSAGE_TYPE_VALUE
  }

  /** Among `running` and `adaptors` there is no place for this configuration. */
  ghost predicate Refused(running: seq<Conf>, adaptors: seq<string>, k: Kind, conf: Conf) {
    (exists c :: c in running && c.typ == conf.typ) || (k == Driver && conf.adaptorID !in adaptors)
  }

  /** What a start leaves of everything but the list of its kind, the routes and the numbering. */
  ghost predicate OnlyList(before: Machine, after: Machine, k: Kind) {
    && after.adaptors == before.adaptors && after.closed == before.closed
    && (k == Driver ==> after.controllers == before.controllers)
    && (k == Controller ==> after.drivers == before.drivers)
  }

  /** The configurations running before, and the first `j` of the batch after them. */
  ghost predicate StartedUpTo(before: Machine, after: Machine, k: Kind, confs: seq<Conf>, j: nat) {
    && j <= |confs| && OnlyList(before, after, k)
    && ListOf(before, k) <= ListOf(after, k)
    && ConfsOf(ListOf(after, k)) == ConfsOf(ListOf(before, k)) + confs[..j]
  }

  /** Why the batch stopped: the next one was refused, or the last one listed has a name that is unknown. */
  ghost predicate StoppedBecause(after: Machine, k: Kind, confs: seq<Conf>, j: nat) {
    || (j < |confs| && Refused(ConfsOf(ListOf(after, k)), after.adaptors, k, confs[j]))
    || (0 < j <= |confs| && !KnownNames(confs[j - 1]))
  }

  /** A batch is worked through, up to the first error. */
  ghost predicate BatchStarted(before: Machine, after: Machine, k: Kind, confs: seq<Conf>, r: Outcome) {
    && (r.Ok? ==> StartedUpTo(before, after, k, confs, |confs|))
    && (r.Err? ==> exists j :: 0 <= j <= |confs| && StartedUpTo(before, after, k, confs, j)
                     && (confs == [] || StoppedBecause(after, k, confs, j)))
  }

  /** A driver is the one of this type and ID, a controller the one of this ID. */
  ghost predicate IsIt(c: Component, k: Kind, typ: string, id: string) {
    c.conf.id == id && (k == Driver ==> c.conf.typ == typ)
  }

  ghost predicate IsFirst(list: seq<Component>, k: Kind, typ: string, id: string, i: nat) {
    i < |list| && IsIt(list[i], k, typ, id) && forall j :: 0 <= j < i ==> !IsIt(list[j], k, typ, id)
  }

  /** The component at place `i` is shut, and deleted from its list unless its routes are in the way. */
  ghost predicate StoppedAt(before: Machine, after: Machine, k: Kind, i: nat, r: Outcome) {
    var list := ListOf(before, k);
    && i < |list| && after.closed == before.closed + {list[i].rcvQ}
    && ListOf(after, k) == (if r.Ok? then list[..i] + list[i + 1..] else list)
    && (k == Driver ==> after.controllers == before.controllers)
    && (k == Controller ==> after.drivers == before.drivers)
    && after.adaptors == before.adaptors && after.serial == before.serial
  }

  /** The first match is stopped; without a match the stop is refused and changes nothing. */
  ghost predicate ComponentStopped(before: Machine, after: Machine, k: Kind, typ: string, id: string, r: Outcome) {
    && ((forall c :: c in ListOf(before, k) ==> !IsIt(c, k, typ, id)) ==> r.Err? && after == before)
    && forall i: nat :: IsFirst(ListOf(before, k), k, typ, id, i) ==> StoppedAt(before, after, k, i, r)
  }

  lemma {:induction false} SubscribeOkIff(routes: Routes, names: seq<string>, q: QRef)
    ensures SubscribeAll(routes, names, q).1.Ok? <==> forall n :: n in names ==> n in MESSAGE_TYPE_VALUE
    decreases names
  {
    if names != [] {
      assert forall n :: n in names <==> n == names[0] || n in names[1..];
      if names[0] in MESSAGE_TYPE_VALUE {
        var t := MESSAGE_TYPE_VALUE[names[0]];
        SubscribeOkIff(routes[t := Subscribed(SetFor(routes, t), q)], names[1..], q);
      }
    }
  }

  /** One start: refused without a change, or listed; then it succeeds exactly if its names are known. */
  lemma StartOneEffect(m: Machine, k: Kind, conf: Conf)
    ensures var r := StartOne(m, k, conf);
            if Refused(ConfsOf(ListOf(m, k)), m.adaptors, k, conf) then r.outcome.Err? && r.machine == m
            else StartedUpTo(m, r.machine, k, [conf], 1) && (r.outcome.Ok? <==> KnownNames(conf))
  {
    var list := ListOf(m, k);
    if HasType(list, conf.typ) {
      var i :| 0 <= i < |list| && list[i].conf.typ == conf.typ;
      assert ConfsOf(list)[i] in ConfsOf(list);
    } else {
      forall c | c in ConfsOf(list) ensures c.typ != conf.typ {
        var i :| 0 <= i < |list| && ConfsOf(list)[i] == c;
      }
      SubscribeOkIff(m.routes, conf.subscriptions, QRef(conf.id, m.serial, Rcv));
    }
  }

  lemma OneThenMore(a: Machine, b: Machine, c: Machine, k: Kind, confs: seq<Conf>, j: nat)
    requires confs != [] && StartedUpTo(a, b, k, [confs[0]], 1) && StartedUpTo(b, c, k, confs[1..], j)
    ensures StartedUpTo(a, c, k, confs, j + 1)
  {
    assert [confs[0]][..1] == [confs[0]] && confs[..j + 1] == [confs[0]] + confs[1..][..j];
  }

  lemma NoneStarted(m: Machine, k: Kind, confs: seq<Conf>)
    ensures StartedUpTo(m, m, k, confs, 0)
  {
    assert ConfsOf(ListOf(m, k)) + confs[..0] == ConfsOf(ListOf(m, k));
  }

  /** For all batches, whatever is in them. */
  lemma {:induction false} StartAllEffect(m: Machine, k: Kind, confs: seq<Conf>)
    ensures var r := StartAll(m, k, confs);
            && (r.outcome.Ok? ==> StartedUpTo(m, r.machine, k, confs, |confs|))
            && (r.outcome.Err? ==> exists j :: 0 <= j <= |confs| && StartedUpTo(m, r.machine, k, confs, j)
                                     && StoppedBecause(r.machine, k, confs, j))
    decreases |confs|
  {
    NoneStarted(m, k, confs);
    if confs != [] {
      var one := StartOne(m, k, confs[0]);
      StartOneEffect(m, k, confs[0]);
      if Refused(ConfsOf(ListOf(m, k)), m.adaptors, k, confs[0]) {
        assert StoppedBecause(m, k, confs, 0);
      } else if one.outcome.Err? {
        NoneStarted(one.machine, k, confs[1..]);
        OneThenMore(m, one.machine, one.machine, k, confs, 0);
        assert StoppedBecause(one.machine, k, confs, 1);
      } else {
        StartRest(m, one.machine, k, confs);
      }
    }
  }

  lemma {:induction false} StartRest(m: Machine, n: Machine, k: Kind, confs: seq<Conf>)
    requires confs != [] && StartedUpTo(m, n, k, [confs[0]], 1)
    ensures var r := StartAll(n, k, confs[1..]);
            && (r.outcome.Ok? ==> StartedUpTo(m, r.machine, k, confs, |confs|))
            && (r.outcome.Err? ==> exists j :: 0 <= j <= |confs| && StartedUpTo(m, r.machine, k, confs, j)
                                     && StoppedBecause(r.machine, k, confs, j))
    decreases |confs|, 0
  {
    var r := StartAll(n, k, confs[1..]);
    StartAllEffect(n, k, confs[1..]);
    if r.outcome.Ok? {
      OneThenMore(m, n, r.machine, k, confs, |confs| - 1);
    } else {
      var j :| 0 <= j <= |confs[1..]| && StartedUpTo(n, r.machine, k, confs[1..], j) && StoppedBecause(r.machine, k, confs[1..], j);
      OneThenMore(m, n, r.machine, k, confs, j);
      assert StoppedBecause(r.machine, k, confs, j + 1);
    }
  }

  lemma StartEffect(m: Machine, k: Kind, confs: seq<Conf>)
    ensures BatchStarted(m, Start(m, k, confs).machine, k, confs, Start(m, k, confs).outcome)
    ensures confs == [] ==> Start(m, k, confs).outcome.Err?
  {
    NoneStarted(m, k, confs);
    StartAllEffect(m, k, confs);
  }

  lemma NothingToStop(m: Machine, k: Kind, typ: string, id: string)
    requires Find(ListOf(m, k), k, typ, id) == |ListOf(m, k)|
    ensures ComponentStopped(m, m, k, typ, id, Err("not found"))
  {
    var list := ListOf(m, k);
    forall i: nat | i < |list| ensures !IsIt(list[i], k, typ, id) {
      assert !Matches(list[i], k, typ, id);
    }
  }

  lemma FirstIsFound(list: seq<Component>, k: Kind, typ: string, id: string, i: nat)
    requires IsFirst(list, k, typ, id, i)
    ensures Find(list, k, typ, id) == i
  {
    var f := Find(list, k, typ, id);
    assert Matches(list[i], k, typ, id);
    assert Matches(list[f], k, typ, id) && IsIt(list[f], k, typ, id);
  }

  lemma StopsAt(m: Machine, k: Kind, typ: string, id: string, i: nat)
    requires i == Find(ListOf(m, k), k, typ, id) < |ListOf(m, k)|
    ensures StoppedAt(m, Stop(m, k, typ, id).machine, k, i, Stop(m, k, typ, id).outcome)
  {
  }

  lemma FoundIsStopped(m: Machine, k: Kind, typ: string, id: string, i: nat)
    requires i == Find(ListOf(m, k), k, typ, id) < |ListOf(m, k)|
    ensures ComponentStopped(m, Stop(m, k, typ, id).machine, k, typ, id, Stop(m, k, typ, id).outcome)
  {
    var list := ListOf(m, k);
    assert list[i] in list && IsIt(list[i], k, typ, id);
    StopsAt(m, k, typ, id, i);
    forall x: nat | IsFirst(list, k, typ, id, x) ensures x == i {
      FirstIsFound(list, k, typ, id, x);
    }
  }

  lemma StopIsStopped(m: Machine, k: Kind, typ: string, id: string)
    ensures ComponentStopped(m, Stop(m, k, typ, id).machine, k, typ, id, Stop(m, k, typ, id).outcome)
  {
    var i := Find(ListOf(m, k), k, typ, id);
    if i < |ListOf(m, k)| { FoundIsStopped(m, k, typ, id, i); } else { NothingToStop(m, k, typ, id); }
  }

  // ---------------------------------------------------------------- the object

  /** The machine with its slices and its route map; `order` is for observation only. */
  class MachineObject {
    var adaptors: seq<string>
    var drivers: seq<Component>
    var controllers: seq<Component>
    var routes: Routes
    var closed: set<QRef>
    var serial: nat
    ghost var order: seq<Component>

    ghost function State(): Machine
      reads this
    {
      Machine(adaptors, drivers, controllers, routes, closed, serial, order)
    }

    constructor ()
      ensures State() == NEW_MACHINE
    {
      adaptors, drivers, controllers, routes, closed, serial, order := [], [], [], map[], {}, 0, [];
    }

    method LookupType(list: seq<Component>, typ: string) returns (found: bool)
      ensures found == HasType(list, typ)
    {
      for i := 0 to |list|
        invariant forall j :: 0 <= j < i ==> list[j].conf.typ != typ
      {
        if list[i].conf.typ == typ {
          return true;
        }
      }
      return false;
    }

    method AddSubscriptions(names: seq<string>, q: QRef) returns (r: Outcome)
      modifies this`routes
      ensures (routes, r) == SubscribeAll(old(routes), names, q)
    {
      ghost var before := routes;
      for i := 0 to |names|
        invariant SubscribeAll(before, names, q) == SubscribeAll(routes, names[i..], q)
      {
        if names[i] !in MESSAGE_TYPE_VALUE {
          return Err("message type not found");
        }
        var t := MESSAGE_TYPE_VALUE[names[i]];
        var list := SetFor(routes, t);
        routes := routes[t := Subscribed(list, q)];
        assert names[i..][1..] == names[i + 1..];
      }
      return Ok;
    }

    method RemoveSubscriptions(names: seq<string>, id: string) returns (r: Outcome)
      modifies this`routes
      ensures (routes, r) == UnsubscribeAll(old(routes), names, id, closed)
    {
      ghost var before := routes;
      for i := 0 to |names|
        invariant UnsubscribeAll(before, names, id, closed) == UnsubscribeAll(routes, names[i..], id, closed)
      {
        if names[i] !in MESSAGE_TYPE_VALUE {
          return Err("message type not found");
        }
        var t := MESSAGE_TYPE_VALUE[names[i]];
        var list := SetFor(routes, t);
        var j := IndexOf(list, id);
        if j < |list| {
          if list[j] !in closed {
            return Err("queue must first be shutdown");
          }
          routes := routes[t := Unsubscribed(list, id)];
        }
        assert names[i..][1..] == names[i + 1..];
      }
      return Ok;
    }

    /** The body of the loop of a start. */
    method StartComponent(k: Kind, conf: Conf) returns (r: Outcome)
      modifies this
      ensures Result(State(), r) == StartOne(old(State()), k, conf)
      ensures if Refused(ConfsOf(ListOf(old(State()), k)), old(adaptors), k, conf) then r.Err? && State() == old(State())
              else StartedUpTo(old(State()), State(), k, [conf], 1) && (r.Ok? <==> KnownNames(conf))
    {
      StartOneEffect(State(), k, conf);
      var list := if k.Driver? then drivers else controllers;
      var running := LookupType(list, conf.typ);
      if running {
        return Err("already running");
      }
      if k.Driver? && conf.adaptorID !in adaptors {
        return Err("no adapter");
      }
      var q := QRef(conf.id, serial, Rcv);
      serial := serial + 1;
      if k.Driver? {
        drivers := drivers + [Component(conf, q)];
      } else {
        controllers := controllers + [Component(conf, q)];
      }
      order := order + [Component(conf, q)];
      r := AddSubscriptions(conf.subscriptions, q);
    }

    method StartComponents(k: Kind, confs: seq<Conf>) returns (r: Outcome)
      modifies this
      ensures Result(State(), r) == Start(old(State()), k, confs)
      ensures BatchStarted(old(State()), State(), k, confs, r) && (confs == [] ==> r.Err?)
    {
      StartEffect(State(), k, confs);
      if |confs| <= 0 {
        return Err("nothing specified");
      }
      ghost var before := State();
      for i := 0 to |confs|
        invariant StartAll(before, k, confs) == StartAll(State(), k, confs[i..])
      {
        r := StartComponent(k, confs[i]);
        if r.Err? {
          return r;
        }
        assert confs[i..][1..] == confs[i + 1..];
      }
      return Ok;
    }

    /** The body of stopDriver and stopController. */
    method StopMatching(k: Kind, typ: string, id: string) returns (r: Outcome)
      modifies this
      ensures Result(State(), r) == Stop(old(State()), k, typ, id)
    {
      var list := if k.Driver? then drivers else controllers;
      var i := Find(list, k, typ, id);
      if i == |list| {
        return Err("not found");
      }
      closed := closed + {list[i].rcvQ};
      r := RemoveSubscriptions(list[i].conf.subscriptions, list[i].conf.id);
      if r.Err? {
        return r;
      }
      Delete(k, i);
    }

    /** append(list[:i], list[i+1:]...) on the list of the kind. */
    method Delete(k: Kind, i: nat)
      requires i < |ListOf(State(), k)|
      modifies this`drivers, this`controllers, this`order
      ensures var list := ListOf(old(State()), k);
              State() == WithList(old(State()), k, list[..i] + list[i + 1..]).(order := Without(old(order), list[i]))
    {
      if k.Driver? {
        order, drivers := Without(order, drivers[i]), drivers[..i] + drivers[i + 1..];
      } else {
        order, controllers := Without(order, controllers[i]), controllers[..i] + controllers[i + 1..];
      }
    }

    method StopComponent(k: Kind, typ: string, id: string) returns (r: Outcome)
      modifies this
      ensures Result(State(), r) == Stop(old(State()), k, typ, id)
      ensures ComponentStopped(old(State()), State(), k, typ, id, r)
    {
      StopIsStopped(State(), k, typ, id);
      r := StopMatching(k, typ, id);
    }
  }

  // ---------------------------------------------------------------- lists and routes agree

  predicate Wants(c: Component, t: MessageType) {
    exists name :: name in c.conf.subscriptions && name in MESSAGE_TYPE_VALUE && MESSAGE_TYPE_VALUE[name] == t
  }

  /** The receive queues of the components that want `t`, in the order of `cs`. */
  function QueuesOf(cs: seq<Component>, t: MessageType): seq<QRef> {
    if cs == [] then [] else
    QueuesOf(cs[..|cs| - 1], t) + if Wants(cs[|cs| - 1], t) then [cs[|cs| - 1].rcvQ] else []
  }

  ghost predicate DistinctConfIds(cs: seq<Component>) {
    forall i, j :: 0 <= i < j < |cs| ==> cs[i].conf.id != cs[j].conf.id
  }

  ghost predicate DistinctTypes(cs: seq<Component>) {
    forall i, j :: 0 <= i < j < |cs| ==> cs[i].conf.typ != cs[j].conf.typ
  }

  /** For each message type, the route list is exactly the running subscribers' queues, in start order. */
  ghost predicate Agree(m: Machine) {
    && (forall t {:trigger SetFor(m.routes, t)} :: SetFor(m.routes, t) == QueuesOf(m.order, t))
    && (forall c {:trigger c in m.order} :: c in m.order <==> c in m.drivers || c in m.controllers)
    && DistinctConfIds(m.order) && DistinctConfIds(m.drivers) && DistinctConfIds(m.controllers)
    && (forall c :: c in m.order ==> KnownNames(c.conf) && c.rcvQ.id == c.conf.id)
    && (forall c :: c in m.drivers ==> c !in m.controllers)
    && DistinctTypes(m.drivers) && DistinctTypes(m.controllers)
  }

  /** The ID is not in use. */
  ghost predicate FreshId(m: Machine, id: string) {
    forall c :: c in m.order ==> c.conf.id != id
  }

  predicate WantedBy(names: seq<string>, t: MessageType) {
    exists name :: name in names && name in MESSAGE_TYPE_VALUE && MESSAGE_TYPE_VALUE[name] == t
  }

  lemma WantedByHead(names: seq<string>, t: MessageType)
    requires names != [] && names[0] in MESSAGE_TYPE_VALUE
    ensures WantedBy(names, t) <==> MESSAGE_TYPE_VALUE[names[0]] == t || WantedBy(names[1..], t)
  {
    assert names[0] in names && forall n :: n in names <==> n == names[0] || n in names[1..];
  }

  lemma SubscribedTwice(list: seq<QRef>, q: QRef)
    ensures Subscribed(Subscribed(list, q), q) == Subscribed(list, q)
    ensures (forall r :: r in list ==> r.id != q.id) ==> Subscribed(list, q) == list + [q]
  {
    var i := IndexOf(list, q.id);
    if i == |list| { assert (list + [q])[|list|].id == q.id; }
  }

  /** The queue is added to the lists of exactly the types named; naming one twice makes no difference. */
  lemma {:induction false} SubscribeAllEffect(routes: Routes, names: seq<string>, q: QRef, t: MessageType)
    requires forall n :: n in names ==> n in MESSAGE_TYPE_VALUE
    ensures var (after, outcome) := SubscribeAll(routes, names, q);
            outcome == Ok && SetFor(after, t) == if WantedBy(names, t) then Subscribed(SetFor(routes, t), q) else SetFor(routes, t)
    decreases names
  {
    if names != [] {
      assert names[0] in names;
      var u := MESSAGE_TYPE_VALUE[names[0]];
      WantedByHead(names, t);
      SubscribedTwice(SetFor(routes, u), q);
      SubscribeAllEffect(routes[u := Subscribed(SetFor(routes, u), q)], names[1..], q, t);
    }
  }

  /** Every entry with this ID may be removed: its queue has been shut down. */
  ghost predicate Removable(routes: Routes, id: string, closed: set<QRef>) {
    forall t, r {:trigger r in SetFor(routes, t)} :: r in SetFor(routes, t) && r.id == id ==> r in closed
  }

  ghost predicate AllDistinct(routes: Routes) {
    forall t {:trigger SetFor(routes, t)} :: DistinctNames(SetFor(routes, t))
  }

  lemma UnsubscribedTwice(list: seq<QRef>, id: string)
    requires DistinctNames(list)
    ensures Unsubscribed(Unsubscribed(list, id), id) == Unsubscribed(list, id)
  {
    UnsubscribedDistinct(list, id);
    assert IndexOf(Unsubscribed(list, id), id) == |Unsubscribed(list, id)|;
  }

  lemma RemovableStep(routes: Routes, u: MessageType, id: string, closed: set<QRef>)
    requires AllDistinct(routes) && Removable(routes, id, closed)
    ensures var routes' := routes[u := Unsubscribed(SetFor(routes, u), id)];
            AllDistinct(routes') && Removable(routes', id, closed)
  {
    var routes' := routes[u := Unsubscribed(SetFor(routes, u), id)];
    UnsubscribedDistinct(SetFor(routes, u), id);
    forall t ensures DistinctNames(SetFor(routes', t)) && forall r :: r in SetFor(routes', t) ==> r in SetFor(routes, t) {
      assert t != u ==> SetFor(routes', t) == SetFor(routes, t);
    }
  }

  /** The ID leaves the lists of exactly the types named. */
  lemma {:induction false} UnsubscribeAllEffect(routes: Routes, names: seq<string>, id: string, closed: set<QRef>, t: MessageType)
    requires forall n :: n in names ==> n in MESSAGE_TYPE_VALUE
    requires AllDistinct(routes) && Removable(routes, id, closed)
    ensures var (after, outcome) := UnsubscribeAll(routes, names, id, closed);
            outcome == Ok && SetFor(after, t) == if WantedBy(names, t) then Unsubscribed(SetFor(routes, t), id) else SetFor(routes, t)
    decreases names
  {
    if names != [] {
      assert names[0] in names;
      var u := MESSAGE_TYPE_VALUE[names[0]];
      var list := SetFor(routes, u);
      var i := IndexOf(list, id);
      assert i < |list| ==> list[i] in list;
      WantedByHead(names, t);
      UnsubscribedTwice(list, id);
      RemovableStep(routes, u, id, closed);
      UnsubscribeAllEffect(if i < |list| then routes[u := Unsubscribed(list, id)] else routes, names[1..], id, closed, t);
    }
  }

  lemma {:induction false} QueuesOfMembers(cs: seq<Component>, t: MessageType)
    ensures forall r :: r in QueuesOf(cs, t) ==> exists c :: c in cs && Wants(c, t) && c.rcvQ == r
  {
    if cs != [] {
      var init, last := cs[..|cs| - 1], cs[|cs| - 1];
      QueuesOfMembers(init, t);
      assert last in cs && forall c :: c in init ==> c in cs;
    }
  }

  ghost predicate NamedById(cs: seq<Component>) {
    forall c :: c in cs ==> c.rcvQ.id == c.conf.id
  }

  lemma {:induction false} QueuesOfDistinct(cs: seq<Component>, t: MessageType)
    requires DistinctConfIds(cs) && NamedById(cs)
    ensures DistinctNames(QueuesOf(cs, t))
  {
    if cs != [] {
      var init, last := cs[..|cs| - 1], cs[|cs| - 1];
      assert last in cs && forall c :: c in init ==> c in cs;
      QueuesOfDistinct(init, t);
      QueuesOfMembers(init, t);
      assert forall r :: r in QueuesOf(init, t) ==> r.id != last.conf.id;
    }
  }

  /** Removing an ID from a route list, entry by entry. */
  function Drop(list: seq<QRef>, id: string): seq<QRef> {
    if list == [] then [] else
    Drop(list[..|list| - 1], id) + if list[|list| - 1].id == id then [] else [list[|list| - 1]]
  }

  lemma DropSnoc(init: seq<QRef>, x: QRef, id: string)
    ensures Drop(init + [x], id) == Drop(init, id) + if x.id == id then [] else [x]
  {
    assert (init + [x])[..|init|] == init;
  }

  lemma {:induction false} DropAbsent(list: seq<QRef>, id: string)
    requires forall r :: r in list ==> r.id != id
    ensures Drop(list, id) == list
  {
    if list != [] {
      var init, x := list[..|list| - 1], list[|list| - 1];
      assert list == init + [x] && x in list;
      DropAbsent(init, id);
      DropSnoc(init, x, id);
    }
  }

  lemma IndexOfSnoc(init: seq<QRef>, x: QRef, id: string)
    ensures var j := IndexOf(init, id);
            IndexOf(init + [x], id) == if j < |init| then j else if x.id == id then |init| else |init| + 1
  {
    var list := init + [x];
    assert forall k :: 0 <= k < |init| ==> list[k] == init[k];
    assert list[|init|] == x;
  }

  lemma UnsubscribedSnocFound(init: seq<QRef>, x: QRef, id: string, j: nat)
    requires DistinctNames(init + [x]) && j == IndexOf(init, id) < |init|
    ensures x.id != id && Unsubscribed(init + [x], id) == Unsubscribed(init, id) + [x]
  {
    IndexOfSnoc(init, x, id);
    assert (init + [x])[j].id != (init + [x])[|init|].id;
    CutSnoc(init, x, j);
  }

  lemma UnsubscribedSnocAbsent(init: seq<QRef>, x: QRef, id: string)
    requires IndexOf(init, id) == |init|
    ensures Unsubscribed(init + [x], id) == Unsubscribed(init, id) + if x.id == id then [] else [x]
  {
    IndexOfSnoc(init, x, id);
    if x.id == id { CutLast(init, x); }
  }

  lemma CutSnoc(init: seq<QRef>, x: QRef, j: nat)
    requires j < |init|
    ensures (init + [x])[..j] + (init + [x])[j + 1..] == init[..j] + init[j + 1..] + [x]
    ensures (init + [x])[j] == init[j]
  {
  }

  lemma CutLast(init: seq<QRef>, x: QRef)
    ensures (init + [x])[..|init|] + (init + [x])[|init| + 1..] == init + []
  {
  }

  lemma {:induction false} UnsubscribedIsDrop(list: seq<QRef>, id: string)
    requires DistinctNames(list)
    ensures Unsubscribed(list, id) == Drop(list, id)
  {
    if list != [] {
      var init, x := list[..|list| - 1], list[|list| - 1];
      assert list == init + [x];
      UnsubscribedIsDrop(init, id);
      DropSnoc(init, x, id);
      if IndexOf(init, id) < |init| {
        UnsubscribedSnocFound(init, x, id, IndexOf(init, id));
      } else {
        UnsubscribedSnocAbsent(init, x, id);
      }
    }
  }

  lemma {:induction false} WithoutMembers(cs: seq<Component>, c: Component)
    ensures forall x :: x in Without(cs, c) <==> x in cs && x != c
  {
    if cs != [] {
      WithoutMembers(cs[..|cs| - 1], c);
      assert forall x :: x in cs <==> x in cs[..|cs| - 1] || x == cs[|cs| - 1];
    }
  }

  lemma {:induction false} WithoutDistinct(cs: seq<Component>, c: Component)
    requires DistinctConfIds(cs)
    ensures DistinctConfIds(Without(cs, c))
  {
    if cs != [] {
      var init := cs[..|cs| - 1];
      WithoutDistinct(init, c);
      WithoutMembers(init, c);
      assert forall x :: x in init ==> x.conf.id != cs[|cs| - 1].conf.id;
    }
  }

  /** Taking a component out of the start order takes its queue out of every list. */
  lemma {:induction false} QueuesOfWithout(cs: seq<Component>, c: Component, t: MessageType)
    requires DistinctConfIds(cs) && NamedById(cs) && (forall x :: x in cs && x.conf.id == c.conf.id ==> x == c)
    ensures QueuesOf(Without(cs, c), t) == Drop(QueuesOf(cs, t), c.conf.id)
  {
    if cs != [] {
      var init, last := cs[..|cs| - 1], cs[|cs| - 1];
      assert last in cs && forall x :: x in init ==> x in cs;
      QueuesOfWithout(init, c, t);
      var a, b := QueuesOf(init, t), QueuesOf(cs, t);
      assert last.rcvQ.id == c.conf.id <==> last == c;
      assert if Wants(last, t) then b == a + [last.rcvQ] && b[..|b| - 1] == a else b == a + [] == a;
      if last != c {
        var w := Without(init, c) + [last];
        assert w[..|w| - 1] == Without(init, c);
      } else {
        assert Without(cs, c) == Without(init, c) + [] == Without(init, c);
        assert Drop(a, c.conf.id) + [] == Drop(a, c.conf.id);
      }
    }
  }

  // ---------------------------------------------------------------- steps and runs

  lemma StartedRoutes(m: Machine, c: Component, t: MessageType)
    requires Agree(m) && FreshId(m, c.conf.id) && KnownNames(c.conf) && c.rcvQ.id == c.conf.id
    ensures var (routes, outcome) := SubscribeAll(m.routes, c.conf.subscriptions, c.rcvQ);
            outcome == Ok && SetFor(routes, t) == QueuesOf(m.order + [c], t)
  {
    SubscribeAllEffect(m.routes, c.conf.subscriptions, c.rcvQ, t);
    QueuesOfMembers(m.order, t);
    assert SetFor(m.routes, t) == QueuesOf(m.order, t);
    SubscribedTwice(QueuesOf(m.order, t), c.rcvQ);
    assert (m.order + [c])[..|m.order|] == m.order;
    assert QueuesOf(m.order, t) + [] == QueuesOf(m.order, t);
  }

  lemma AppendKeeps(list: seq<Component>, c: Component)
    ensures forall x :: x in list + [c] <==> x in list || x == c
    ensures DistinctConfIds(list) && (forall x :: x in list ==> x.conf.id != c.conf.id) ==> DistinctConfIds(list + [c])
    ensures DistinctTypes(list) && !HasType(list, c.conf.typ) ==> DistinctTypes(list + [c])
  {
    assert forall i :: 0 <= i < |list| ==> list[i] in list;
  }

  lemma StartOneAgrees(m: Machine, k: Kind, conf: Conf)
    requires Agree(m) && FreshId(m, conf.id) && KnownNames(conf)
    ensures var r := StartOne(m, k, conf);
            && Agree(r.machine) && (r.outcome.Err? ==> r.machine == m)
            && (r.outcome.Ok? <==> !HasType(ListOf(m, k), conf.typ) && (k.Driver? ==> conf.adaptorID in m.adaptors))
  {
    if !HasType(ListOf(m, k), conf.typ) && (k.Driver? ==> conf.adaptorID in m.adaptors) {
      var c := Component(conf, QRef(conf.id, m.serial, Rcv));
      var m' := StartOne(m, k, conf).machine;
      forall t ensures SetFor(m'.routes, t) == QueuesOf(m'.order, t) { StartedRoutes(m, c, t); }
      StartedRoutes(m, c, MessageType(0));
      assert forall x :: x in ListOf(m, k) ==> x in m.order;
      AppendKeeps(ListOf(m, k), c);
      AppendKeeps(m.order, c);
    }
  }

  lemma StoppedRoutes(m: Machine, c: Component, t: MessageType)
    requires Agree(m) && c in m.order
    ensures var (routes, outcome) := UnsubscribeAll(m.routes, c.conf.subscriptions, c.conf.id, m.closed + {c.rcvQ});
            outcome == Ok && SetFor(routes, t) == QueuesOf(Without(m.order, c), t)
  {
    var id, closed := c.conf.id, m.closed + {c.rcvQ};
    forall u ensures DistinctNames(SetFor(m.routes, u)) {
      QueuesOfDistinct(m.order, u);
    }
    OnlyOwnQueue(m, c);
    UnsubscribeAllEffect(m.routes, c.conf.subscriptions, id, closed, t);
    var list := SetFor(m.routes, t);
    UnsubscribedIsDrop(list, id);
    SameIdSame(m.order, c);
    QueuesOfWithout(m.order, c, t);
    if !WantedBy(c.conf.subscriptions, t) {
      QueuesOfMembers(m.order, t);
      DropAbsent(list, id);
    }
  }

  lemma SameIdSame(cs: seq<Component>, c: Component)
    requires DistinctConfIds(cs) && c in cs
    ensures forall x :: x in cs && x.conf.id == c.conf.id ==> x == c
  {
  }

  lemma OnlyOwnQueue(m: Machine, c: Component)
    requires Agree(m) && c in m.order
    ensures Removable(m.routes, c.conf.id, m.closed + {c.rcvQ})
  {
    SameIdSame(m.order, c);
    forall t, r | r in SetFor(m.routes, t) && r.id == c.conf.id ensures r == c.rcvQ {
      QueuesOfMembers(m.order, t);
      assert SetFor(m.routes, t) == QueuesOf(m.order, t);
    }
  }

  lemma RemoveAt(list: seq<Component>, i: nat)
    requires i < |list| && DistinctConfIds(list)
    ensures var rest := list[..i] + list[i + 1..];
            && DistinctConfIds(rest) && (DistinctTypes(list) ==> DistinctTypes(rest))
            && forall x :: x in rest <==> x in list && x != list[i]
  {
    var rest := list[..i] + list[i + 1..];
    assert forall j :: 0 <= j < |rest| ==> rest[j] == list[if j < i then j else j + 1];
    forall x | x in list && x != list[i] ensures x in rest {
      var j :| 0 <= j < |list| && list[j] == x;
      assert rest[if j < i then j else j - 1] == x;
    }
  }

  /** A stop that finds its component and is not refused. */
  lemma StopShape(m: Machine, k: Kind, typ: string, id: string, i: nat, c: Component)
    requires i == Find(ListOf(m, k), k, typ, id) < |ListOf(m, k)| && c == ListOf(m, k)[i]
    requires UnsubscribeAll(m.routes, c.conf.subscriptions, c.conf.id, m.closed + {c.rcvQ}).1.Ok?
    ensures var list, r := ListOf(m, k), Stop(m, k, typ, id);
            && r.outcome.Ok? && r.machine.order == Without(m.order, c)
            && r.machine == WithList(m, k, list[..i] + list[i + 1..])
                            .(routes := r.machine.routes, closed := r.machine.closed, order := r.machine.order)
            && r.machine.routes == UnsubscribeAll(m.routes, c.conf.subscriptions, c.conf.id, m.closed + {c.rcvQ}).0
  {
  }

  /** What a stop that finds its component leaves. */
  lemma StopEffect(m: Machine, k: Kind, typ: string, id: string, i: nat)
    requires Agree(m) && i == Find(ListOf(m, k), k, typ, id) < |ListOf(m, k)|
    ensures var list, r := ListOf(m, k), Stop(m, k, typ, id);
            && r.outcome.Ok? && r.machine.order == Without(m.order, list[i])
            && r.machine == WithList(m, k, list[..i] + list[i + 1..])
                            .(routes := r.machine.routes, closed := r.machine.closed, order := r.machine.order)
            && forall t {:trigger SetFor(r.machine.routes, t)} :: SetFor(r.machine.routes, t) == QueuesOf(r.machine.order, t)
  {
    var c, m' := ListOf(m, k)[i], Stop(m, k, typ, id).machine;
    assert c in ListOf(m, k);
    StoppedRoutes(m, c, MessageType(0));
    StopShape(m, k, typ, id, i, c);
    forall t ensures SetFor(m'.routes, t) == QueuesOf(m'.order, t) { StoppedRoutes(m, c, t); }
  }

  lemma StopAgrees(m: Machine, k: Kind, typ: string, id: string)
    requires Agree(m)
    ensures var r := Stop(m, k, typ, id);
            && Agree(r.machine) && (r.outcome.Err? ==> r.machine == m)
            && (r.outcome.Ok? <==> exists c :: c in ListOf(m, k) && Matches(c, k, typ, id))
  {
    var list := ListOf(m, k);
    var i := Find(list, k, typ, id);
    if i < |list| {
      assert list[i] in list;
      StopEffect(m, k, typ, id, i);
      WithoutMembers(m.order, list[i]);
      WithoutDistinct(m.order, list[i]);
      RemoveAt(list, i);
    }
  }

  /** A component with a new ID is found where it was appended. */
  lemma FoundAtTheEnd(list: seq<Component>, k: Kind, c: Component)
    requires forall x :: x in list ==> x.conf.id != c.conf.id
    ensures Find(list + [c], k, c.conf.typ, c.conf.id) == |list|
    ensures (list + [c])[..|list|] + (list + [c])[|list| + 1..] == list
  {
    var all := list + [c];
    var i := Find(all, k, c.conf.typ, c.conf.id);
    assert forall j :: 0 <= j < |list| ==> all[j] == list[j] && list[j] in list;
    assert all[|list|] == c && Matches(c, k, c.conf.typ, c.conf.id);
  }

  /** Stopping the component that was started last. */
  lemma StopLast(m: Machine, s: Machine, k: Kind, c: Component)
    requires Agree(s) && FreshId(m, c.conf.id) && s.order == m.order + [c] && (forall x :: x in ListOf(m, k) ==> x in m.order)
    requires s.drivers == (if k.Driver? then m.drivers + [c] else m.drivers)
    requires s.controllers == (if k.Driver? then m.controllers else m.controllers + [c])
    ensures var r := Stop(s, k, c.conf.typ, c.conf.id);
            && r.outcome.Ok? && r.machine.drivers == m.drivers && r.machine.controllers == m.controllers
            && r.machine.order == m.order
            && forall t {:trigger SetFor(r.machine.routes, t)} :: SetFor(r.machine.routes, t) == QueuesOf(m.order, t)
  {
    FoundAtTheEnd(ListOf(m, k), k, c);
    StopEffect(s, k, c.conf.typ, c.conf.id, |ListOf(m, k)|);
    WithoutLast(m.order, c);
  }

  /** What the routes are is observed list by list: an empty list and no list are the same. */
  ghost predicate SameComponentsAndRoutes(a: Machine, b: Machine) {
    && a.drivers == b.drivers && a.controllers == b.controllers && a.order == b.order
    && forall t {:trigger SetFor(a.routes, t)} :: SetFor(a.routes, t) == SetFor(b.routes, t)
  }

  /** Starting a component and stopping it again gives back every route list and both component lists. */
  lemma StopRestoresRoutes(m: Machine, s: Machine, k: Kind, conf: Conf)
    requires Agree(m) && FreshId(m, conf.id) && KnownNames(conf) && StartOne(m, k, conf) == Result(s, Ok)
    ensures Stop(s, k, conf.typ, conf.id).outcome.Ok?
    ensures SameComponentsAndRoutes(Stop(s, k, conf.typ, conf.id).machine, m)
  {
    StartOneAgrees(m, k, conf);
    StopLast(m, s, k, Component(conf, QRef(conf.id, m.serial, Rcv)));
  }

  lemma WithoutLast(cs: seq<Component>, c: Component)
    requires c !in cs
    ensures Without(cs + [c], c) == cs
  {
    WithoutAbsent(cs, c);
    assert (cs + [c])[..|cs|] == cs && cs + [] == cs;
  }

  lemma {:induction false} WithoutAbsent(cs: seq<Component>, c: Component)
    requires c !in cs
    ensures Without(cs, c) == cs
  {
    if cs != [] { WithoutAbsent(cs[..|cs| - 1], c); }
  }

  datatype Event =
    | Attach(adaptorID: string)
    | StartEvent(k: Kind, confs: seq<Conf>)
    | StopEvent(k: Kind, typ: string, id: string)

  function Step(m: Machine, e: Event): Machine {
    match e
    case Attach(a) => m.(adaptors := m.adaptors + [a])
    case StartEvent(k, confs) => Start(m, k, confs).machine
    case StopEvent(k, typ, id) => Stop(m, k, typ, id).machine
  }

  function Run(m: Machine, es: seq<Event>): Machine {
    if es == [] then m else Step(Run(m, es[..|es| - 1]), es[|es| - 1])
  }

  /** An adaptor that was attached is there for a driver to start with. */
  lemma AttachedCanStart(m: Machine, a: string, conf: Conf)
    requires conf.adaptorID == a && KnownNames(conf) && forall c :: c in m.drivers ==> c.conf.typ != conf.typ
    ensures StartOne(Step(m, Attach(a)), Driver, conf).outcome.Ok?
  {
    SubscribeOkIff(m.routes, conf.subscriptions, QRef(conf.id, m.serial, Rcv));
    assert forall i :: 0 <= i < |m.drivers| ==> m.drivers[i] in m.drivers;
  }

  /** What is asked of the configurations of a start: IDs not in use, and names of the enum. */
  ghost predicate GoodConfs(m: Machine, k: Kind, confs: seq<Conf>)
    decreases confs
  {
    confs != [] ==>
      && FreshId(m, confs[0].id) && KnownNames(confs[0])
      && (StartOne(m, k, confs[0]).outcome.Ok? ==> GoodConfs(StartOne(m, k, confs[0]).machine, k, confs[1..]))
  }

  ghost predicate GoodRun(m: Machine, es: seq<Event>) {
    forall i :: 0 <= i < |es| && es[i].StartEvent? ==> GoodConfs(Run(m, es[..i]), es[i].k, es[i].confs)
  }

  lemma {:induction false} StartAllAgrees(m: Machine, k: Kind, confs: seq<Conf>)
    requires Agree(m) && GoodConfs(m, k, confs)
    ensures Agree(StartAll(m, k, confs).machine)
    decreases confs
  {
    if confs != [] {
      StartOneAgrees(m, k, confs[0]);
      if StartOne(m, k, confs[0]).outcome.Ok? { StartAllAgrees(StartOne(m, k, confs[0]).machine, k, confs[1..]); }
    }
  }

  lemma {:induction false} AgreesAlways(m: Machine, es: seq<Event>)
    requires Agree(m) && GoodRun(m, es)
    ensures Agree(Run(m, es))
  {
    if es != [] {
      var init, e := es[..|es| - 1], es[|es| - 1];
      assert forall i :: 0 <= i < |es| ==> init[..i] == es[..i];
      assert es[..|init|] == init;
      AgreesAlways(m, init);
      var u := Run(m, init);
      match e
      case Attach(a) => assert forall t :: SetFor(Run(m, es).routes, t) == SetFor(u.routes, t);
      case StartEvent(k, confs) => StartAllAgrees(u, k, confs);
      case StopEvent(k, typ, id) => StopAgrees(u, k, typ, id);
    }
  }

  /**
   Over every run of starts, stops and attachments, also of those that answer with an error, each
   route list is exactly the queues of the running components that subscribed to its type.
   */
  lemma ListsAndRoutesAgree(es: seq<Event>)
    requires GoodRun(NEW_MACHINE, es)
    ensures Agree(Run(NEW_MACHINE, es))
  {
    AgreesAlways(NEW_MACHINE, es);
  }

  // ---------------------------------------------------------------- stopping what was started

  /** The event stops nothing that runs in `m`. */
  ghost predicate Spares(m: Machine, e: Event) {
    e.StopEvent? ==> forall c :: c in ListOf(m, e.k) ==> !Matches(c, e.k, e.typ, e.id)
  }

  /** What runs in `m` still runs, before everything that was started since. */
  ghost predicate Extends(m: Machine, u: Machine) {
    m.drivers <= u.drivers && m.controllers <= u.controllers && m.order <= u.order
  }

  lemma {:induction false} WithoutAppend(a: seq<Component>, b: seq<Component>, c: Component)
    requires c !in a
    ensures Without(a + b, c) == a + Without(b, c)
  {
    if b == [] {
      assert a + b == a;
      WithoutAbsent(a, c);
    } else {
      WithoutAppend(a, b[..|b| - 1], c);
      assert (a + b)[..|a + b| - 1] == a + b[..|b| - 1];
    }
  }

  lemma {:induction false} StartAllExtends(m: Machine, u: Machine, k: Kind, confs: seq<Conf>)
    requires Extends(m, u)
    ensures Extends(m, StartAll(u, k, confs).machine)
    decreases |confs|
  {
    if confs != [] && StartOne(u, k, confs[0]).outcome.Ok? {
      StartAllExtends(m, StartOne(u, k, confs[0]).machine, k, confs[1..]);
    }
  }

  /** What a stop that spares `m` finds stands behind the components of `m` and is none of them. */
  lemma MatchIsNew(m: Machine, u: Machine, k: Kind, typ: string, id: string, i: nat)
    requires Agree(m) && Agree(u) && Extends(m, u) && Spares(m, StopEvent(k, typ, id))
    requires i < |ListOf(u, k)| && Matches(ListOf(u, k)[i], k, typ, id)
    ensures |ListOf(m, k)| <= i && ListOf(u, k)[i] !in m.order
  {
    var mine, all := ListOf(m, k), ListOf(u, k);
    forall j | 0 <= j < |mine| ensures !Matches(all[j], k, typ, id) {
      assert all[j] == mine[j] && mine[j] in mine;
    }
    var c := all[i];
    assert c in all;
    forall x | x in m.order ensures x != c {
      var other := if k.Driver? then Controller else Driver;
      assert x in mine || (x in ListOf(m, other) && x in ListOf(u, other));
    }
  }

  lemma CutBehind(a: seq<Component>, b: seq<Component>, i: nat)
    requires a <= b && |a| <= i < |b|
    ensures a <= b[..i] + b[i + 1..]
  {
  }

  lemma WithoutBehind(a: seq<Component>, b: seq<Component>, c: Component)
    requires a <= b && c !in a
    ensures a <= Without(b, c)
  {
    assert b == a + b[|a|..];
    WithoutAppend(a, b[|a|..], c);
  }

  lemma StopExtends(m: Machine, u: Machine, k: Kind, typ: string, id: string)
    requires Agree(m) && Agree(u) && Extends(m, u) && Spares(m, StopEvent(k, typ, id))
    ensures Extends(m, Stop(u, k, typ, id).machine)
  {
    var list := ListOf(u, k);
    var i := Find(list, k, typ, id);
    if i < |list| {
      MatchIsNew(m, u, k, typ, id, i);
      StopEffect(u, k, typ, id, i);
      CutBehind(ListOf(m, k), list, i);
      WithoutBehind(m.order, u.order, list[i]);
    }
  }

  lemma {:induction false} ExtendsAlways(m: Machine, es: seq<Event>)
    requires Agree(m) && GoodRun(m, es) && forall e :: e in es ==> Spares(m, e)
    ensures Extends(m, Run(m, es))
  {
    if es != [] {
      var init, e := es[..|es| - 1], es[|es| - 1];
      assert forall i :: 0 <= i < |es| ==> init[..i] == es[..i];
      assert es[..|init|] == init && e in es && forall f :: f in init ==> f in es;
      ExtendsAlways(m, init);
      AgreesAlways(m, init);
      match e
      case Attach(a) =>
      case StartEvent(k, confs) => StartAllExtends(m, Run(m, init), k, confs);
      case StopEvent(k, typ, id) => StopExtends(m, Run(m, init), k, typ, id);
    }
  }

  /** A list with distinct IDs that goes on longer has something new. */
  lemma SameOrMore(old_: seq<Component>, all: seq<Component>)
    requires old_ <= all && DistinctConfIds(all)
    ensures all == old_ || exists c :: c in all && c !in old_
  {
    if |old_| < |all| {
      var c := all[|old_|];
      assert c in all;
      forall x | x in old_ ensures x != c {
        var i :| 0 <= i < |old_| && old_[i] == x;
        assert all[i] == x;
      }
    }
  }

  /** Only the components of `m` run in `u`. */
  ghost predicate NothingAdded(m: Machine, u: Machine) {
    forall c :: c in u.order ==> c in m.order
  }

  lemma SameComponents(m: Machine, u: Machine)
    requires Agree(m) && Agree(u) && Extends(m, u) && NothingAdded(m, u)
    ensures SameComponentsAndRoutes(u, m)
  {
    SameOrMore(m.order, u.order);
    forall c | c in u.drivers ensures c in m.drivers { assert c in m.order; }
    forall c | c in u.controllers ensures c in m.controllers { assert c in m.order; }
    SameOrMore(m.drivers, u.drivers);
    SameOrMore(m.controllers, u.controllers);
    forall t ensures SetFor(u.routes, t) == SetFor(m.routes, t) {
      assert SetFor(u.routes, t) == QueuesOf(u.order, t) && SetFor(m.routes, t) == QueuesOf(m.order, t);
    }
  }

  /**
   Stopping what was started restores the machine: after any run of starts, stops, failed calls and
   attachments, in any order, that stops nothing of what ran before, both component lists and every
   route list are the previous ones exactly when nothing that was started since is still running.
   */
  lemma StoppingRestoresIff(m: Machine, es: seq<Event>)
    requires Agree(m) && GoodRun(m, es) && forall e :: e in es ==> Spares(m, e)
    ensures SameComponentsAndRoutes(Run(m, es), m) <==> NothingAdded(m, Run(m, es))
  {
    AgreesAlways(m, es);
    ExtendsAlways(m, es);
    if NothingAdded(m, Run(m, es)) { SameComponents(m, Run(m, es)); }
  }
}
