/**
 The deduplicating work queue: its state, its critical sections as functions, and what holds over
 every run of calls, whoever makes them and however they interleave.
 */
module WorkQueue {
  import opened Messages

  /** `id` is the identifier of some queued message. */
  ghost predicate Queued(queue: seq<Message>, id: MessageID) {
    exists m :: m in queue && m.id == id
  }

  ghost predicate DistinctIDs(s: seq<Message>) {
    forall i, j :: 0 <= i < j < |s| ==> s[i].id != s[j].id
  }

  /** The fields guarded by the queue's condition variable. */
  datatype QState = QState(
    queue: seq<Message>,
    dirty: set<MessageID>,
    processing: set<MessageID>,
    shuttingdown: bool)
  {
    /** Does this Add put its message at the end of the queue (and signal)? */
    predicate AddAppends(m: Message) {
      !shuttingdown && m.id !in dirty && m.id !in processing
    }

    function Add(m: Message): QState {
      if shuttingdown || m.id in dirty then this
      else this.(dirty := dirty + {m.id}, queue := if m.id in processing then queue else queue + [m])
    }

    /** The critical section of a Get that finds a message. */
    function Take(): QState
      requires queue != []
    {
      this.(queue := queue[1..], processing := processing + {queue[0].id}, dirty := dirty - {queue[0].id})
    }

    /** Done as written: the dirty mark is cleared before the message is appended again. */
    function Done(m: Message): QState {
      this.(processing := processing - {m.id},
            dirty := dirty - {m.id},
            queue := if m.id in dirty then queue + [m] else queue)
    }

    /** Done as the package comment intends: the dirty mark stays while the message is queued. */
    function DoneKeepingMark(m: Message): QState {
      this.(processing := processing - {m.id}, queue := if m.id in dirty then queue + [m] else queue)
    }

    function ShutDown(): QState {
      this.(shuttingdown := true)
    }
  }

  const NEW_QUEUE := QState([], {}, {}, false)

  /** A call of the queue's interface, by any goroutine. */
  datatype Call = CallAdd(m: Message) | CallGet | CallDone(m: Message) | CallShutDown

  /** A Get that finds nothing blocks or reports the shutdown; either way the fields do not change. */
  function After(q: QState, c: Call): QState {
    match c
    case CallAdd(m) => q.Add(m)
    case CallGet => if q.queue == [] then q else q.Take()
    case CallDone(m) => q.Done(m)
    case CallShutDown => q.ShutDown()
  }

  function Run(q: QState, cs: seq<Call>): QState {
    if cs == [] then q else After(Run(q, cs[..|cs| - 1]), cs[|cs| - 1])
  }

  lemma RunNone(q: QState)
    ensures Run(q, []) == q
  {
  }

  lemma RunOne(q: QState, c: Call)
    ensures Run(q, [c]) == After(q, c)
  {
    assert [c][..0] == [];
  }

  lemma RunTwo(q: QState, c: Call, d: Call)
    ensures Run(q, [c, d]) == After(After(q, c), d)
  {
    assert [c, d][..1] == [c];
    RunOne(q, c);
  }

  lemma {:induction false} RunAppend(q: QState, a: seq<Call>, b: seq<Call>)
    ensures Run(q, a + b) == Run(Run(q, a), b)
  {
    if b == [] {
      assert a + b == a;
    } else {
      RunAppend(q, a, b[..|b| - 1]);
      assert (a + b)[..|a + b| - 1] == a + b[..|b| - 1];
    }
  }

  /** What a call puts at the end of the queue, what it returns, and what it was allowed to add. */
  function AppendedBy(q: QState, c: Call): seq<Message> {
    match c
    case CallAdd(m) => if q.AddAppends(m) then [m] else []
    case CallDone(m) => if m.id in q.dirty then [m] else []
    case _ => []
  }

  function ReturnedBy(q: QState, c: Call): seq<Message> {
    if c.CallGet? && q.queue != [] then [q.queue[0]] else []
  }

  function AcceptedBy(q: QState, c: Call): seq<Message> {
    if c.CallAdd? && !q.shuttingdown then [c.m] else []
  }

  /** The three histories of a run, oldest first. */
  function Appended(q: QState, cs: seq<Call>): seq<Message> {
    if cs == [] then []
    else Appended(q, cs[..|cs| - 1]) + AppendedBy(Run(q, cs[..|cs| - 1]), cs[|cs| - 1])
  }

  function Returned(q: QState, cs: seq<Call>): seq<Message> {
    if cs == [] then []
    else Returned(q, cs[..|cs| - 1]) + ReturnedBy(Run(q, cs[..|cs| - 1]), cs[|cs| - 1])
  }

  function Accepted(q: QState, cs: seq<Call>): seq<Message> {
    if cs == [] then []
    else Accepted(q, cs[..|cs| - 1]) + AcceptedBy(Run(q, cs[..|cs| - 1]), cs[|cs| - 1])
  }

  // ---------------------------------------------------------------- FIFO

  lemma FifoStep(q: QState, c: Call)
    ensures q.queue + AppendedBy(q, c) == ReturnedBy(q, c) + After(q, c).queue
  {
  }

  lemma Regroup(a: seq<Message>, b: seq<Message>, r: seq<Message>, q: seq<Message>, x: seq<Message>, y: seq<Message>, z: seq<Message>)
    requires a + b == r + q && q + x == y + z
    ensures a + (b + x) == (r + y) + z
  {
    assert a + (b + x) == (a + b) + x;
    assert (r + q) + x == r + (q + x);
    assert r + (y + z) == (r + y) + z;
  }

  /** Fair: what Get returns, followed by what is still queued, is what was appended, in order. */
  lemma {:induction false} FifoRefinement(q: QState, cs: seq<Call>)
    ensures q.queue + Appended(q, cs) == Returned(q, cs) + Run(q, cs).queue
  {
    if cs != [] {
      var init, c := cs[..|cs| - 1], cs[|cs| - 1];
      var p := Run(q, init);
      FifoRefinement(q, init);
      FifoStep(p, c);
      Regroup(q.queue, Appended(q, init), Returned(q, init), p.queue, AppendedBy(p, c), ReturnedBy(p, c), After(p, c).queue);
    }
  }

  /** The shape of a queue whose messages all have different identifiers. */
  ghost predicate Tidy(q: QState, accepted: seq<Message>, taken: seq<Message>) {
    && accepted == taken + q.queue
    && DistinctIDs(accepted)
    && (forall id :: id in q.dirty ==> Queued(q.queue, id))
    && (forall id :: Queued(q.queue, id) ==> id in q.dirty)
    && (forall id :: id in q.processing ==> Queued(taken, id))
  }

  lemma TidyAdd(q: QState, accepted: seq<Message>, taken: seq<Message>, m: Message)
    requires Tidy(q, accepted, taken) && !q.shuttingdown && !Queued(accepted, m.id)
    ensures q.AddAppends(m) && q.Add(m).queue == q.queue + [m]
    ensures Tidy(q.Add(m), accepted + [m], taken)
  {
    assert forall i :: 0 <= i < |accepted| ==> accepted[i] in accepted;
    assert forall x :: x in taken || x in q.queue ==> x in accepted;
    assert accepted + [m] == taken + (q.queue + [m]);
    assert forall x :: x in q.queue + [m] <==> x in q.queue || x == m;
  }

  lemma TidyTake(q: QState, accepted: seq<Message>, taken: seq<Message>)
    requires Tidy(q, accepted, taken) && q.queue != []
    ensures Tidy(q.Take(), accepted, taken + [q.queue[0]])
  {
    var h, rest := q.queue[0], q.queue[1..];
    assert q.queue == [h] + rest;
    assert taken + [h] + rest == accepted;
    assert forall x :: x in q.queue <==> x == h || x in rest;
    assert forall x :: x in taken + [h] <==> x in taken || x == h;
    forall x | x in rest ensures x.id != h.id {
      var i :| 0 <= i < |rest| && rest[i] == x;
      assert accepted[|taken|] == h && accepted[|taken| + 1 + i] == x;
    }
  }

  lemma TidyDone(q: QState, accepted: seq<Message>, taken: seq<Message>, m: Message)
    requires Tidy(q, accepted, taken) && m in taken
    ensures m.id !in q.dirty && q.Done(m).queue == q.queue
    ensures Tidy(q.Done(m), accepted, taken)
  {
    var i :| 0 <= i < |taken| && taken[i] == m;
    forall x | x in q.queue ensures x.id != m.id {
      var j :| 0 <= j < |q.queue| && q.queue[j] == x;
      assert accepted[i] == m && accepted[|taken| + j] == x;
    }
  }

  /** Every Done of the run names a message that an earlier Get returned. */
  ghost predicate DoneAfterGet(q: QState, cs: seq<Call>) {
    forall i :: 0 <= i < |cs| && cs[i].CallDone? ==> cs[i].m in Returned(q, cs[..i])
  }

  lemma TidyStep(q: QState, accepted: seq<Message>, taken: seq<Message>, c: Call)
    requires Tidy(q, accepted, taken) && DistinctIDs(accepted + AcceptedBy(q, c))
    requires c.CallDone? ==> c.m in taken
    ensures Tidy(After(q, c), accepted + AcceptedBy(q, c), taken + ReturnedBy(q, c))
  {
    assert accepted + [] == accepted && taken + [] == taken;
    match c
    case CallAdd(m) =>
      if !q.shuttingdown {
        var all := accepted + [m];
        assert all[|accepted|] == m && forall i :: 0 <= i < |accepted| ==> all[i] == accepted[i];
        TidyAdd(q, accepted, taken, m);
      }
    case CallGet => if q.queue != [] { TidyTake(q, accepted, taken); }
    case CallDone(m) => TidyDone(q, accepted, taken, m);
    case CallShutDown =>
  }

  /** With pairwise distinct identifiers nothing accepted is dropped, repeated or reordered. */
  lemma {:induction false} DistinctAddsKeepOrder(cs: seq<Call>)
    requires DistinctIDs(Accepted(NEW_QUEUE, cs)) && DoneAfterGet(NEW_QUEUE, cs)
    ensures Accepted(NEW_QUEUE, cs) == Returned(NEW_QUEUE, cs) + Run(NEW_QUEUE, cs).queue
    ensures Tidy(Run(NEW_QUEUE, cs), Accepted(NEW_QUEUE, cs), Returned(NEW_QUEUE, cs))
  {
    if cs != [] {
      var init, c := cs[..|cs| - 1], cs[|cs| - 1];
      var acc, all := Accepted(NEW_QUEUE, init), Accepted(NEW_QUEUE, cs);
      assert forall i :: 0 <= i < |acc| ==> all[i] == acc[i];
      forall i | 0 <= i < |init| && init[i].CallDone? ensures init[i].m in Returned(NEW_QUEUE, init[..i]) {
        assert init[..i] == cs[..i];
      }
      DistinctAddsKeepOrder(init);
      TidyStep(Run(NEW_QUEUE, init), acc, Returned(NEW_QUEUE, init), c);
    }
  }

  // ---------------------------------------------------------------- no Add is forgotten

  /** Every dirty identifier is queued or being processed. */
  ghost predicate DirtyCovered(q: QState) {
    forall id :: id in q.dirty ==> Queued(q.queue, id) || id in q.processing
  }

  lemma DirtyCoveredStep(q: QState, c: Call)
    requires DirtyCovered(q)
    ensures DirtyCovered(After(q, c))
  {
    var r := After(q, c);
    forall id | id in r.dirty ensures Queued(r.queue, id) || id in r.processing {
      if id in q.dirty {
        QueuedStep(q, c, id);
      } else {
        assert c.CallAdd? && c.m.id == id;
        assert id !in q.processing ==> r.queue[|q.queue|] == c.m;
      }
    }
  }

  /** A queued identifier stays queued unless this call returns it. */
  lemma QueuedStep(q: QState, c: Call, id: MessageID)
    ensures Queued(q.queue, id) ==>
              Queued(After(q, c).queue, id) || (ReturnedBy(q, c) != [] && ReturnedBy(q, c)[0].id == id)
  {
    if Queued(q.queue, id) {
      var m :| m in q.queue && m.id == id;
      assert m in After(q, c).queue || (c.CallGet? && m == q.queue[0]);
    }
  }

  lemma {:induction false} DirtyCoveredAlways(q: QState, cs: seq<Call>)
    requires DirtyCovered(q)
    ensures DirtyCovered(Run(q, cs))
  {
    if cs != [] {
      DirtyCoveredAlways(q, cs[..|cs| - 1]);
      DirtyCoveredStep(Run(q, cs[..|cs| - 1]), cs[|cs| - 1]);
    }
  }

  /** Some Get after position `i` returned a message with this identifier. */
  ghost predicate ReturnedSince(q: QState, cs: seq<Call>, i: nat, id: MessageID) {
    exists j :: i < j < |cs| && cs[j].CallGet? && Run(q, cs[..j]).queue != [] && Run(q, cs[..j]).queue[0].id == id
  }

  /**
   An accepted Add, coalesced or not, is never forgotten: at any later point a Get has returned its
   identifier, or it is queued, or it is both dirty and being processed (so Done will append it).
   */
  lemma {:induction false} NoAddForgotten(cs: seq<Call>, i: nat)
    requires i < |cs| && cs[i].CallAdd? && !Run(NEW_QUEUE, cs[..i]).shuttingdown
    ensures var q, id := Run(NEW_QUEUE, cs), cs[i].m.id;
            ReturnedSince(NEW_QUEUE, cs, i, id) || Queued(q.queue, id) || (id in q.dirty && id in q.processing)
    decreases |cs|
  {
    var init, c, id := cs[..|cs| - 1], cs[|cs| - 1], cs[i].m.id;
    var p := Run(NEW_QUEUE, init);
    if i == |cs| - 1 {
      DirtyCoveredAlways(NEW_QUEUE, cs);
    } else {
      assert init[..i] == cs[..i];
      NoAddForgotten(init, i);
      if ReturnedSince(NEW_QUEUE, init, i, id) {
        var j :| i < j < |init| && init[j].CallGet? && Run(NEW_QUEUE, init[..j]).queue != [] && Run(NEW_QUEUE, init[..j]).queue[0].id == id;
        assert init[..j] == cs[..j];
        assert ReturnedSince(NEW_QUEUE, cs, i, id);
      } else if Queued(p.queue, id) {
        QueuedStep(p, c, id);
      } else if c == CallGet {
        assert p.queue != [] ==> p.queue[0] in p.queue;
      } else if c.CallDone? && c.m.id == id {
        assert c.m in p.Done(c.m).queue;
      }
    }
  }

  // ---------------------------------------------------------------- the class

  /** A goroutine, as known to the condition variable. */
  type Goroutine = nat

  datatype GetResult = Item(msg: Message) | Closed | Blocked

  /** The identity of a queue object: its ID, which object it is, and which side of a component it serves. */
  datatype QRef = QRef(id: string, serial: nat, side: Side)
  datatype Side = Rcv | Snd

  /**
   The queue object. Each method is one critical section. `waiting` is the condition variable's
   notify list, and `woken` holds the goroutines taken off it that have not run yet.
   */
  class Queue {
    const ref: QRef
    var queue: seq<Message>
    var dirty: set<MessageID>
    var processing: set<MessageID>
    var shuttingdown: bool
    var waiting: set<Goroutine>
    var woken: set<Goroutine>

    function State(): QState
      reads this
    {
      QState(queue, dirty, processing, shuttingdown)
    }

    constructor (ref: QRef)
      ensures this.ref == ref && State() == NEW_QUEUE && waiting == {} && woken == {}
    {
      this.ref := ref;
      queue, dirty, processing, shuttingdown := [], {}, {}, false;
      waiting, woken := {}, {};
    }

    /** Cond.Signal wakes one waiting goroutine, if there is one; which one is not specified. */
    method Signal()
      modifies this`waiting, this`woken
      ensures waiting <= old(waiting) && woken == old(woken) + (old(waiting) - waiting)
      ensures |waiting| == if old(waiting) == {} then 0 else |old(waiting)| - 1
    {
      if waiting != {} {
        var g :| g in waiting;
        waiting, woken := waiting - {g}, woken + {g};
      }
    }

    method Add(msg: Message)
      modifies this`queue, this`dirty, this`waiting, this`woken
      ensures State() == old(State()).Add(msg)
      ensures waiting <= old(waiting) && woken == old(woken) + (old(waiting) - waiting)
      ensures |waiting| == if old(State().AddAppends(msg)) && old(waiting) != {} then |old(waiting)| - 1 else |old(waiting)|
    {
      if shuttingdown {
        return;
      }
      if msg.id in dirty {
        return;
      }
      dirty := dirty + {msg.id};
      if msg.id in processing {
        return;
      }
      queue := queue + [msg];
      Signal();
    }

    /** One pass of the loop in Get by goroutine `g`: it waits, reports the shutdown or takes a message. */
    method Get(g: Goroutine) returns (r: GetResult)
      modifies this`queue, this`dirty, this`processing, this`waiting, this`woken
      ensures r.Blocked? <==> old(queue) == [] && !shuttingdown
      ensures r.Closed? <==> old(queue) == [] && shuttingdown
      ensures r.Item? ==> r.msg == old(queue)[0]
      ensures State() == After(old(State()), CallGet)
      ensures waiting == old(waiting) + (if r.Blocked? then {g} else {})
      ensures woken == old(woken) - {g}
    {
      woken := woken - {g};
      if |queue| == 0 && !shuttingdown {
        waiting := waiting + {g};
        return Blocked;
      }
      if |queue| == 0 {
        return Closed;
      }
      var msg := queue[0];
      queue := queue[1..];
      processing := processing + {msg.id};
      dirty := dirty - {msg.id};
      return Item(msg);
    }

    method Done(msg: Message)
      modifies this`queue, this`dirty, this`processing, this`waiting, this`woken
      ensures State() == old(State()).Done(msg)
      ensures waiting <= old(waiting) && woken == old(woken) + (old(waiting) - waiting)
      ensures |waiting| == if msg.id in old(dirty) && old(waiting) != {} then |old(waiting)| - 1 else |old(waiting)|
    {
      processing := processing - {msg.id};
      if msg.id !in dirty {
        return;
      }
      dirty := dirty - {msg.id};
      queue := queue + [msg];
      Signal();
    }

    method ShutDown()
      modifies this`shuttingdown, this`waiting, this`woken
      ensures State() == old(State()).ShutDown()
      ensures waiting == {} && woken == old(woken) + old(waiting)
    {
      shuttingdown := true;
      waiting, woken := {}, woken + waiting;
    }

    method IsShuttingDown() returns (r: bool)
      ensures r == State().shuttingdown
    {
      r := shuttingdown;
    }

    method Len() returns (r: nat)
      ensures r == |State().queue|
    {
      r := |queue|;
    }
  }
}
