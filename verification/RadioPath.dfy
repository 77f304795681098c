/**
 From a sender's payloads to the message channel: encode each payload, send the bytes, cut them at
 arbitrary points, split them into frames, and let any number of frame loops decode and deliver them.
 */
module RadioPath {
  import opened Messages
  import opened Framing

  datatype Codec = Codec(encode: Bytes -> Bytes, decode: Bytes -> Bytes)

  /** The contract of Consistent Overhead Byte Stuffing: a zero only at the end, and decoding undoes it. */
  ghost predicate StuffsZeros(c: Codec) {
    forall p :: IsFrame(c.encode(p)) && c.decode(c.encode(p)) == p
  }

  function EncodeAll(c: Codec, payloads: seq<Bytes>): seq<Bytes> {
    seq(|payloads|, i requires 0 <= i < |payloads| => c.encode(payloads[i]))
  }

  function DecodeAll(c: Codec, frames: seq<Bytes>): seq<Bytes> {
    seq(|frames|, i requires 0 <= i < |frames| => c.decode(frames[i]))
  }

  /** `hands` has one entry per running frame loop: the frame it has taken and not delivered yet. */
  datatype Pipe = Pipe(
    wire: Bytes,
    buf: Bytes,
    outbox: seq<Bytes>,
    frameChan: seq<Bytes>,
    hands: seq<Option<Bytes>>,
    delivered: seq<Bytes>)

  function Start(c: Codec, payloads: seq<Bytes>, loops: nat): Pipe {
    Pipe(Concat(EncodeAll(c, payloads)), [], [], [], seq(loops, _ => None), [])
  }

  datatype Event = Read(n: nat) | Push | Take(k: nat) | Deliver(k: nat)

  /** A read leaves its frames in the outbox; the receiver pushes them one by one while there is room. */
  function Step(c: Codec, p: Pipe, e: Event): Pipe {
    match e
    case Read(n) =>
      if p.outbox == [] && n <= |p.wire| && n <= READ_BUFFER_SIZE then
        var s := SplitStream(p.buf + p.wire[..n]);
        p.(wire := p.wire[n..], buf := s.rest, outbox := s.frames)
      else p
    case Push =>
      if p.outbox != [] && |p.frameChan| < FRAME_CHAN_CAPACITY then
        p.(outbox := p.outbox[1..], frameChan := p.frameChan + [p.outbox[0]])
      else p
    case Take(k) =>
      if k < |p.hands| && p.hands[k].None? && p.frameChan != [] then
        p.(hands := p.hands[k := Some(p.frameChan[0])], frameChan := p.frameChan[1..])
      else p
    case Deliver(k) =>
      if k < |p.hands| && p.hands[k].Some? then
        p.(hands := p.hands[k := None], delivered := p.delivered + [c.decode(p.hands[k].value)])
      else p
  }

  function Run(c: Codec, p: Pipe, es: seq<Event>): Pipe {
    if es == [] then p else Step(c, Run(c, p, es[..|es| - 1]), es[|es| - 1])
  }

  /** All frames that no loop has taken yet, in the order in which they will be taken. */
  function Pending(p: Pipe): seq<Bytes> {
    p.frameChan + p.outbox + SplitStream(p.buf + p.wire).frames
  }

  lemma SplitOf(stream: Bytes, frames: seq<Bytes>, rest: Bytes)
    requires IsSplit(stream, frames, rest)
    ensures SplitStream(stream) == Split(frames, rest)
  {
    var s := SplitStream(stream);
    SplitUnique(stream, frames, rest, s.frames, s.rest);
  }

  /** Splitting in two pieces, the leftover of the first carried over, is splitting the whole. */
  lemma SplitInTwo(whole: Bytes, first: Bytes, more: Bytes, a: Split, b: Split)
    requires whole == first + more && a == SplitStream(first) && b == SplitStream(a.rest + more)
    ensures SplitStream(whole) == Split(a.frames + b.frames, b.rest)
  {
    SplitJoin(first, a.frames, a.rest, more, b.frames, b.rest);
    SplitOf(whole, a.frames + b.frames, b.rest);
  }

  lemma CutWire(buf: Bytes, wire: Bytes, n: nat)
    requires n <= |wire|
    ensures buf + wire == (buf + wire[..n]) + wire[n..]
  {
  }

  lemma Rejoined(chan: seq<Bytes>, f: seq<Bytes>, g: seq<Bytes>)
    ensures chan + f + g == chan + [] + (f + g)
  {
  }

  lemma ReadKeepsPending(c: Codec, p: Pipe, n: nat)
    ensures Pending(Step(c, p, Read(n))) == Pending(p)
  {
    if p.outbox == [] && n <= |p.wire| && n <= READ_BUFFER_SIZE {
      var first, more := p.buf + p.wire[..n], p.wire[n..];
      var a := SplitStream(first);
      var b := SplitStream(a.rest + more);
      CutWire(p.buf, p.wire, n);
      SplitInTwo(p.buf + p.wire, first, more, a, b);
      Rejoined(p.frameChan, a.frames, b.frames);
    }
  }

  /** Reading and pushing change nothing about what is still to be taken; taking removes its head. */
  lemma PendingStep(c: Codec, p: Pipe, e: Event)
    ensures var q := Step(c, p, e);
            Pending(q) == (if e.Take? && q != p then Pending(p)[1..] else Pending(p))
            && (e.Take? && q != p ==> p.frameChan != [] && Pending(p) != [] && Pending(p)[0] == p.frameChan[0])
  {
    match e
    case Read(n) => ReadKeepsPending(c, p, n);
    case Push =>
      if p.outbox != [] {
        assert p.frameChan + [p.outbox[0]] + p.outbox[1..] == p.frameChan + p.outbox;
      }
    case Take(k) =>
    case Deliver(k) =>
  }

  lemma EncodedSplit(c: Codec, payloads: seq<Bytes>)
    requires StuffsZeros(c)
    ensures var frames := EncodeAll(c, payloads);
            SplitStream(Concat(frames)) == Split(frames, []) && DecodeAll(c, frames) == payloads
  {
    var frames := EncodeAll(c, payloads);
    forall f | f in frames ensures IsFrame(f) {
      var i :| 0 <= i < |frames| && frames[i] == f;
      assert f == c.encode(payloads[i]);
    }
    assert IsSplit(Concat(frames), frames, []) by { assert Concat(frames) + [] == Concat(frames); }
    var s := SplitStream(Concat(frames));
    SplitUnique(Concat(frames), s.frames, s.rest, frames, []);
    forall i | 0 <= i < |payloads| ensures DecodeAll(c, frames)[i] == payloads[i] {
      assert frames[i] == c.encode(payloads[i]);
    }
  }

  lemma DecodeHead(c: Codec, frames: seq<Bytes>)
    requires frames != []
    ensures DecodeAll(c, frames) == [c.decode(frames[0])] + DecodeAll(c, frames[1..])
  {
  }

  // ---------------------------------------------------------------- one loop: order

  function InHand(c: Codec, h: Option<Bytes>): seq<Bytes> {
    if h.Some? then [c.decode(h.value)] else []
  }

  /**
   End to end with one frame loop: at every moment of every run, what has been delivered, what the
   loop holds and what is still to come are the payloads, in order.
   */
  lemma {:induction false} OneLoopKeepsOrder(c: Codec, payloads: seq<Bytes>, es: seq<Event>)
    requires StuffsZeros(c)
    ensures var p := Run(c, Start(c, payloads, 1), es);
            |p.hands| == 1 && p.delivered + InHand(c, p.hands[0]) + DecodeAll(c, Pending(p)) == payloads
  {
    if es == [] {
      EncodedSplit(c, payloads);
      var p := Start(c, payloads, 1);
      assert p.buf + p.wire == p.wire && Pending(p) == EncodeAll(c, payloads);
    } else {
      var init, e := es[..|es| - 1], es[|es| - 1];
      OneLoopKeepsOrder(c, payloads, init);
      OrderStep(c, Run(c, Start(c, payloads, 1), init), e);
    }
  }

  /** Delivered, in hand and pending, in order. */
  ghost function InOrder(c: Codec, p: Pipe): seq<Bytes>
    requires |p.hands| == 1
  {
    p.delivered + InHand(c, p.hands[0]) + DecodeAll(c, Pending(p))
  }

  lemma OrderTake(c: Codec, p: Pipe, k: nat)
    requires |p.hands| == 1
    ensures var q := Step(c, p, Take(k)); |q.hands| == 1 && InOrder(c, q) == InOrder(c, p)
  {
    var q := Step(c, p, Take(k));
    if q != p {
      PendingStep(c, p, Take(k));
      DecodeHead(c, Pending(p));
      OneMoves(p.delivered, c.decode(p.frameChan[0]), DecodeAll(c, Pending(q)));
    }
  }

  lemma OneMoves(d: seq<Bytes>, x: Bytes, w: seq<Bytes>)
    ensures d + [] + ([x] + w) == d + [x] + w
    ensures (d + [x]) + [] + w == d + [x] + w
  {
  }

  lemma OrderDeliver(c: Codec, p: Pipe, k: nat)
    requires |p.hands| == 1
    ensures var q := Step(c, p, Deliver(k)); |q.hands| == 1 && InOrder(c, q) == InOrder(c, p)
  {
    var q := Step(c, p, Deliver(k));
    if q != p {
      OneMoves(p.delivered, c.decode(p.hands[0].value), DecodeAll(c, Pending(p)));
    }
  }

  lemma OrderStep(c: Codec, p: Pipe, e: Event)
    requires |p.hands| == 1
    ensures var q := Step(c, p, e); |q.hands| == 1 && InOrder(c, q) == InOrder(c, p)
  {
    match e
    case Read(n) => PendingStep(c, p, e);
    case Push => PendingStep(c, p, e);
    case Take(k) => OrderTake(c, p, k);
    case Deliver(k) => OrderDeliver(c, p, k);
  }

  // ---------------------------------------------------------------- any number of loops: permutation

  function AllInHand(c: Codec, hands: seq<Option<Bytes>>): multiset<Bytes> {
    if hands == [] then multiset{} else AllInHand(c, hands[..|hands| - 1]) + multiset(InHand(c, hands[|hands| - 1]))
  }

  lemma AddToBoth(a: multiset<Bytes>, b: multiset<Bytes>, x: multiset<Bytes>, y: multiset<Bytes>, l: multiset<Bytes>)
    requires a + x == b + y
    ensures (a + l) + x == (b + l) + y
  {
    assert (a + l) + x == (a + x) + l;
    assert (b + l) + y == (b + y) + l;
  }

  lemma HandsSnoc(c: Codec, hands: seq<Option<Bytes>>, h: Option<Bytes>)
    ensures AllInHand(c, hands + [h]) == AllInHand(c, hands) + multiset(InHand(c, h))
  {
    assert (hands + [h])[..|hands|] == hands;
  }

  lemma {:induction false} HandChange(c: Codec, hands: seq<Option<Bytes>>, k: nat, h: Option<Bytes>)
    requires k < |hands|
    ensures AllInHand(c, hands[k := h]) + multiset(InHand(c, hands[k])) == AllInHand(c, hands) + multiset(InHand(c, h))
    decreases |hands|, 0
  {
    var init, last := hands[..|hands| - 1], hands[|hands| - 1];
    assert hands == init + [last];
    HandsSnoc(c, init, last);
    if k == |init| {
      assert hands[k := h] == init + [h];
      HandsSnoc(c, init, h);
    } else {
      HandChangeInside(c, init, last, k, h);
    }
  }

  lemma {:induction false} HandChangeInside(c: Codec, init: seq<Option<Bytes>>, last: Option<Bytes>, k: nat, h: Option<Bytes>)
    requires k < |init|
    ensures AllInHand(c, (init + [last])[k := h]) + multiset(InHand(c, init[k]))
         == AllInHand(c, init + [last]) + multiset(InHand(c, h))
    decreases |init|, 1
  {
    assert (init + [last])[k := h] == init[k := h] + [last];
    HandsSnoc(c, init, last);
    HandsSnoc(c, init[k := h], last);
    HandChange(c, init, k, h);
    AddToBoth(AllInHand(c, init[k := h]), AllInHand(c, init), multiset(InHand(c, init[k])), multiset(InHand(c, h)),
              multiset(InHand(c, last)));
  }

  lemma {:induction false} NoHands(c: Codec, n: nat)
    ensures AllInHand(c, seq(n, _ => None)) == multiset{}
  {
    if n > 0 {
      NoHands(c, n - 1);
      var hands: seq<Option<Bytes>> := seq(n, _ => None);
      assert hands[..n - 1] == seq(n - 1, _ => None);
    }
  }

  /** With any number of loops (the master runs two) nothing is lost or repeated; only the order is free. */
  lemma {:induction false} ManyLoopsPermute(c: Codec, payloads: seq<Bytes>, loops: nat, es: seq<Event>)
    requires StuffsZeros(c)
    ensures var p := Run(c, Start(c, payloads, loops), es);
            multiset(p.delivered) + AllInHand(c, p.hands) + multiset(DecodeAll(c, Pending(p))) == multiset(payloads)
  {
    if es == [] {
      EncodedSplit(c, payloads);
      NoHands(c, loops);
      var p := Start(c, payloads, loops);
      assert p.buf + p.wire == p.wire && Pending(p) == EncodeAll(c, payloads);
    } else {
      var init, e := es[..|es| - 1], es[|es| - 1];
      ManyLoopsPermute(c, payloads, loops, init);
      PermuteStep(c, Run(c, Start(c, payloads, loops), init), e);
    }
  }

  /** The three parts, as one multiset. */
  ghost function Everything(c: Codec, p: Pipe): multiset<Bytes> {
    multiset(p.delivered) + AllInHand(c, p.hands) + multiset(DecodeAll(c, Pending(p)))
  }

  lemma PermuteTake(c: Codec, p: Pipe, k: nat)
    ensures Everything(c, Step(c, p, Take(k))) == Everything(c, p)
  {
    var q := Step(c, p, Take(k));
    if q != p {
      PendingStep(c, p, Take(k));
      DecodeHead(c, Pending(p));
      HandChange(c, p.hands, k, Some(p.frameChan[0]));
      var x := multiset{c.decode(p.frameChan[0])};
      MoveAcross(multiset(p.delivered), AllInHand(c, p.hands), x, multiset(DecodeAll(c, Pending(q))));
      assert AllInHand(c, q.hands) == AllInHand(c, p.hands) + x;
      assert multiset(DecodeAll(c, Pending(p))) == x + multiset(DecodeAll(c, Pending(q)));
    }
  }

  lemma MoveAcross(d: multiset<Bytes>, h: multiset<Bytes>, x: multiset<Bytes>, w: multiset<Bytes>)
    ensures d + (h + x) + w == d + h + (x + w)
    ensures (d + x) + h + w == d + (h + x) + w
  {
  }

  lemma PermuteDeliver(c: Codec, p: Pipe, k: nat)
    ensures Everything(c, Step(c, p, Deliver(k))) == Everything(c, p)
  {
    var q := Step(c, p, Deliver(k));
    if q != p {
      HandChange(c, p.hands, k, None);
      var x := multiset(InHand(c, p.hands[k]));
      assert AllInHand(c, p.hands) == AllInHand(c, q.hands) + x;
      assert multiset(q.delivered) == multiset(p.delivered) + x;
      MoveAcross(multiset(p.delivered), AllInHand(c, q.hands), x, multiset(DecodeAll(c, Pending(p))));
    }
  }

  lemma PermuteStep(c: Codec, p: Pipe, e: Event)
    ensures Everything(c, Step(c, p, e)) == Everything(c, p)
  {
    match e
    case Read(n) => PendingStep(c, p, e);
    case Push => PendingStep(c, p, e);
    case Take(k) => PermuteTake(c, p, k);
    case Deliver(k) => PermuteDeliver(c, p, k);
  }

  /** A run that has come to rest has delivered every payload. */
  lemma AtRestAllDelivered(c: Codec, payloads: seq<Bytes>, loops: nat, es: seq<Event>)
    requires StuffsZeros(c) && loops > 0
    requires forall e :: Step(c, Run(c, Start(c, payloads, loops), es), e) == Run(c, Start(c, payloads, loops), es)
    ensures var p := Run(c, Start(c, payloads, loops), es);
            multiset(p.delivered) == multiset(payloads) && (loops == 1 ==> p.delivered == payloads)
  {
    var p := Run(c, Start(c, payloads, loops), es);
    ManyLoopsPermute(c, payloads, loops, es);
    HandsStay(c, payloads, loops, es);
    if Unfinished(c, p) { SomethingMoves(c, p); }
    assert DecodeAll(c, Pending(p)) == [];
    if loops == 1 {
      OneLoopKeepsOrder(c, payloads, es);
      assert p.hands[0].None? by {
        assert Step(c, p, Deliver(0)) == p;
        assert p.hands[..0] == [] && AllInHand(c, p.hands) == multiset(InHand(c, p.hands[0]));
      }
      assert p.delivered + [] + [] == p.delivered;
    }
  }

  lemma {:induction false} HandsStay(c: Codec, payloads: seq<Bytes>, loops: nat, es: seq<Event>)
    ensures var p := Run(c, Start(c, payloads, loops), es); |p.hands| == loops && ZeroFree(p.buf)
  {
    if es != [] { HandsStay(c, payloads, loops, es[..|es| - 1]); }
  }

  lemma IdleIsEmpty(c: Codec, p: Pipe)
    requires ZeroFree(p.buf) && p.wire == [] && p.outbox == [] && p.frameChan == []
    requires forall k :: 0 <= k < |p.hands| ==> p.hands[k].None?
    ensures Pending(p) == [] && AllInHand(c, p.hands) == multiset{}
  {
    NoHands(c, |p.hands|);
    assert p.hands == seq(|p.hands|, _ => None);
    var s := SplitStream(p.buf);
    SplitUnique(p.buf, s.frames, s.rest, [], p.buf);
    assert p.buf + p.wire == p.buf;
  }

  // ---------------------------------------------------------------- every run comes to rest

  /** The loops that hold a frame. */
  function Holding(hands: seq<Option<Bytes>>): set<nat> {
    set k: nat | k < |hands| && hands[k].Some?
  }

  /** What is left to do: a byte is read once; a pending frame is pushed, taken and delivered. */
  function Measure(p: Pipe): nat {
    |p.wire| + 2 * |p.frameChan| + 3 * |Pending(p)[|p.frameChan|..]| + |Holding(p.hands)|
  }

  lemma MeasureOfPending(p: Pipe)
    ensures Measure(p) == |p.wire| + 3 * |Pending(p)| - |p.frameChan| + |Holding(p.hands)|
  {
  }

  lemma ReadShrinks(c: Codec, p: Pipe, n: nat)
    requires ZeroFree(p.buf) && Step(c, p, Read(n)) != p
    ensures Measure(Step(c, p, Read(n))) < Measure(p)
  {
    var q := Step(c, p, Read(n));
    ReadKeepsPending(c, p, n);
    MeasureOfPending(p);
    MeasureOfPending(q);
    if n == 0 {
      assert p.buf + p.wire[..0] == p.buf && p.wire[0..] == p.wire;
      assert Concat([]) + p.buf == p.buf;
      SplitOf(p.buf, [], p.buf);
      assert false;
    }
  }

  lemma HoldingOneMore(hands: seq<Option<Bytes>>, k: nat, f: Bytes)
    requires k < |hands| && hands[k].None?
    ensures |Holding(hands[k := Some(f)])| == |Holding(hands)| + 1
  {
    assert Holding(hands[k := Some(f)]) == Holding(hands) + {k};
  }

  lemma HoldingOneLess(hands: seq<Option<Bytes>>, k: nat)
    requires k < |hands| && hands[k].Some?
    ensures |Holding(hands[k := None])| == |Holding(hands)| - 1
  {
    assert Holding(hands) == Holding(hands[k := None]) + {k};
  }

  lemma StepShrinks(c: Codec, p: Pipe, e: Event)
    requires ZeroFree(p.buf) && Step(c, p, e) != p
    ensures Measure(Step(c, p, e)) < Measure(p)
  {
    MeasureOfPending(p);
    MeasureOfPending(Step(c, p, e));
    match e
    case Read(n) => ReadShrinks(c, p, n);
    case Push => PendingStep(c, p, e);
    case Take(k) =>
      PendingStep(c, p, e);
      HoldingOneMore(p.hands, k, p.frameChan[0]);
    case Deliver(k) => HoldingOneLess(p.hands, k);
  }

  lemma HeldIsInHand(c: Codec, hands: seq<Option<Bytes>>, k: nat)
    requires k < |hands| && hands[k].Some?
    ensures AllInHand(c, hands) != multiset{}
  {
    HandChange(c, hands, k, None);
    assert AllInHand(c, hands[k := None]) + multiset{c.decode(hands[k].value)} == AllInHand(c, hands);
    assert c.decode(hands[k].value) in AllInHand(c, hands);
  }

  /** What is left to do: bytes to read, frames to take, frames to deliver. */
  ghost predicate Unfinished(c: Codec, p: Pipe) {
    p.wire != [] || Pending(p) != [] || AllInHand(c, p.hands) != multiset{}
  }

  lemma IdleHasNoMeasure(c: Codec, p: Pipe)
    requires !Unfinished(c, p)
    ensures Measure(p) == 0
  {
    MeasureOfPending(p);
    forall k: nat | k < |p.hands| ensures p.hands[k].None? {
      if p.hands[k].Some? { HeldIsInHand(c, p.hands, k); }
    }
    assert Holding(p.hands) == {};
  }

  /** Some step changes the pipe exactly while anything is left to do. */
  lemma SomethingMovesIff(c: Codec, p: Pipe)
    requires |p.hands| > 0 && ZeroFree(p.buf)
    ensures (exists e :: Step(c, p, e) != p) <==> Unfinished(c, p)
  {
    if Unfinished(c, p) {
      SomethingMoves(c, p);
    } else {
      IdleHasNoMeasure(c, p);
      forall e ensures Step(c, p, e) == p {
        if Step(c, p, e) != p { StepShrinks(c, p, e); }
      }
    }
  }

  lemma SomethingMoves(c: Codec, p: Pipe)
    requires |p.hands| > 0 && ZeroFree(p.buf) && Unfinished(c, p)
    ensures exists e :: Step(c, p, e) != p
  {
    if k :| 0 <= k < |p.hands| && p.hands[k].Some? {
      assert |Step(c, p, Deliver(k)).delivered| == |p.delivered| + 1;
    } else if p.frameChan != [] {
      assert |Step(c, p, Take(0)).frameChan| == |p.frameChan| - 1;
    } else if p.outbox != [] {
      assert |Step(c, p, Push).outbox| == |p.outbox| - 1;
    } else if p.wire != [] {
      assert |Step(c, p, Read(1)).wire| == |p.wire| - 1;
    } else {
      IdleIsEmpty(c, p);
      assert false;
    }
  }

  /** How many steps of the run change anything. */
  function Moves(c: Codec, p: Pipe, es: seq<Event>): nat {
    if es == [] then 0
    else
      var q := Run(c, p, es[..|es| - 1]);
      Moves(c, p, es[..|es| - 1]) + if Step(c, q, es[|es| - 1]) != q then 1 else 0
  }

  lemma {:induction false} MovesAndMeasure(c: Codec, payloads: seq<Bytes>, loops: nat, es: seq<Event>)
    ensures var p := Start(c, payloads, loops); Moves(c, p, es) + Measure(Run(c, p, es)) <= Measure(p)
  {
    if es != [] {
      var p, init, e := Start(c, payloads, loops), es[..|es| - 1], es[|es| - 1];
      MovesAndMeasure(c, payloads, loops, init);
      HandsStay(c, payloads, loops, init);
      var q := Run(c, p, init);
      if Step(c, q, e) != q { StepShrinks(c, q, e); }
    }
  }

  /**
   No run moves for ever: at most as many steps change the pipe as there are bytes, and three more per
   payload. A run that has made as many moves as it can is at rest, and has delivered everything.
   */
  lemma MovesAreBounded(c: Codec, payloads: seq<Bytes>, loops: nat, es: seq<Event>)
    requires StuffsZeros(c)
    ensures var p := Start(c, payloads, loops); Moves(c, p, es) <= |p.wire| + 3 * |payloads|
  {
    var p := Start(c, payloads, loops);
    MovesAndMeasure(c, payloads, loops, es);
    EncodedSplit(c, payloads);
    assert p.buf + p.wire == p.wire;
    assert Holding(p.hands) == {};
  }

  /** The receiver blocks while ten frames wait in the channel, and not before; a read takes up to 1024 bytes. */
  lemma ChannelHoldsTen(c: Codec, p: Pipe, n: nat)
    requires p.outbox != []
    ensures Step(c, p, Push) != p <==> |p.frameChan| < 10
    ensures Step(c, p, Read(n)) == p
  {
    if |p.frameChan| < 10 { assert |Step(c, p, Push).outbox| < |p.outbox|; }
  }

  lemma ReadTakesUpToBuffer(c: Codec, p: Pipe, n: nat)
    requires p.outbox == [] && 0 < n <= |p.wire|
    ensures Step(c, p, Read(n)) != p <==> n <= 1024
    ensures n <= 1024 ==> Step(c, p, Read(n)).wire == p.wire[n..]
  {
    if n <= 1024 { assert |Step(c, p, Read(n)).wire| < |p.wire|; }
  }

  // ---------------------------------------------------------------- two loops can reorder

  ghost predicate Reaches(c: Codec, p: Pipe, q: Pipe) {
    exists es :: Run(c, p, es) == q
  }

  lemma ReachesNext(c: Codec, p: Pipe, q: Pipe, e: Event)
    requires Reaches(c, p, q)
    ensures Reaches(c, p, Step(c, q, e))
  {
    var es :| Run(c, p, es) == q;
    assert (es + [e])[..|es|] == es;
    assert Run(c, p, es + [e]) == Step(c, q, e);
  }

  /** Both frames are read... */
  lemma BothRead(c: Codec, a: Bytes, b: Bytes)
    requires StuffsZeros(c) && |Start(c, [a, b], 2).wire| <= READ_BUFFER_SIZE
    ensures Reaches(c, Start(c, [a, b], 2), Pipe([], [], [c.encode(a), c.encode(b)], [], [None, None], []))
  {
    var p := Start(c, [a, b], 2);
    EncodedSplit(c, [a, b]);
    assert EncodeAll(c, [a, b]) == [c.encode(a), c.encode(b)] && p.hands == [None, None];
    assert p.buf + p.wire[..|p.wire|] == p.wire && p.wire[|p.wire|..] == [];
    assert Run(c, p, []) == p;
    ReachesNext(c, p, p, Read(|p.wire|));
  }

  /** ... pushed... */
  lemma BothPushed(c: Codec, p: Pipe, f: Bytes, g: Bytes)
    requires Reaches(c, p, Pipe([], [], [f, g], [], [None, None], []))
    ensures Reaches(c, p, Pipe([], [], [], [f, g], [None, None], []))
  {
    ReachesNext(c, p, Pipe([], [], [f, g], [], [None, None], []), Push);
    ReachesNext(c, p, Pipe([], [], [g], [f], [None, None], []), Push);
  }

  /** ... taken, one by each loop... */
  lemma BothTaken(c: Codec, p: Pipe, f: Bytes, g: Bytes)
    requires Reaches(c, p, Pipe([], [], [], [f, g], [None, None], []))
    ensures Reaches(c, p, Pipe([], [], [], [], [Some(f), Some(g)], []))
  {
    ReachesNext(c, p, Pipe([], [], [], [f, g], [None, None], []), Take(0));
    ReachesNext(c, p, Pipe([], [], [], [g], [Some(f), None], []), Take(1));
  }

  /** ... and the second loop delivers first. */
  lemma SecondOvertakes(c: Codec, p: Pipe, f: Bytes, g: Bytes)
    requires Reaches(c, p, Pipe([], [], [], [], [Some(f), Some(g)], []))
    ensures Reaches(c, p, Pipe([], [], [], [], [None, None], [c.decode(g), c.decode(f)]))
  {
    ReachesNext(c, p, Pipe([], [], [], [], [Some(f), Some(g)], []), Deliver(1));
    ReachesNext(c, p, Pipe([], [], [], [], [Some(f), None], [c.decode(g)]), Deliver(0));
  }

  /** With two loops a payload can overtake another, so the permutation cannot be improved upon. */
  lemma TwoLoopsCanReorder(c: Codec, a: Bytes, b: Bytes)
    requires StuffsZeros(c) && |Start(c, [a, b], 2).wire| <= READ_BUFFER_SIZE
    ensures exists es :: Run(c, Start(c, [a, b], 2), es).delivered == [b, a]
  {
    var p, f, g := Start(c, [a, b], 2), c.encode(a), c.encode(b);
    BothRead(c, a, b);
    BothPushed(c, p, f, g);
    BothTaken(c, p, f, g);
    SecondOvertakes(c, p, f, g);
    var es :| Run(c, Start(c, [a, b], 2), es) == Pipe([], [], [], [], [None, None], [b, a]);
    assert Run(c, Start(c, [a, b], 2), es).delivered == [b, a];
  }
}
