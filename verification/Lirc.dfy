/**
 The reader of lircd's socket: a state machine over lines that turns broadcast lines into key events
 and reply packets into replies.
 */
module Lirc {
  import opened Decimal

  datatype Reply = Reply(command: string, success: int, dataLength: int, data: seq<string>)

  /** A key press, without the code field. */
  datatype KeyEvent = KeyEvent(repeat_: int, button: string, remote: string)

  /** What the reader sends on its two channels, in the order in which it sends it. */
  datatype Output = Sent(reply: Reply) | Received(event: KeyEvent)

  datatype State = RECEIVE | REPLY | STATUS | DATA_START | DATA_LEN | DATA | END

  /** `crashed` is an index out of range on a broadcast line with too few fields. */
  datatype Reader = Reader(state: State, dataCnt: int, message: Reply, out: seq<Output>, crashed: bool)

  const NO_MESSAGE := Reply("", 0, 0, [])
  const START := Reader(RECEIVE, 0, NO_MESSAGE, [], false)

  predicate IsHex(c: char) {
    '0' <= c <= '9' || 'a' <= c <= 'f' || 'A' <= c <= 'F'
  }

  /** hex.DecodeString succeeds and yields eight bytes. */
  predicate IsCode(s: string) {
    |s| == 16 && forall i :: 0 <= i < |s| ==> IsHex(s[i])
  }

  function Broadcast(r: Reader, line: string): Reader {
    var f := Fields(line);
    if !IsCode(f[0]) then r
    else if |f| < 4 then r.(crashed := true)
    else r.(out := r.out + [Received(KeyEvent(Atoi(f[1]).value, f[2], f[3]))])
  }

  function Emit(r: Reader): Reader {
    r.(state := RECEIVE, out := r.out + [Sent(r.message)])
  }

  function Step(r: Reader, line: string): Reader {
    if r.crashed then r else
    match r.state
    case RECEIVE => if line == "BEGIN" then r.(state := REPLY) else Broadcast(r, line)
    case REPLY => r.(message := Reply(line, 0, 0, []), state := STATUS)
    case STATUS =>
      if line == "SUCCESS" then r.(message := r.message.(success := 1), state := DATA_START)
      else if line == "END" then Emit(r.(message := r.message.(success := 1)))
      else if line == "ERROR" then r.(message := r.message.(success := 0), state := DATA_START)
      else r.(state := RECEIVE)
    case DATA_START =>
      if line == "END" then Emit(r)
      else r.(state := if line == "DATA" then DATA_LEN else RECEIVE)
    case DATA_LEN =>
      var n := Atoi(line);
      r.(dataCnt := 0, message := r.message.(dataLength := n.value), state := if n.ok then DATA else RECEIVE)
    case DATA =>
      var m := if r.dataCnt < r.message.dataLength then r.message.(data := r.message.data + [line]) else r.message;
      r.(message := m, dataCnt := r.dataCnt + 1, state := if r.dataCnt + 1 == m.dataLength then END else DATA)
    case END => if line == "END" then Emit(r) else r.(state := RECEIVE)
  }

  function Feed(r: Reader, lines: seq<string>): Reader {
    if lines == [] then r else Step(Feed(r, lines[..|lines| - 1]), lines[|lines| - 1])
  }

  /** The reader's loop over the scanner's lines. */
  method ReadLines(lines: seq<string>) returns (r: Reader)
    ensures r == Feed(START, lines)
  {
    var state, dataCnt, message := RECEIVE, 0, NO_MESSAGE;
    var out: seq<Output> := [];
    var i := 0;
    while i < |lines|
      invariant 0 <= i <= |lines|
      invariant Reader(state, dataCnt, message, out, false) == Feed(START, lines[..i])
    {
      var line := lines[i];
      assert lines[..i + 1][..i] == lines[..i];
      i := i + 1;
      match state {
        case RECEIVE =>
          if line == "BEGIN" {
            state := REPLY;
          } else {
            var f := Fields(line);
            if !IsCode(f[0]) {
              continue;
            }
            if |f| < 4 {
              CrashIsFinal(Feed(START, lines[..i]), lines, i);
              return Reader(state, dataCnt, message, out, true);
            }
            var repeat_ := Atoi(f[1]);
            out := out + [Received(KeyEvent(repeat_.value, f[2], f[3]))];
          }
        case REPLY =>
          message := Reply(line, 0, 0, []);
          state := STATUS;
        case STATUS =>
          if line == "SUCCESS" {
            message, state := message.(success := 1), DATA_START;
          } else if line == "END" {
            message, state := message.(success := 1), RECEIVE;
            out := out + [Sent(message)];
          } else if line == "ERROR" {
            message, state := message.(success := 0), DATA_START;
          } else {
            state := RECEIVE;
          }
        case DATA_START =>
          if line == "END" {
            state := RECEIVE;
            out := out + [Sent(message)];
          } else if line == "DATA" {
            state := DATA_LEN;
          } else {
            state := RECEIVE;
          }
        case DATA_LEN =>
          dataCnt := 0;
          var n := Atoi(line);
          message := message.(dataLength := n.value);
          state := if n.ok then DATA else RECEIVE;
        case DATA =>
          if dataCnt < message.dataLength {
            message := message.(data := message.data + [line]);
          }
          dataCnt := dataCnt + 1;
          if dataCnt == message.dataLength {
            state := END;
          }
        case END =>
          state := RECEIVE;
          if line == "END" {
            out := out + [Sent(message)];
          }
      }
    }
    assert lines[..|lines|] == lines;
    return Reader(state, dataCnt, message, out, false);
  }

  lemma {:induction false} CrashIsFinal(r: Reader, lines: seq<string>, i: nat)
    requires i <= |lines| && r == Feed(START, lines[..i]) && r.crashed
    ensures Feed(START, lines) == r
    decreases |lines| - i
  {
    if i == |lines| {
      assert lines[..i] == lines;
    } else {
      assert lines[..i + 1][..i] == lines[..i];
      CrashIsFinal(r, lines, i + 1);
    }
  }

  // ---------------------------------------------------------------- printing, and reading back

  /** What lircd writes: a reply with or without data, the bare reply, or a key press. */
  datatype Item =
    | Packet(command: string, ok: bool, lines: seq<string>)   // no lines: no DATA block
    | Bare(command: string)
    | Key(code: string, repeat_: nat, button: string, remote: string)

  predicate WellFormed(it: Item) {
    match it
    case Packet(_, _, lines) => |lines| <= MAX_INT64
    case Bare(_) => true
    case Key(code, n, button, remote) => IsCode(code) && n <= MAX_INT64 && SpaceFree(button) && SpaceFree(remote)
  }

  function Status(ok: bool): string {
    if ok then "SUCCESS" else "ERROR"
  }

  function Print(it: Item): seq<string> {
    match it
    case Packet(command, ok, lines) =>
      ["BEGIN", command, Status(ok)] + (if lines == [] then [] else ["DATA", Itoa(|lines|)] + lines) + ["END"]
    case Bare(command) => ["BEGIN", command, "END"]
    case Key(code, n, button, remote) => [code + " " + (Itoa(n) + " " + (button + " " + remote))]
  }

  function Meaning(it: Item): Output {
    match it
    case Packet(command, ok, lines) => Sent(Reply(command, if ok then 1 else 0, |lines|, lines))
    case Bare(command) => Sent(Reply(command, 1, 0, []))
    case Key(_, n, button, remote) => Received(KeyEvent(n, button, remote))
  }

  function PrintAll(items: seq<Item>): seq<string> {
    if items == [] then [] else PrintAll(items[..|items| - 1]) + Print(items[|items| - 1])
  }

  function Meanings(items: seq<Item>): seq<Output> {
    seq(|items|, i requires 0 <= i < |items| => Meaning(items[i]))
  }

  lemma {:induction false} FeedAppend(r: Reader, a: seq<string>, b: seq<string>)
    ensures Feed(r, a + b) == Feed(Feed(r, a), b)
  {
    if b == [] {
      assert a + b == a;
    } else {
      FeedAppend(r, a, b[..|b| - 1]);
      assert (a + b)[..|a + b| - 1] == a + b[..|b| - 1];
    }
  }

  lemma FeedOne(r: Reader, line: string)
    ensures Feed(r, [line]) == Step(r, line)
  {
    assert [line][..0] == [];
    assert Feed(r, []) == r;
  }

  lemma FeedThree(r: Reader, a: string, b: string, c: string)
    ensures Feed(r, [a, b, c]) == Step(Step(Step(r, a), b), c)
  {
    FeedOne(r, a);
    FeedAppend(r, [a], [b]);
    FeedOne(Step(r, a), b);
    FeedAppend(r, [a] + [b], [c]);
    FeedOne(Step(Step(r, a), b), c);
    assert [a] + [b] + [c] == [a, b, c];
  }

  /** The lines of a DATA block are taken as they are, whatever they read. */
  lemma {:induction false} FeedData(r: Reader, lines: seq<string>)
    requires !r.crashed && r.state == DATA && r.dataCnt == 0 && r.message.data == [] && |lines| <= r.message.dataLength
    ensures Feed(r, lines) == r.(message := r.message.(data := lines), dataCnt := |lines|,
                                 state := if lines != [] && |lines| == r.message.dataLength then END else DATA)
  {
    if lines != [] {
      var init := lines[..|lines| - 1];
      FeedData(r, init);
      assert init + [lines[|lines| - 1]] == lines;
    }
  }

  lemma KeyFields(code: string, n: nat, button: string, remote: string)
    requires WellFormed(Key(code, n, button, remote))
    ensures Fields(Print(Key(code, n, button, remote))[0]) == [code, Itoa(n), button, remote]
  {
    var tail := button + " " + remote;
    assert SpaceFree(code) && SpaceFree(Itoa(n));
    FieldsOfOne(remote);
    FieldsOfJoin(button, remote);
    FieldsOfJoin(Itoa(n), tail);
    FieldsOfJoin(code, Itoa(n) + " " + tail);
  }

  lemma ReadKey(r: Reader, it: Item)
    requires it.Key? && WellFormed(it) && r.state == RECEIVE && !r.crashed
    ensures Feed(r, Print(it)) == r.(out := r.out + [Meaning(it)])
  {
    var line := Print(it)[0];
    KeyFields(it.code, it.repeat_, it.button, it.remote);
    AtoiOfItoa(it.repeat_);
    assert |line| > 5;
    assert |"BEGIN"| == 5;
    FeedOne(r, line);
    assert Print(it) == [line];
  }

  /** Reading one printed item emits its meaning and returns to RECEIVE. */
  lemma ReadItem(r: Reader, it: Item)
    requires WellFormed(it) && r.state == RECEIVE && !r.crashed
    ensures var s := Feed(r, Print(it)); s.state == RECEIVE && !s.crashed && s.out == r.out + [Meaning(it)]
  {
    match it
    case Key(_, _, _, _) => ReadKey(r, it);
    case Bare(command) => FeedThree(r, "BEGIN", command, "END");
    case Packet(command, ok, lines) =>
      FeedThree(r, "BEGIN", command, Status(ok));
      var s := Feed(r, ["BEGIN", command, Status(ok)]);
      var header := ["BEGIN", command, Status(ok)];
      assert s == r.(message := Reply(command, if ok then 1 else 0, 0, []), state := DATA_START);
      if lines == [] {
        FeedAppend(r, header, ["END"]);
        FeedOne(s, "END");
        assert header + [] + ["END"] == header + ["END"];
      } else {
        ReadDataBlock(s, lines);
        FeedAppend(r, header, ["DATA", Itoa(|lines|)] + lines + ["END"]);
        assert header + (["DATA", Itoa(|lines|)] + lines) + ["END"] == header + (["DATA", Itoa(|lines|)] + lines + ["END"]);
      }
  }

  lemma EnterData(s: Reader, n: nat)
    requires s.state == DATA_START && !s.crashed && n <= MAX_INT64
    ensures Feed(s, ["DATA", Itoa(n)]) == s.(state := DATA, dataCnt := 0, message := s.message.(dataLength := n))
  {
    AtoiOfItoa(n);
    FeedOne(s, "DATA");
    FeedAppend(s, ["DATA"], [Itoa(n)]);
    FeedOne(Step(s, "DATA"), Itoa(n));
    assert ["DATA"] + [Itoa(n)] == ["DATA", Itoa(n)];
  }

  lemma ReadDataLines(s: Reader, lines: seq<string>)
    requires s.state == DATA_START && !s.crashed && s.message.data == [] && 1 <= |lines| <= MAX_INT64
    ensures Feed(s, ["DATA", Itoa(|lines|)] + lines)
         == s.(state := END, dataCnt := |lines|, message := s.message.(dataLength := |lines|, data := lines))
  {
    var header := ["DATA", Itoa(|lines|)];
    EnterData(s, |lines|);
    FeedAppend(s, header, lines);
    FeedData(Feed(s, header), lines);
  }

  lemma EndOfBlock(s: Reader, block: seq<string>, t: Reader)
    requires Feed(s, block) == t && t.state == END && !t.crashed
    ensures Feed(s, block + ["END"]) == Emit(t)
  {
    FeedAppend(s, block, ["END"]);
    FeedOne(t, "END");
  }

  lemma ReadDataBlock(s: Reader, lines: seq<string>)
    requires s.state == DATA_START && !s.crashed && s.message.data == [] && 1 <= |lines| <= MAX_INT64
    ensures Feed(s, ["DATA", Itoa(|lines|)] + lines + ["END"])
         == s.(state := RECEIVE, dataCnt := |lines|, message := s.message.(dataLength := |lines|, data := lines),
               out := s.out + [Sent(s.message.(dataLength := |lines|, data := lines))])
  {
    ReadDataLines(s, lines);
    EndOfBlock(s, ["DATA", Itoa(|lines|)] + lines,
               s.(state := END, dataCnt := |lines|, message := s.message.(dataLength := |lines|, data := lines)));
  }

  lemma MeaningsSnoc(items: seq<Item>)
    requires items != []
    ensures Meanings(items) == Meanings(items[..|items| - 1]) + [Meaning(items[|items| - 1])]
  {
  }

  lemma ReadMore(r: Reader, it: Item, before: seq<string>, done: seq<Output>)
    requires WellFormed(it) && r == Feed(START, before) && r.state == RECEIVE && !r.crashed && r.out == done
    ensures var s := Feed(START, before + Print(it)); s.state == RECEIVE && !s.crashed && s.out == done + [Meaning(it)]
  {
    FeedAppend(START, before, Print(it));
    ReadItem(r, it);
  }

  /** Reading undoes printing: the same replies and key presses, in order, and the reader is ready again. */
  lemma {:induction false} RoundTrip(items: seq<Item>)
    requires forall it :: it in items ==> WellFormed(it)
    ensures var r := Feed(START, PrintAll(items));
            r.state == RECEIVE && !r.crashed && r.out == Meanings(items)
  {
    if items != [] {
      var init, last := items[..|items| - 1], items[|items| - 1];
      assert last in items && forall it :: it in init ==> it in items;
      RoundTrip(init);
      ReadMore(Feed(START, PrintAll(init)), last, PrintAll(init), Meanings(init));
      MeaningsSnoc(items);
    }
  }

  // ---------------------------------------------------------------- arbitrary input

  /** The message under construction agrees with the state. */
  ghost predicate Consistent(r: Reader) {
    var m := r.message;
    && (r.state == STATUS || r.state == DATA_START || r.state == DATA_LEN ==> m.data == [] && m.dataLength == 0)
    && (r.state == DATA ==> 0 <= r.dataCnt && if m.dataLength <= 0 then m.data == [] else |m.data| == r.dataCnt < m.dataLength)
    && (r.state == END ==> |m.data| == m.dataLength)
    && (forall o :: o in r.out && o.Sent? ==> |o.reply.data| == o.reply.dataLength && 0 <= o.reply.success <= 1)
    && 0 <= m.success <= 1
  }

  /**
   Whatever lines arrive, well-formed or not, every reply the reader sends carries exactly as many
   data lines as its length field says.
   */
  lemma {:induction false} EveryReplyConsistent(lines: seq<string>)
    ensures Consistent(Feed(START, lines))
    ensures forall o :: o in Feed(START, lines).out && o.Sent? ==> |o.reply.data| == o.reply.dataLength
  {
    if lines != [] {
      EveryReplyConsistent(lines[..|lines| - 1]);
    }
  }

  /** A line that the reader takes for a broadcast and that ends too early. */
  predicate ShortBroadcast(r: Reader, line: string) {
    !r.crashed && r.state == RECEIVE && IsCode(Fields(line)[0]) && |Fields(line)| < 4
  }

  lemma BeginIsNoCode()
    ensures !IsCode(Fields("BEGIN")[0])
  {
    FieldsOfOne("BEGIN");
  }

  lemma CrashStep(r: Reader, line: string)
    ensures Step(r, line).crashed <==> r.crashed || ShortBroadcast(r, line)
  {
    BeginIsNoCode();
  }

  predicate ShortAt(lines: seq<string>, k: nat) {
    k < |lines| && ShortBroadcast(Feed(START, lines[..k]), lines[k])
  }

  lemma ShortAtSnoc(init: seq<string>, line: string, k: nat)
    ensures ShortAt(init + [line], k) <==> ShortAt(init, k) || (k == |init| && ShortBroadcast(Feed(START, init), line))
  {
    var lines := init + [line];
    if k < |init| {
      assert lines[..k] == init[..k] && lines[k] == init[k];
    } else if k == |init| {
      assert lines[..k] == init;
    }
  }

  lemma CrashedSnoc(init: seq<string>, line: string)
    ensures Feed(START, init + [line]).crashed <==> Feed(START, init).crashed || ShortBroadcast(Feed(START, init), line)
  {
    assert (init + [line])[..|init|] == init;
    CrashStep(Feed(START, init), line);
  }

  /**
   The reader crashes exactly when some line that it reads in RECEIVE has a code of sixteen hex digits
   and fewer than four fields.
   */
  lemma {:induction false} CrashesIff(lines: seq<string>)
    ensures Feed(START, lines).crashed <==> exists k: nat :: ShortAt(lines, k)
  {
    if lines == [] {
      assert forall k: nat :: !ShortAt(lines, k);
    } else {
      var init, line := lines[..|lines| - 1], lines[|lines| - 1];
      CrashesIff(init);
      CrashedSnoc(init, line);
      assert lines == init + [line];
      forall k: nat ensures ShortAt(lines, k) <==> ShortAt(init, k) || (k == |init| && ShortBroadcast(Feed(START, init), line)) {
        ShortAtSnoc(init, line, k);
      }
      assert ShortBroadcast(Feed(START, init), line) ==> ShortAt(lines, |init|);
      assert forall k: nat :: ShortAt(init, k) ==> ShortAt(lines, k);
    }
  }

  lemma {:induction false} StuckInData(r: Reader, lines: seq<string>)
    requires r.state == DATA && !r.crashed && r.message.dataLength <= 0 <= r.dataCnt
    ensures Feed(r, lines) == r.(dataCnt := r.dataCnt + |lines|)
  {
    if lines != [] {
      var init := lines[..|lines| - 1];
      StuckInData(r, init);
      assert Feed(r, lines) == Step(Feed(r, init), lines[|lines| - 1]);
    }
  }

  /** A DATA block ever ends, on some continuation, exactly when its declared length is at least one. */
  lemma DataBlockEndsIff(r: Reader)
    requires r.state == DATA && !r.crashed && r.dataCnt == 0 && r.message.data == []
    ensures (exists lines :: Feed(r, lines).state != DATA) <==> r.message.dataLength >= 1
  {
    if r.message.dataLength >= 1 {
      var lines := seq(r.message.dataLength, _ => "");
      FeedData(r, lines);
      assert Feed(r, lines).state != DATA;
    } else {
      forall lines ensures Feed(r, lines).state == DATA { StuckInData(r, lines); }
    }
  }

  // ---------------------------------------------------------------- one more line, whatever it is

  lemma CodesAre(s: string)
    ensures IsCode(s) <==> |s| == 16 && forall c :: c in s ==> c in "0123456789abcdefABCDEF"
  {
    forall i | 0 <= i < |s| ensures s[i] in s && (IsHex(s[i]) <==> s[i] in "0123456789abcdefABCDEF") {}
  }

  lemma OneMoreLine(lines: seq<string>, line: string)
    ensures Feed(START, lines + [line]) == Step(Feed(START, lines), line)
  {
    assert (lines + [line])[..|lines|] == lines;
  }

  /**
   A broadcast is never dropped, whatever its repeat count: after any lines, a line read in RECEIVE
   with a code and at least three more fields sends exactly one key press, of the third and fourth
   field; a count that is no number at all is sent as zero.
   */
  lemma BroadcastIsSent(lines: seq<string>, line: string)
    requires var r := Feed(START, lines); r.state == RECEIVE && !r.crashed
    requires IsCode(Fields(line)[0]) && |Fields(line)| >= 4
    ensures var r, s, f := Feed(START, lines), Feed(START, lines + [line]), Fields(line);
            && s.state == RECEIVE && !s.crashed && s.message == r.message && |s.out| == |r.out| + 1 && r.out <= s.out
            && var o := s.out[|r.out|];
            && o.Received? && o.event.button == f[2] && o.event.remote == f[3] && o.event.repeat_ == Atoi(f[1]).value
            && (forall n: nat :: n <= MAX_INT64 && f[1] == Itoa(n) ==> o.event.repeat_ == n)
            && (f[1] == "" || (exists i :: 0 <= i < |f[1]| && !IsDigit(f[1][i]) && f[1][i] != '+' && f[1][i] != '-') ==> o.event.repeat_ == 0)
  {
    var f := Fields(line);
    OneMoreLine(lines, line);
    BeginIsNoCode();
    forall n: nat | n <= MAX_INT64 && f[1] == Itoa(n) ensures Atoi(f[1]).value == n { AtoiOfItoa(n); }
    if f[1] == "" || exists i :: 0 <= i < |f[1]| && !IsDigit(f[1][i]) && f[1][i] != '+' && f[1][i] != '-' {
      AtoiOfOther(f[1]);
    }
  }

  /** Any other line read in RECEIVE than BEGIN and a broadcast is ignored. */
  lemma OtherLineIsIgnored(lines: seq<string>, line: string)
    requires var r := Feed(START, lines); r.state == RECEIVE && !r.crashed
    requires line != "BEGIN" && !IsCode(Fields(line)[0])
    ensures Feed(START, lines + [line]) == Feed(START, lines)
  {
    OneMoreLine(lines, line);
  }

  /** A line that does not belong where it stands. */
  predicate Misplaced(state: State, line: string) {
    match state
    case STATUS => line != "SUCCESS" && line != "ERROR" && line != "END"
    case DATA_START => line != "DATA" && line != "END"
    case DATA_LEN => !Atoi(line).ok
    case END => line != "END"
    case _ => false
  }

  /** It ends the packet: nothing is sent, and the reader is back where packets and broadcasts begin. */
  lemma MisplacedLineEndsPacket(lines: seq<string>, line: string)
    requires var r := Feed(START, lines); !r.crashed && Misplaced(r.state, line)
    ensures var s := Feed(START, lines + [line]); s.state == RECEIVE && !s.crashed && s.out == Feed(START, lines).out
  {
    OneMoreLine(lines, line);
  }

  /** A reply is sent exactly at an END line that stands where a packet can end; no other line sends one. */
  lemma ReplyIsSentIff(lines: seq<string>, line: string)
    ensures var r, s := Feed(START, lines), Feed(START, lines + [line]);
            (exists m :: s.out == r.out + [Sent(m)]) <==> !r.crashed && line == "END" && r.state in {STATUS, DATA_START, END}
  {
    var r := Feed(START, lines);
    OneMoreLine(lines, line);
    if !r.crashed && line == "END" && r.state in {STATUS, DATA_START, END} {
      assert Step(r, line).out == r.out + [Sent(Step(r, line).message)];
    } else {
      NoReply(r, line);
    }
  }

  lemma NoReply(r: Reader, line: string)
    requires r.crashed || line != "END" || r.state !in {STATUS, DATA_START, END}
    ensures forall m :: Step(r, line).out != r.out + [Sent(m)]
  {
    var t := Step(r, line);
    if |t.out| == |r.out| + 1 { assert t.out[|r.out|].Received?; }
  }
}
