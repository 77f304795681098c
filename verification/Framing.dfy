/** Radio framing: what it means to cut a stream of bytes at 0x00, and that there is only one way. */
module Framing {

  newtype byte = x: int | 0 <= x < 256

  type Bytes = seq<byte>

  const READ_BUFFER_SIZE := 1024
  const FRAME_CHAN_CAPACITY := 10

  /** A frame ends in its only zero byte. */
  ghost predicate IsFrame(f: Bytes) {
    f != [] && f[|f| - 1] == 0 && ZeroFree(f[..|f| - 1])
  }

  ghost predicate ZeroFree(b: Bytes) {
    forall i :: 0 <= i < |b| ==> b[i] != 0
  }

  function Concat(frames: seq<Bytes>): Bytes {
    if frames == [] then [] else Concat(frames[..|frames| - 1]) + frames[|frames| - 1]
  }

  lemma {:induction false} ConcatAppend(a: seq<Bytes>, b: seq<Bytes>)
    ensures Concat(a + b) == Concat(a) + Concat(b)
  {
    if b == [] {
      assert a + b == a;
    } else {
      ConcatAppend(a, b[..|b| - 1]);
      assert (a + b)[..|a + b| - 1] == a + b[..|b| - 1];
    }
  }

  /** The frames of a whole stream, and what follows the last zero. */
  ghost predicate IsSplit(stream: Bytes, frames: seq<Bytes>, rest: Bytes) {
    Concat(frames) + rest == stream && (forall f :: f in frames ==> IsFrame(f)) && ZeroFree(rest)
  }

  /** A stream has only one split. */
  lemma {:induction false} SplitUnique(stream: Bytes, f1: seq<Bytes>, r1: Bytes, f2: seq<Bytes>, r2: Bytes)
    requires IsSplit(stream, f1, r1) && IsSplit(stream, f2, r2)
    ensures f1 == f2 && r1 == r2
    decreases |f1|
  {
    RestUnique(stream, f1, r1, f2, r2);
    if f1 == [] || f2 == [] {
      EmptyFrames(f1);
      EmptyFrames(f2);
    } else {
      var g1, g2 := f1[..|f1| - 1], f2[..|f2| - 1];
      var l1, l2 := f1[|f1| - 1], f2[|f2| - 1];
      assert l1 in f1 && l2 in f2;
      var body := stream[..|stream| - |r1|];
      assert body == Concat(f1) == Concat(f2);
      var b := body[..|body| - 1];
      var t1, t2 := l1[..|l1| - 1], l2[..|l2| - 1];
      assert b == Concat(g1) + t1 && b == Concat(g2) + t2;
      assert IsSplit(b, g1, t1) && IsSplit(b, g2, t2);
      SplitUnique(b, g1, t1, g2, t2);
      assert l1 == t1 + [0] && l2 == t2 + [0];
      assert f1 == g1 + [l1] && f2 == g2 + [l2];
    }
  }

  lemma EmptyFrames(f: seq<Bytes>)
    requires forall x :: x in f ==> IsFrame(x)
    ensures Concat(f) == [] <==> f == []
  {
    if f != [] { assert f[|f| - 1] in f; }
  }

  lemma RestUnique(stream: Bytes, f1: seq<Bytes>, r1: Bytes, f2: seq<Bytes>, r2: Bytes)
    requires IsSplit(stream, f1, r1) && IsSplit(stream, f2, r2)
    ensures |r1| == |r2| && r1 == r2 && Concat(f1) == Concat(f2)
  {
    EndsInZero(stream, f1, r1, r2);
    EndsInZero(stream, f2, r2, r1);
    assert r1 == stream[|stream| - |r1|..] && r2 == stream[|stream| - |r2|..];
    assert Concat(f1) == stream[..|stream| - |r1|] && Concat(f2) == stream[..|stream| - |r2|];
  }

  lemma LastZero(stream: Bytes, f: seq<Bytes>, r: Bytes)
    requires IsSplit(stream, f, r) && f != []
    ensures |r| < |stream| && stream[|stream| - |r| - 1] == 0
  {
    var c, l := Concat(f), f[|f| - 1];
    assert l in f;
    assert c[|c| - 1] == l[|l| - 1];
  }

  /** A zero-free suffix of the stream is no longer than the rest of a split. */
  lemma EndsInZero(stream: Bytes, f: seq<Bytes>, r: Bytes, suffix: Bytes)
    requires IsSplit(stream, f, r) && |suffix| <= |stream| && stream[|stream| - |suffix|..] == suffix && ZeroFree(suffix)
    ensures |suffix| <= |r|
  {
    var d := |stream| - |suffix|;
    assert forall j :: d <= j < |stream| ==> stream[j] == suffix[j - d] && stream[j] != 0;
    if f != [] { LastZero(stream, f, r); }
  }

  lemma CloseFrame(stream: Bytes, frames: seq<Bytes>, rest: Bytes)
    requires IsSplit(stream, frames, rest)
    ensures IsSplit(stream + [0], frames + [rest + [0]], [])
  {
    var f := rest + [0];
    assert f[..|f| - 1] == rest;
    assert (frames + [f])[..|frames|] == frames;
    assert Concat(frames + [f]) == Concat(frames) + f;
    assert Concat(frames) + (rest + [0]) + [] == (Concat(frames) + rest) + [0];
  }

  lemma ExtendRest(stream: Bytes, frames: seq<Bytes>, rest: Bytes, b: byte)
    requires IsSplit(stream, frames, rest) && b != 0
    ensures IsSplit(stream + [b], frames, rest + [b])
  {
    assert Concat(frames) + (rest + [b]) == (Concat(frames) + rest) + [b];
  }

  /** Splitting more bytes after what an earlier split has left over. */
  lemma SplitJoin(s1: Bytes, f1: seq<Bytes>, r1: Bytes, s2: Bytes, f2: seq<Bytes>, r2: Bytes)
    requires IsSplit(s1, f1, r1) && IsSplit(r1 + s2, f2, r2)
    ensures IsSplit(s1 + s2, f1 + f2, r2)
  {
    ConcatAppend(f1, f2);
    assert Concat(f1) + Concat(f2) + r2 == Concat(f1) + (Concat(f2) + r2);
    assert Concat(f1) + (r1 + s2) == (Concat(f1) + r1) + s2;
    assert forall f :: f in f1 + f2 ==> f in f1 || f in f2;
  }

  // ---------------------------------------------------------------- one-shot splitting

  datatype Split = Split(frames: seq<Bytes>, rest: Bytes)

  /** The split of a whole stream at once. */
  function SplitStream(stream: Bytes): (s: Split)
    ensures IsSplit(stream, s.frames, s.rest)
  {
    if stream == [] then
      Split([], [])
    else
      var p, b := SplitStream(stream[..|stream| - 1]), stream[|stream| - 1];
      assert stream == stream[..|stream| - 1] + [b];
      if b == 0 then
        CloseFrame(stream[..|stream| - 1], p.frames, p.rest);
        Split(p.frames + [p.rest + [0]], [])
      else
        ExtendRest(stream[..|stream| - 1], p.frames, p.rest, b);
        Split(p.frames, p.rest + [b])
  }
}
