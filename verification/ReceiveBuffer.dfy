/**
 The receive side of the radio hook. Its buffer is a Go slice: a window on an array, in which appends
 may write behind the window. The frames it hands over are windows on the same arrays.
 */
module ReceiveBuffer {
  import opened Framing

  datatype Window = Window(arr: array<byte>, lo: nat, hi: nat) {
    predicate InBounds() {
      lo <= hi <= arr.Length
    }
  }

  /**
   The windows still read as `frames`, and no append behind `limit` on `arr` can change that: each
   lies before the limit, or on another array.
   */
  ghost predicate StillRead(windows: seq<Window>, frames: seq<Bytes>, arr: array<byte>, limit: nat)
    reads set w | w in windows :: w.arr
  {
    && |frames| == |windows|
    && forall k :: 0 <= k < |windows| ==>
         && windows[k].InBounds() && (windows[k].arr == arr ==> windows[k].hi <= limit)
         && windows[k].arr[windows[k].lo..windows[k].hi] == frames[k]
  }

  lemma OneMoreWindow(windows: seq<Window>, frames: seq<Bytes>, arr: array<byte>, limit: nat, w: Window)
    requires StillRead(windows, frames, arr, limit) && w.arr == arr && w.InBounds() && limit <= w.hi
    ensures StillRead(windows + [w], frames + [arr[w.lo..w.hi]], arr, w.hi)
  {
  }

  lemma SliceJoin<T>(s: seq<T>, lo: nat, mid: nat, hi: nat)
    requires lo <= mid <= hi <= |s|
    ensures s[lo..hi] == s[lo..mid] + s[mid..hi]
  {
  }

  lemma SliceOfSlice<T>(s: seq<T>, lo: nat, hi: nat, start: nat, end: nat)
    requires lo <= hi <= |s| && start <= end <= hi - lo
    ensures s[lo..hi][start..end] == s[lo + start..lo + end]
  {
    var a, b := s[lo..hi][start..end], s[lo + start..lo + end];
    assert |a| == |b| == end - start;
    forall k | 0 <= k < |a| ensures a[k] == b[k] {
      assert a[k] == s[lo..hi][start + k] == s[lo + (start + k)];
    }
  }

  class Hook {
    var arr: array<byte>
    var lo: nat
    var hi: nat
    var handed: seq<Window>
    ghost var frames: seq<Bytes>

    /** `frames` are the bytes of each frame as they were when it was handed over. */
    ghost predicate Valid()
      reads this, arr, set w | w in handed :: w.arr
    {
      lo <= hi <= arr.Length && StillRead(handed, frames, arr, lo)
    }

    /** The bytes of an incomplete frame. */
    ghost function Buf(): Bytes
      reads this, arr
      requires lo <= hi <= arr.Length
    {
      arr[lo..hi]
    }

    constructor ()
      ensures Valid() && Buf() == [] && frames == [] && fresh(arr)
    {
      arr := new byte[0];
      lo, hi, handed, frames := 0, 0, [], [];
    }

    /** A new array for the buffer. */
    method Grow(capacity: nat)
      requires Valid() && hi - lo <= capacity
      modifies this`arr, this`lo, this`hi
      ensures Valid() && Buf() == old(Buf()) && fresh(arr) && arr.Length == capacity && lo == 0
    {
      var wider := new byte[capacity];
      forall k | 0 <= k < hi - lo {
        wider[k] := arr[lo + k];
      }
      assert wider[0..hi - lo] == arr[lo..hi] by {
        assert forall k :: 0 <= k < hi - lo ==> wider[0..hi - lo][k] == wider[k] && arr[lo..hi][k] == arr[lo + k];
      }
      assert forall w :: w in handed ==> w.arr != wider;
      arr, lo, hi := wider, 0, hi - lo;
    }

    /** The write behind the window touches nothing that was handed over. */
    method WriteBehind(tbuf: Bytes)
      requires Valid() && hi + |tbuf| <= arr.Length
      modifies arr
      ensures Valid() && Buf() == old(Buf()) && arr[hi..hi + |tbuf|] == tbuf
    {
      forall k | 0 <= k < |tbuf| {
        arr[hi + k] := tbuf[k];
      }
    }

    /** append(r.buf, tbuf...): in place when there is room, else in a new array with some places to spare. */
    method Append(tbuf: Bytes)
      requires Valid()
      modifies this`arr, this`lo, this`hi, arr
      ensures Valid() && Buf() == old(Buf()) + tbuf && (arr == old(arr) || fresh(arr))
    {
      if hi + |tbuf| > arr.Length {
        var spare: nat :| 0 <= spare;
        Grow(hi - lo + |tbuf| + spare);
      }
      WriteBehind(tbuf);
      SliceJoin(arr[..], lo, hi, hi + |tbuf|);
      assert arr[..][lo..hi] == arr[lo..hi] && arr[..][hi..hi + |tbuf|] == arr[hi..hi + |tbuf|];
      assert arr[..][lo..hi + |tbuf|] == arr[lo..hi + |tbuf|];
      hi := hi + |tbuf|;
    }

    /** One read from the radio. Scanning starts at the new bytes: the old ones hold no zero. */
    method Receive(tbuf: Bytes)
      requires Valid() && ZeroFree(Buf())
      modifies this, arr
      ensures Valid() && ZeroFree(Buf()) && (arr == old(arr) || fresh(arr))
      ensures old(frames) <= frames && old(handed) <= handed
      ensures IsSplit(old(Buf()) + tbuf, frames[|old(frames)|..], Buf())
    {
      if |tbuf| == 0 {
        assert frames[|frames|..] == [];
        return;
      }
      ghost var before := frames;
      var prevEnd := hi - lo;
      Append(tbuf);
      assert Buf()[..prevEnd] == old(Buf());
      ghost var buf := Buf();
      var curFrameStart, out := ExtractFrames(prevEnd);
      assert frames[|before|..] == out;
      KeepRest(curFrameStart);
    }

    /** What follows the last frame is saved for the next read. */
    method KeepRest(curFrameStart: nat)
      requires lo <= hi <= arr.Length && lo + curFrameStart <= hi && StillRead(handed, frames, arr, lo + curFrameStart)
      modifies this`arr, this`lo, this`hi
      ensures Valid() && Buf() == old(Buf()[curFrameStart..]) && (arr == old(arr) || fresh(arr))
    {
      if lo + curFrameStart >= hi {
        arr, lo, hi := new byte[0], 0, 0;
      } else {
        lo := lo + curFrameStart;
      }
    }

    /** A frame goes into the channel. */
    method HandOver(start: nat, end: nat)
      requires lo <= hi <= arr.Length && start <= end <= hi - lo && StillRead(handed, frames, arr, lo + start)
      modifies this`handed, this`frames
      ensures old(handed) <= handed && frames == old(frames) + [Buf()[start..end]]
      ensures StillRead(handed, frames, arr, lo + end)
    {
      var w := Window(arr, lo + start, lo + end);
      OneMoreWindow(handed, frames, arr, lo + start, w);
      SliceOfSlice(arr[..], lo, hi, start, end);
      assert arr[..][lo..hi] == Buf() && arr[..][w.lo..w.hi] == arr[w.lo..w.hi];
      handed, frames := handed + [w], frames + [Buf()[start..end]];
    }

    /** One byte of the loop: a frame that ends here is handed over. */
    method ScanByte(start: nat, i: nat, ghost out: seq<Bytes>) returns (start': nat, ghost out': seq<Bytes>)
      requires lo <= hi <= arr.Length && i < hi - lo && StillRead(handed, frames, arr, lo + start)
      requires Scanned(Buf(), start, i, out)
      modifies this`handed, this`frames
      ensures StillRead(handed, frames, arr, lo + start') && Scanned(Buf(), start', i + 1, out')
      ensures old(handed) <= handed && out <= out' && frames == old(frames) + out'[|out|..]
    {
      ScanStep(Buf(), start, i, out);
      start', out' := start, out;
      if arr[lo + i] == 0x00 {
        HandOver(start, i + 1);
        start', out' := i + 1, out + [Buf()[start..i + 1]];
      }
    }

    /** The loop over the new bytes; `start` is where the incomplete frame begins. */
    method ExtractFrames(prevEnd: nat) returns (start: nat, ghost out: seq<Bytes>)
      requires Valid() && prevEnd <= |Buf()| && ZeroFree(Buf()[..prevEnd])
      modifies this`handed, this`frames
      ensures lo <= hi <= arr.Length && start <= |Buf()| && StillRead(handed, frames, arr, lo + start)
      ensures old(handed) <= handed && frames == old(frames) + out && IsSplit(Buf(), out, Buf()[start..])
    {
      ghost var buf, was, before := Buf(), handed, frames;
      start, out := 0, [];
      ScanStart(buf, prevEnd);
      for i := prevEnd to hi - lo
        invariant buf == Buf() && was <= handed && frames == before + out
        invariant StillRead(handed, frames, arr, lo + start) && Scanned(buf, start, i, out)
      {
        ghost var sofar := out;
        start, out := ScanByte(start, i, out);
        assert out == sofar + out[|sofar|..];
      }
      ScanEnd(buf, start, out);
    }
  }

  /** The first `i` bytes have been split; an incomplete frame begins at `start`. */
  ghost predicate Scanned(buf: Bytes, start: nat, i: nat, out: seq<Bytes>) {
    start <= i <= |buf| && IsSplit(buf[..i], out, buf[start..i])
  }

  lemma ScanEnd(buf: Bytes, start: nat, out: seq<Bytes>)
    requires Scanned(buf, start, |buf|, out)
    ensures IsSplit(buf, out, buf[start..])
  {
    assert buf[..|buf|] == buf && buf[start..|buf|] == buf[start..];
  }

  lemma ScanStart(buf: Bytes, i: nat)
    requires i <= |buf| && ZeroFree(buf[..i])
    ensures Scanned(buf, 0, i, [])
  {
    assert buf[0..i] == buf[..i] == [] + buf[..i];
  }

  lemma ScanStep(buf: Bytes, start: nat, i: nat, out: seq<Bytes>)
    requires i < |buf| && Scanned(buf, start, i, out)
    ensures if buf[i] == 0 then Scanned(buf, i + 1, i + 1, out + [buf[start..i + 1]]) else Scanned(buf, start, i + 1, out)
  {
    assert buf[..i + 1] == buf[..i] + [buf[i]] && buf[start..i + 1] == buf[start..i] + [buf[i]];
    if buf[i] == 0 {
      CloseFrame(buf[..i], out, buf[start..i]);
      assert buf[i + 1..i + 1] == [];
    } else {
      ExtendRest(buf[..i], out, buf[start..i], buf[i]);
    }
  }

  /** The hook has handed over the frames of the first `k` reads and kept what follows. */
  ghost predicate HasRead(h: Hook, chunks: seq<Bytes>, k: nat)
    reads h, h.arr, set w | w in h.handed :: w.arr
  {
    k <= |chunks| && h.Valid() && ZeroFree(h.Buf()) && IsSplit(Concat(chunks[..k]), h.frames, h.Buf())
  }

  method ReceiveNext(h: Hook, chunks: seq<Bytes>, k: nat)
    requires k < |chunks| && HasRead(h, chunks, k)
    modifies h, h.arr
    ensures HasRead(h, chunks, k + 1) && (h.arr == old(h.arr) || fresh(h.arr))
  {
    ghost var before, left := h.frames, h.Buf();
    h.Receive(chunks[k]);
    SplitNext(chunks, k, before, left, h.frames[|before|..], h.Buf());
    assert before + h.frames[|before|..] == h.frames;
  }

  /** Any sequence of reads by a fresh hook. */
  method ReceiveChunks(chunks: seq<Bytes>) returns (h: Hook)
    ensures fresh(h) && HasRead(h, chunks, |chunks|)
  {
    h := new Hook();
    assert IsSplit([], [], []) && chunks[..0] == [];
    for k := 0 to |chunks|
      invariant fresh(h) && fresh(h.arr) && HasRead(h, chunks, k)
    {
      ReceiveNext(h, chunks, k);
    }
  }

  /**
   Chunking independence: a fresh hook fed any sequence of reads, however its buffer grows at each
   of them, has handed over the frames of the whole stream and keeps what follows the last zero; how
   the radio cut the stream makes no difference. Every frame still reads as it was handed over.
   */
  method ReceiveAll(chunks: seq<Bytes>) returns (frames: seq<Bytes>, rest: Bytes)
    ensures IsSplit(Concat(chunks), frames, rest)
    ensures forall f, r :: IsSplit(Concat(chunks), f, r) ==> f == frames && r == rest
  {
    var h := ReceiveChunks(chunks);
    assert chunks[..|chunks|] == chunks;
    frames := ReadWindows(h.handed, h.frames, h.arr, h.lo);
    rest := h.arr[h.lo..h.hi];
    OnlySplit(Concat(chunks), frames, rest);
  }

  lemma OnlySplit(stream: Bytes, frames: seq<Bytes>, rest: Bytes)
    requires IsSplit(stream, frames, rest)
    ensures forall f, r :: IsSplit(stream, f, r) ==> f == frames && r == rest
  {
    forall f, r | IsSplit(stream, f, r) ensures f == frames && r == rest {
      SplitUnique(stream, f, r, frames, rest);
    }
  }

  lemma SplitNext(chunks: seq<Bytes>, k: nat, before: seq<Bytes>, left: Bytes, more: seq<Bytes>, rest: Bytes)
    requires k < |chunks| && IsSplit(Concat(chunks[..k]), before, left) && IsSplit(left + chunks[k], more, rest)
    ensures IsSplit(Concat(chunks[..k + 1]), before + more, rest)
  {
    SplitJoin(Concat(chunks[..k]), before, left, chunks[k], more, rest);
    assert chunks[..k + 1][..k] == chunks[..k];
  }

  /** The frames as whoever took them out of the channel reads them. */
  method ReadWindows(windows: seq<Window>, ghost frames: seq<Bytes>, arr: array<byte>, limit: nat) returns (r: seq<Bytes>)
    requires StillRead(windows, frames, arr, limit)
    ensures r == frames
  {
    r := [];
    for k := 0 to |windows|
      invariant r == frames[..k]
    {
      var w := windows[k];
      r := r + [w.arr[w.lo..w.hi]];
    }
    assert frames[..|windows|] == frames;
  }
}
