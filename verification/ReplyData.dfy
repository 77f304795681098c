/**
 The data lines of LIRC replies share an array. The reader empties its slice for the next packet but
 keeps the array, so a reply that was delivered earlier can change under whoever holds it.
 */
module ReplyData {

  /** The first lines of `old` replaced by those of `new`, as many as there are. */
  function Over<T>(new_: seq<T>, old_: seq<T>): (r: seq<T>)
    ensures |r| == |old_|
  {
    if |new_| >= |old_| then new_[..|old_|] else new_ + old_[|new_|..]
  }

  /** The earlier reply survives exactly when the later block repeats its lines, as far as both go. */
  lemma OverKeepsIff<T>(new_: seq<T>, old_: seq<T>)
    ensures Over(new_, old_) == old_ <==> forall i :: 0 <= i < |new_| && i < |old_| ==> new_[i] == old_[i]
  {
    if Over(new_, old_) == old_ {
      forall i | 0 <= i < |new_| && i < |old_| ensures new_[i] == old_[i] {
        assert Over(new_, old_)[i] == new_[i];
      }
    }
    if forall i :: 0 <= i < |new_| && i < |old_| ==> new_[i] == old_[i] {
      forall i | 0 <= i < |old_| ensures Over(new_, old_)[i] == old_[i] {}
    }
  }

  /** Appending one more line of the new block. */
  lemma OverOneMore<T>(new_: seq<T>, old_: seq<T>, x: T)
    requires |new_| < |old_|
    ensures Over(new_ + [x], old_) == Over(new_, old_)[|new_| := x]
  {
  }

  lemma OverCut<T>(new_: seq<T>, old_: seq<T>, n: nat)
    requires n <= |old_|
    ensures Over(new_, old_)[..n] == Over(new_, old_[..n])
  {
  }

  lemma OverFull<T>(new_: seq<T>, old_: seq<T>, x: T)
    requires |new_| >= |old_|
    ensures Over(new_ + [x], old_) == Over(new_, old_)
  {
  }

  /** message.Data: its array and how many lines are in it. */
  class LineSlice {
    var arr: array<string>
    var len: nat

    ghost predicate Valid()
      reads this
    {
      len <= arr.Length
    }

    ghost function Lines(): seq<string>
      reads this, arr
      requires Valid()
    {
      arr[..len]
    }

    constructor ()
      ensures Valid() && Lines() == [] && fresh(arr)
    {
      arr, len := new string[0], 0;
    }

    /** append(message.Data, line): in place when there is room, else in a new array with some places to spare. */
    method Append(line: string)
      requires Valid()
      modifies this, arr
      ensures Valid() && Lines() == old(Lines()) + [line]
      ensures if old(len) < old(arr).Length
              then arr == old(arr) && arr[..] == old(arr[..])[old(len) := line]
              else fresh(arr) && old(arr)[..] == old(arr[..])
    {
      if len == arr.Length {
        ghost var before := Lines();
        var spare: nat :| 0 <= spare;
        var wider := new string[len + 1 + spare];
        forall k | 0 <= k < len {
          wider[k] := arr[k];
        }
        arr := wider;
        assert arr[..len] == before;
      }
      arr[len] := line;
      len := len + 1;
    }

    /** A packet's lines: the slice is emptied, the array is kept, and the lines are appended. */
    method Refill(lines: seq<string>)
      requires Valid()
      modifies this, arr
      ensures Valid() && Lines() == lines && if |lines| <= old(arr).Length then arr == old(arr) else fresh(arr)
      ensures old(arr)[..] == Over(lines, old(arr[..]))
    {
      ghost var a, before := arr, arr[..];
      len := 0;
      for i := 0 to |lines|
        invariant Valid() && Lines() == lines[..i] && a[..] == Over(lines[..i], before)
        invariant if i <= a.Length then arr == a else fresh(arr)
      {
        assert lines[..i + 1] == lines[..i] + [lines[i]];
        if i < a.Length { OverOneMore(lines[..i], before, lines[i]); } else { OverFull(lines[..i], before, lines[i]); }
        Append(lines[i]);
      }
      assert lines[..|lines|] == lines;
    }
  }

  /**
   Whatever was read before, a reply whose lines were `first` when it was delivered reads as the next
   packet's lines laid over them once that packet has been read, however the array grows each time.
   */
  method NextPacketShowsThrough(history: seq<seq<string>>, first: seq<string>, second: seq<string>)
    returns (delivered: seq<string>, later: seq<string>)
    ensures delivered == first && later == Over(second, first)
  {
    var s := new LineSlice();
    for k := 0 to |history|
      invariant s.Valid() && fresh(s) && fresh(s.arr)
    {
      s.Refill(history[k]);
    }
    s.Refill(first);
    var arr, len := s.arr, s.len;
    delivered := arr[..len];
    ghost var mem := arr[..];
    s.Refill(second);
    OverCut(second, mem, len);
    assert mem[..len] == first;
    later := arr[..len];
  }

  /** Packet after packet laid over the delivered lines. */
  function OverAll<T>(old_: seq<T>, laters: seq<seq<T>>): (r: seq<T>)
    ensures |r| == |old_|
  {
    if laters == [] then old_ else Over(laters[|laters| - 1], OverAll(old_, laters[..|laters| - 1]))
  }

  /**
   After `k` later packets a reply of `len` lines in `arr` reads as the first `j` of them laid over it.
   Either the slice still has that array, or the last of the `j` did not fit into it.
   */
  ghost predicate ReadsAs(s: LineSlice, arr: array<string>, len: nat, first: seq<string>, laters: seq<seq<string>>, k: nat, j: nat)
    reads s, arr
  {
    && s.Valid() && len <= arr.Length && j <= k <= |laters|
    && (if s.arr == arr then j == k else j > 0 && |laters[j - 1]| > arr.Length)
    && arr[..len] == OverAll(first, laters[..j])
  }

  lemma OverAllNext<T>(old_: seq<T>, laters: seq<seq<T>>, k: nat)
    requires k < |laters|
    ensures OverAll(old_, laters[..k + 1]) == Over(laters[k], OverAll(old_, laters[..k]))
  {
    assert laters[..k + 1][..k] == laters[..k];
  }

  method LaterPacket(s: LineSlice, arr: array<string>, len: nat, first: seq<string>, laters: seq<seq<string>>, k: nat, ghost j: nat)
    returns (ghost j': nat)
    requires k < |laters| && ReadsAs(s, arr, len, first, laters, k, j)
    modifies s, s.arr
    ensures ReadsAs(s, arr, len, first, laters, k + 1, j') && (s.arr == old(s.arr) || fresh(s.arr))
  {
    j' := if s.arr == arr then k + 1 else j;
    ghost var mem := arr[..];
    OverCut(laters[k], mem, len);
    OverAllNext(first, laters, k);
    assert mem[..len] == arr[..len];
    s.Refill(laters[k]);
    assert arr[..][..len] == arr[..len];
  }

  /**
   After any number of later packets the delivered reply reads as the first `j` of them laid over it,
   one after the other. The others found another array: the last of the `j` was longer than the reply.
   */
  method LaterPacketsShowThrough(history: seq<seq<string>>, first: seq<string>, laters: seq<seq<string>>)
    returns (delivered: seq<string>, later: seq<string>, ghost j: nat)
    ensures delivered == first && j <= |laters| && later == OverAll(first, laters[..j])
    ensures j < |laters| ==> j > 0 && |laters[j - 1]| > |first|
  {
    var s := new LineSlice();
    for k := 0 to |history|
      invariant s.Valid() && fresh(s) && fresh(s.arr)
    {
      s.Refill(history[k]);
    }
    s.Refill(first);
    var arr, len := s.arr, s.len;
    delivered, j := arr[..len], 0;
    for k := 0 to |laters|
      invariant fresh(s) && fresh(s.arr) && ReadsAs(s, arr, len, first, laters, k, j)
    {
      j := LaterPacket(s, arr, len, first, laters, k, j);
    }
    later := arr[..len];
  }
}
