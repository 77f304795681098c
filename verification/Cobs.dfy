/**
 A codec that meets the contract the radio path relies on: Consistent Overhead Byte Stuffing with a
 zero byte after each packet. Each block is a code byte and the code minus one non-zero bytes; a code
 below 255 stands for a zero after the block, except after the last one.
 */
module Cobs {
  import opened Framing
  import opened RadioPath

  /** Number of non-zero bytes at the front, up to the 254 that fit in one block. */
  function RunLength(p: Bytes, max: nat): (n: nat)
    ensures n <= |p| && n <= max && ZeroFree(p[..n])
    ensures n == max || n == |p| || p[n] == 0
    decreases |p|
  {
    if max == 0 || p == [] || p[0] == 0 then 0 else
    var n := RunLength(p[1..], max - 1);
    assert p[..n + 1] == [p[0]] + p[1..][..n];
    n + 1
  }

  function EncodeBlocks(p: Bytes): (w: Bytes)
    ensures w != [] && ZeroFree(w)
    decreases |p|
  {
    var n := RunLength(p, 254);
    var block := [(n + 1) as byte] + p[..n];
    if n == |p| then block
    else if n == 254 then block + EncodeBlocks(p[n..])
    else block + EncodeBlocks(p[n + 1..])
  }

  function Encode(p: Bytes): Bytes {
    EncodeBlocks(p) + [0]
  }

  /** Malformed input ends the packet early. */
  function DecodeBlocks(w: Bytes): Bytes
    decreases |w|
  {
    if w == [] || w[0] == 0 || w[0] as int > |w| then [] else
    var code := w[0] as int;
    var run, rest := w[1..code], w[code..];
    if rest == [] then run
    else if code == 255 then run + DecodeBlocks(rest)
    else run + [0] + DecodeBlocks(rest)
  }

  function Decode(w: Bytes): Bytes {
    if w == [] then [] else DecodeBlocks(w[..|w| - 1])
  }

  lemma DecodeFirst(run: Bytes, rest: Bytes)
    requires |run| <= 254
    ensures DecodeBlocks([(|run| + 1) as byte] + run + rest) ==
            if rest == [] then run else if |run| == 254 then run + DecodeBlocks(rest) else run + [0] + DecodeBlocks(rest)
  {
    var w := [(|run| + 1) as byte] + run + rest;
    assert w[1..|run| + 1] == run && w[|run| + 1..] == rest;
  }

  /** What follows the first block of a packet that needs more than one. */
  function Next(p: Bytes, n: nat): Bytes
    requires n < |p|
  {
    if n == 254 then p[n..] else p[n + 1..]
  }

  lemma Rejoin(p: Bytes, n: nat)
    requires n < |p| && (n == 254 || p[n] == 0)
    ensures (if n == 254 then p[..n] + Next(p, n) else p[..n] + [0] + Next(p, n)) == p
  {
    assert p == p[..n] + p[n..];
    assert n != 254 ==> p[n..] == [0] + p[n + 1..] && p[..n] + [0] + p[n + 1..] == p[..n] + ([0] + p[n + 1..]);
  }

  lemma {:induction false} BlocksRoundTrip(p: Bytes)
    ensures DecodeBlocks(EncodeBlocks(p)) == p
    decreases |p|
  {
    var n := RunLength(p, 254);
    var head := [(n + 1) as byte] + p[..n];
    if n == |p| {
      DecodeFirst(p, []);
      assert head + [] == head;
    } else {
      var tail := EncodeBlocks(Next(p, n));
      assert EncodeBlocks(p) == head + tail;
      BlocksRoundTrip(Next(p, n));
      DecodeFirst(p[..n], tail);
      Rejoin(p, n);
    }
  }

  /** Its encoding has a zero only as its last byte, and decoding undoes it, for every packet. */
  lemma CobsMeetsContract()
    ensures StuffsZeros(Codec(Encode, Decode))
  {
    var c := Codec(Encode, Decode);
    forall p ensures IsFrame(c.encode(p)) && c.decode(c.encode(p)) == p {
      var w := Encode(p);
      assert w[..|w| - 1] == EncodeBlocks(p);
      BlocksRoundTrip(p);
    }
  }
}
