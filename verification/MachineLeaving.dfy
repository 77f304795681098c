/**
 MachineLeave: stopping every component of a machine while ranging over the very lists the stops
 delete from. A Go slice is an array and a length; a range statement evaluates the slice once and then
 reads the array as it is, and the deletion shifts the later entries one place down in that array.
 */
module MachineLeaving {
  import opened Messages

  /** Position of `x` among the live entries, or their number. */
  function Find<T(==)>(mem: seq<T>, len: nat, x: T): (i: nat)
    requires len <= |mem|
    ensures i <= len && (i < len ==> mem[i] == x) && forall j :: 0 <= j < i ==> mem[j] != x
    decreases len
  {
    if len == 0 then 0 else
    var i := Find(mem, len - 1, x);
    if i < len - 1 || mem[len - 1] == x then i else len
  }

  /** append(s[:i], s[i+1:]...) on an array of which the first `len` places are live. */
  function Deleted<T>(mem: seq<T>, len: nat, i: nat): seq<T>
    requires i < len <= |mem|
  {
    mem[..i] + mem[i + 1..len] + mem[len - 1..]
  }

  /** `next` is what a deletion at `i` makes of `mem`, place by place. */
  ghost predicate ShiftedDown<T>(mem: seq<T>, next: seq<T>, len: nat, i: nat) {
    && |next| == |mem| && i < len <= |mem|
    && (forall j :: 0 <= j < i || len - 1 <= j < |mem| ==> next[j] == mem[j])
    && (forall j :: i <= j < len - 1 ==> next[j] == mem[j + 1])
  }

  lemma DeletedShifts<T>(mem: seq<T>, len: nat, i: nat)
    requires i < len <= |mem|
    ensures ShiftedDown(mem, Deleted(mem, len, i), len, i)
  {
  }

  /** A deletion takes one occurrence out of every live prefix that reaches past it. */
  lemma DeletedBag<T>(mem: seq<T>, next: seq<T>, len: nat, i: nat, p: nat)
    requires ShiftedDown(mem, next, len, i) && i <= p < len
    ensures multiset(next[..p]) == multiset(mem[..p + 1]) - multiset{mem[i]}
  {
    assert next[..p] == mem[..i] + mem[i + 1..p + 1];
    assert mem[..p + 1] == mem[..i] + [mem[i]] + mem[i + 1..p + 1];
  }

  datatype Left<T> = Left(mem: seq<T>, len: nat, ok: bool)

  /** Ranging over the slice itself from position `k`: stop whatever entry the array holds there. */
  function RangeLive<T(==)>(mem: seq<T>, len: nat, n: nat, k: nat): Left<T>
    requires len <= n <= |mem| && k <= n
    decreases n - k
  {
    if k == n then Left(mem, len, true)
    else
      var i := Find(mem, len, mem[k]);
      if i == len then Left(mem, len, false)
      else RangeLive(Deleted(mem, len, i), len - 1, n, k + 1)
  }

  lemma RangeStopsOne<T>(mem: seq<T>, len: nat, n: nat, k: nat)
    requires len <= n <= |mem| && k < n
    ensures var i := Find(mem, len, mem[k]);
            RangeLive(mem, len, n, k) ==
            if i == len then Left(mem, len, false) else RangeLive(Deleted(mem, len, i), len - 1, n, k + 1)
  {
  }

  /** Ranging over a copy of the list from position `k`. */
  function RangeCopy<T(==)>(copy: seq<T>, mem: seq<T>, len: nat, k: nat): Left<T>
    requires len <= |mem| && k <= |copy|
    decreases |copy| - k
  {
    if k == |copy| then Left(mem, len, true)
    else
      var i := Find(mem, len, copy[k]);
      if i == len then Left(mem, len, false)
      else RangeCopy(copy, Deleted(mem, len, i), len - 1, k + 1)
  }

  /** The entries at odd places, which the range skips while it gets through the list. */
  function Odds<T>(s: seq<T>): (r: seq<T>)
    ensures |r| == |s| / 2 && forall j :: 0 <= j < |r| ==> r[j] == s[2 * j + 1]
  {
    seq(|s| / 2, j requires 0 <= j < |s| / 2 => s[2 * j + 1])
  }

  /** What a range leaves running: the skipped entries, but no occurrence of the last entry. */
  function LeftBehind<T>(s: seq<T>): multiset<T> {
    if s == [] then multiset{} else multiset(Odds(s))[s[|s| - 1] := 0]
  }

  ghost predicate OddsAreLast<T>(s: seq<T>) {
    forall j :: 0 <= j < |Odds(s)| ==> Odds(s)[j] == s[|s| - 1]
  }

  lemma NothingLeftIff<T>(s: seq<T>)
    ensures LeftBehind(s) == multiset{} <==> OddsAreLast(s)
  {
    if s != [] {
      var odds, last := Odds(s), s[|s| - 1];
      if OddsAreLast(s) {
        forall x | x in odds ensures x == last {}
        assert forall x :: x !in LeftBehind(s);
      } else {
        var j :| 0 <= j < |odds| && odds[j] != last;
        assert odds[j] in LeftBehind(s);
      }
    }
  }

  /** For entries that are all different: the skipped ones in their order, less the last entry. */
  function Skipped<T>(s: seq<T>): (r: seq<T>)
    ensures |s| <= 2 ==> r == []
    ensures s != [] ==> |r| < |s|
  {
    if |s| <= 2 then [] else Odds(s)[..(|s| - 1) / 2]
  }

  /** Entries that are all different can all be stopped this way exactly when there are at most two. */
  lemma DistinctOkIff<T>(s: seq<T>)
    requires Distinct(s)
    ensures OddsAreLast(s) <==> |s| <= 2
  {
    if |s| > 2 {
      assert Odds(s)[0] == s[1] != s[|s| - 1];
    }
  }

  // ---------------------------------------------------------------- the first half of the range

  /**
   After `k` stops the places in reach hold the entries not yet visited or skipped, and the places
   behind the live part hold the last entry.
   */
  ghost predicate InReach<T>(was: seq<T>, mem: seq<T>, k: nat) {
    && 2 * k <= |was| <= |mem|
    && (forall j :: k <= j < |was| - k ==> mem[j] == was[j + k])
    && (forall j :: |was| - k <= j < |was| ==> mem[j] == was[|was| - 1])
  }

  /** The live places out of reach hold the skipped entries; `d` says whether in their order. */
  ghost predicate OutOfReach<T>(odds: seq<T>, mem: seq<T>, k: nat, d: bool) {
    && k <= |mem| && k <= |odds|
    && multiset(mem[..k]) == multiset(odds[..k])
    && (d ==> mem[..k] == odds[..k])
  }

  /** The entry in reach is live, so it is found, there or at a skipped place before it. */
  lemma FoundInReach<T>(was: seq<T>, mem: seq<T>, k: nat)
    requires InReach(was, mem, k) && 2 * k < |was|
    ensures mem[k] == was[2 * k] && Find(mem, |was| - k, mem[k]) <= k
  {
  }

  lemma FoundInPlace<T>(was: seq<T>, mem: seq<T>, k: nat)
    requires InReach(was, mem, k) && 2 * k < |was| && Distinct(was) && mem[..k] == Odds(was)[..k]
    ensures Find(mem, |was| - k, mem[k]) == k
  {
    FoundInReach(was, mem, k);
    forall j | 0 <= j < k ensures mem[j] != mem[k] {
      assert mem[j] == mem[..k][j] == Odds(was)[..k][j] == was[2 * j + 1];
    }
  }

  lemma ReachStep<T>(was: seq<T>, mem: seq<T>, next: seq<T>, k: nat, i: nat)
    requires InReach(was, mem, k) && 2 * k + 1 < |was| && i <= k && ShiftedDown(mem, next, |was| - k, i)
    ensures InReach(was, next, k + 1)
  {
  }

  lemma BagStep<T>(mem: seq<T>, bag: multiset<T>, odds: seq<T>, k: nat, x: T)
    requires k + 1 < |mem| && k < |odds|
    requires multiset(mem[..k]) == multiset(odds[..k]) && mem[k + 1] == odds[k] && mem[k] == x
    requires bag == multiset(mem[..k + 2]) - multiset{x}
    ensures bag == multiset(odds[..k + 1])
  {
    assert mem[..k + 2] == mem[..k] + [mem[k]] + [mem[k + 1]];
    assert odds[..k + 1] == odds[..k] + [odds[k]];
  }

  lemma OrderStep<T>(mem: seq<T>, next: seq<T>, odds: seq<T>, k: nat)
    requires k + 1 < |mem| == |next| && k < |odds| && mem[..k] == odds[..k] && mem[k + 1] == odds[k]
    requires (forall j :: 0 <= j < k ==> next[j] == mem[j]) && next[k] == mem[k + 1]
    ensures next[..k + 1] == odds[..k + 1]
  {
    assert next[..k + 1] == mem[..k] + [mem[k + 1]];
    assert odds[..k + 1] == odds[..k] + [odds[k]];
  }

  /** One stop that is not the last of this half. */
  lemma OutStep<T>(odds: seq<T>, mem: seq<T>, next: seq<T>, len: nat, k: nat, i: nat, d: bool)
    requires OutOfReach(odds, mem, k, d) && ShiftedDown(mem, next, len, i) && k + 1 < len
    requires k < |odds| && mem[k + 1] == odds[k] && i <= k && mem[i] == mem[k] && (d ==> i == k)
    ensures OutOfReach(odds, next, k + 1, d)
  {
    DeletedBag(mem, next, len, i, k + 1);
    BagStep(mem, multiset(next[..k + 1]), odds, k, mem[i]);
    if d { OrderStep(mem, next, odds, k); }
  }

  /** The last stop of this half, when it falls on the last entry. */
  lemma OutLast<T>(odds: seq<T>, mem: seq<T>, next: seq<T>, k: nat, i: nat, d: bool)
    requires OutOfReach(odds, mem, k, d) && ShiftedDown(mem, next, k + 1, i) && mem[i] == mem[k] && (d ==> i == k)
    ensures OutOfReach(odds, next, k, d)
  {
    DeletedBag(mem, next, k + 1, i, k);
    SnocBag(mem, k);
    if d { assert next[..k] == mem[..k]; }
  }

  lemma SnocBag<T>(mem: seq<T>, k: nat)
    requires k < |mem|
    ensures multiset(mem[..k + 1]) - multiset{mem[k]} == multiset(mem[..k])
  {
    assert mem[..k + 1] == mem[..k] + [mem[k]];
  }

  // ---------------------------------------------------------------- the second half

  /** From here on the range only ever asks for `last`; every other live entry stays. */
  ghost predicate Tail<T>(odds: seq<T>, last: T, n: nat, mem: seq<T>, len: nat, k: nat, d: bool) {
    && 0 < n && len <= k <= n <= |mem| && |odds| == n / 2
    && (forall j :: k <= j < n ==> mem[j] == last)
    && multiset(mem[..len])[last := 0] == multiset(odds)[last := 0]
    && (d ==> (n - 1) / 2 <= len <= |odds| && mem[..len] == odds[..len])
  }

  lemma MiddleIsTail<T>(odds: seq<T>, last: T, n: nat, mem: seq<T>, k: nat, d: bool)
    requires 0 < n && |odds| == n / 2 <= k <= n <= |mem| && OutOfReach(odds, mem, n / 2, d)
    requires forall j :: k <= j < n ==> mem[j] == last
    ensures Tail(odds, last, n, mem, n / 2, k, d)
  {
    assert odds[..n / 2] == odds;
  }

  lemma BagWithout<T>(bag: multiset<T>, last: T)
    ensures (bag - multiset{last})[last := 0] == bag[last := 0]
  {
    var a, b := (bag - multiset{last})[last := 0], bag[last := 0];
    forall x ensures a[x] == b[x] {
      if x != last { assert (bag - multiset{last})[x] == bag[x]; }
    }
  }

  /** With different entries `last` is live only at the end of the skipped entries. */
  ghost predicate LastAtEnd<T>(odds: seq<T>, last: T, n: nat) {
    forall j :: 0 <= j < |odds| ==> (odds[j] == last <==> 2 * j + 2 == n)
  }

  lemma DistinctLastAtEnd<T>(was: seq<T>)
    requires Distinct(was) && was != []
    ensures LastAtEnd(Odds(was), was[|was| - 1], |was|)
  {
  }

  lemma TailOrder<T>(odds: seq<T>, last: T, n: nat, mem: seq<T>, next: seq<T>, len: nat, k: nat, i: nat)
    requires Tail(odds, last, n, mem, len, k, true) && LastAtEnd(odds, last, n)
    requires ShiftedDown(mem, next, len, i) && mem[i] == last
    ensures (n - 1) / 2 <= len - 1 && next[..len - 1] == odds[..len - 1]
  {
    assert mem[i] == mem[..len][i] == odds[..len][i] == odds[i];
    assert i == len - 1;
    assert next[..len - 1] == mem[..len][..len - 1];
  }

  lemma TailStep<T>(odds: seq<T>, last: T, n: nat, mem: seq<T>, next: seq<T>, len: nat, k: nat, i: nat, d: bool)
    requires Tail(odds, last, n, mem, len, k, d) && k < n && (d ==> LastAtEnd(odds, last, n))
    requires ShiftedDown(mem, next, len, i) && mem[i] == last
    ensures Tail(odds, last, n, next, len - 1, k + 1, d)
  {
    DeletedBag(mem, next, len, i, len - 1);
    BagWithout(multiset(mem[..len]), last);
    if d { TailOrder(odds, last, n, mem, next, len, k, i); }
  }

  // ---------------------------------------------------------------- the whole range

  /** What the range is said to leave of `was`. */
  ghost predicate Leaves<T>(was: seq<T>, r: Left<T>) {
    && r.len <= |r.mem| && Remains(was, r.mem[..r.len])
    && (r.ok <==> OddsAreLast(was)) && (r.ok ==> r.len == 0)
  }

  /** What the stops leave of a list. */
  ghost predicate Remains<T>(was: seq<T>, left: seq<T>) {
    multiset(left) == LeftBehind(was) && (Distinct(was) ==> left == Skipped(was))
  }

  ghost predicate TailOf<T>(was: seq<T>, mem: seq<T>, len: nat, k: nat) {
    was != [] && Tail(Odds(was), was[|was| - 1], |was|, mem, len, k, Distinct(was))
  }

  /** The range ends when it has asked as often as the list was long... */
  lemma EndLeaves<T>(was: seq<T>, mem: seq<T>)
    requires TailOf(was, mem, 0, |was|)
    ensures Leaves(was, Left(mem, 0, true))
  {
    NothingLeftIff(was);
    assert mem[..0] == [];
    assert multiset(mem[..0])[was[|was| - 1] := 0] == multiset{};
  }

  lemma NotLive<T>(live: seq<T>, last: T)
    requires live != [] && last !in live
    ensures multiset(live)[last := 0] == multiset(live) != multiset{}
  {
    assert live[0] in multiset(live);
  }

  /** ... or when it asks for the last entry once more than it is there. */
  lemma StuckLeaves<T>(was: seq<T>, mem: seq<T>, len: nat, k: nat)
    requires TailOf(was, mem, len, k) && 0 < len && was[|was| - 1] !in mem[..len]
    ensures Leaves(was, Left(mem, len, false))
  {
    NothingLeftIff(was);
    NotLive(mem[..len], was[|was| - 1]);
    if Distinct(was) { StuckInOrder(was, mem[..len]); }
  }

  lemma StuckInOrder<T>(was: seq<T>, live: seq<T>)
    requires Distinct(was) && live != [] && (|was| - 1) / 2 <= |live| <= |Odds(was)| && live == Odds(was)[..|live|]
    requires was[|was| - 1] !in live
    ensures live == Skipped(was)
  {
    var last := |live| - 1;
    assert live[last] == Odds(was)[..|live|][last] == was[2 * last + 1];
    assert |live| == (|was| - 1) / 2;
  }

  /** What holds when the range is about to ask for the entry at place `k`. */
  ghost predicate Inv<T>(was: seq<T>, mem: seq<T>, len: nat, k: nat) {
    && k <= |was| <= |mem| && len == |was| - k
    && if 2 * k < |was| then InReach(was, mem, k) && OutOfReach(Odds(was), mem, k, Distinct(was)) else TailOf(was, mem, len, k)
  }

  lemma InvReachStep<T>(was: seq<T>, mem: seq<T>, next: seq<T>, len: nat, k: nat, i: nat)
    requires Inv(was, mem, len, k) && 2 * k + 1 < |was| && i <= k && mem[i] == mem[k] && (Distinct(was) ==> i == k)
    requires ShiftedDown(mem, next, len, i)
    ensures Inv(was, next, len - 1, k + 1)
  {
    ReachStep(was, mem, next, k, i);
    assert mem[k + 1] == was[2 * k + 1] == Odds(was)[k];
    OutStep(Odds(was), mem, next, len, k, i, Distinct(was));
    if 2 * k + 2 == |was| {
      MiddleIsTail(Odds(was), was[|was| - 1], |was|, next, k + 1, Distinct(was));
    }
  }

  lemma InvLastStep<T>(was: seq<T>, mem: seq<T>, next: seq<T>, k: nat, i: nat)
    requires Inv(was, mem, k + 1, k) && 2 * k + 1 == |was| && i <= k && mem[i] == mem[k] && (Distinct(was) ==> i == k)
    requires ShiftedDown(mem, next, k + 1, i)
    ensures Inv(was, next, k, k + 1)
  {
    OutLast(Odds(was), mem, next, k, i, Distinct(was));
    MiddleIsTail(Odds(was), was[|was| - 1], |was|, next, k + 1, Distinct(was));
  }

  lemma InvTailStep<T>(was: seq<T>, mem: seq<T>, next: seq<T>, len: nat, k: nat, i: nat)
    requires Inv(was, mem, len, k) && 2 * k >= |was| && k < |was|
    requires ShiftedDown(mem, next, len, i) && mem[i] == mem[k]
    ensures Inv(was, next, len - 1, k + 1)
  {
    if Distinct(was) { DistinctLastAtEnd(was); }
    TailStep(Odds(was), was[|was| - 1], |was|, mem, next, len, k, i, Distinct(was));
  }

  lemma InvFinds<T>(was: seq<T>, mem: seq<T>, len: nat, k: nat)
    requires Inv(was, mem, len, k) && 2 * k < |was|
    ensures Find(mem, len, mem[k]) <= k && (Distinct(was) ==> Find(mem, len, mem[k]) == k)
  {
    FoundInReach(was, mem, k);
    if Distinct(was) { FoundInPlace(was, mem, k); }
  }

  lemma InvStep<T>(was: seq<T>, mem: seq<T>, len: nat, k: nat)
    requires Inv(was, mem, len, k) && k < |was| && Find(mem, len, mem[k]) < len
    ensures Inv(was, Deleted(mem, len, Find(mem, len, mem[k])), len - 1, k + 1)
  {
    var i := Find(mem, len, mem[k]);
    var next := Deleted(mem, len, i);
    DeletedShifts(mem, len, i);
    if 2 * k + 1 < |was| {
      InvFinds(was, mem, len, k);
      InvReachStep(was, mem, next, len, k, i);
    } else if 2 * k + 1 == |was| {
      InvFinds(was, mem, len, k);
      InvLastStep(was, mem, next, k, i);
    } else {
      InvTailStep(was, mem, next, len, k, i);
    }
  }

  lemma InvStuck<T>(was: seq<T>, mem: seq<T>, len: nat, k: nat)
    requires Inv(was, mem, len, k) && k < |was| && Find(mem, len, mem[k]) == len
    ensures Leaves(was, Left(mem, len, false))
  {
    if 2 * k < |was| {
      InvFinds(was, mem, len, k);
      assert false;
    } else {
      assert was[|was| - 1] !in mem[..len];
      StuckLeaves(was, mem, len, k);
    }
  }

  lemma LeavesStuck<T>(was: seq<T>, mem: seq<T>, len: nat, k: nat)
    requires Inv(was, mem, len, k) && k < |was| && Find(mem, len, mem[k]) == len
    ensures Leaves(was, RangeLive(mem, len, |was|, k))
  {
    InvStuck(was, mem, len, k);
    RangeStopsOne(mem, len, |was|, k);
  }

  lemma LeavesNext<T>(was: seq<T>, mem: seq<T>, next: seq<T>, len: nat, k: nat)
    requires Inv(was, mem, len, k) && k < |was| && Find(mem, len, mem[k]) < len
    requires next == Deleted(mem, len, Find(mem, len, mem[k]))
    ensures Inv(was, next, len - 1, k + 1)
    ensures RangeLive(mem, len, |was|, k) == RangeLive(next, len - 1, |was|, k + 1)
  {
    InvStep(was, mem, len, k);
    RangeStopsOne(mem, len, |was|, k);
  }

  /** What the range leaves, from any place on. */
  lemma {:induction false} LeavesFrom<T>(was: seq<T>, mem: seq<T>, len: nat, k: nat)
    requires Inv(was, mem, len, k)
    ensures Leaves(was, RangeLive(mem, len, |was|, k))
    decreases |was| - k
  {
    if k == |was| {
      EndLeaves(was, mem);
    } else if Find(mem, len, mem[k]) == len {
      LeavesStuck(was, mem, len, k);
    } else {
      var next := Deleted(mem, len, Find(mem, len, mem[k]));
      LeavesNext(was, mem, next, len, k);
      LeavesFrom(was, next, len - 1, k + 1);
    }
  }

  /**
   Ranging over a list while each stop deletes from it finishes without error exactly when every entry
   at an odd place equals the last one. It leaves the entries at odd places less all that equal the
   last. For entries that are all different: without error exactly up to two, and in the old order.
   */
  lemma RangeLiveOkIff<T>(mem: seq<T>, n: nat)
    requires n <= |mem|
    ensures Leaves(mem[..n], RangeLive(mem, n, n, 0))
    ensures Distinct(mem[..n]) ==> (RangeLive(mem, n, n, 0).ok <==> n <= 2)
  {
    var was := mem[..n];
    if n > 0 {
      assert mem[..0] == Odds(was)[..0];
      LeavesFrom(was, mem, n, 0);
    }
    if Distinct(was) { DistinctOkIff(was); }
  }

  /** What is live is exactly what is still to be visited. */
  lemma {:induction false} CopyEmpties<T>(copy: seq<T>, mem: seq<T>, len: nat, k: nat)
    requires k <= |copy| && len <= |mem| && mem[..len] == copy[k..]
    ensures var r := RangeCopy(copy, mem, len, k); r.ok && r.len == 0
    decreases |copy| - k
  {
    if k < |copy| {
      assert mem[..len][0] == copy[k];
      assert Find(mem, len, copy[k]) == 0;
      var mem' := Deleted(mem, len, 0);
      assert mem'[..len - 1] == mem[1..len] == copy[k + 1..];
      CopyEmpties(copy, mem', len - 1, k + 1);
    }
  }

  /** Ranging over a copy would always stop everything. */
  lemma RangeCopyAlwaysEmpties<T>(mem: seq<T>)
    ensures var r := RangeCopy(mem, mem, |mem|, 0); r.ok && r.len == 0
  {
    assert mem[..|mem|] == mem[0..];
    CopyEmpties(mem, mem, |mem|, 0);
  }

  // ---------------------------------------------------------------- the objects

  /** A list of components as the machine holds it: entries are told apart by what a stop looks for. */
  class Slice<T(==)> {
    const data: array<T>
    var len: nat

    ghost predicate Valid()
      reads this
    {
      len <= data.Length
    }

    /** The list a reader of the slice sees. */
    ghost function Live(): seq<T>
      reads this, data
      requires Valid()
    {
      data[..len]
    }

    constructor (data: array<T>)
      ensures this.data == data && len == data.Length
    {
      this.data, len := data, data.Length;
    }

    /** stopController, stopDriver, detachAdaptor: find the entry and delete it in place. */
    method StopOne(x: T) returns (ok: bool)
      requires Valid()
      modifies this`len, data
      ensures Valid()
      ensures var i := Find(old(data[..]), old(len), x);
              && (ok <==> i < old(len))
              && (!ok ==> data[..] == old(data[..]) && len == old(len))
              && (ok ==> data[..] == Deleted(old(data[..]), old(len), i) && len == old(len) - 1)
    {
      ghost var before := data[..];
      var n, i := len, 0;
      while i < n && data[i] != x
        invariant 0 <= i <= n && forall j :: 0 <= j < i ==> data[j] != x
      {
        i := i + 1;
      }
      assert Find(before, n, x) == i;
      if i == n {
        return false;
      }
      for j := i to n - 1
        invariant forall p :: 0 <= p < i || j <= p < data.Length ==> data[p] == before[p]
        invariant forall p :: i < p <= j ==> data[p - 1] == before[p]
      {
        data[j] := data[j + 1];
      }
      assert forall p :: i < p < n ==> data[p - 1] == before[p];
      forall p | i <= p < n - 1 ensures data[p] == before[p + 1] { var q := p + 1; assert data[q - 1] == before[q]; }
      assert data[..] == before[..i] + before[i + 1..n] + before[n - 1..];
      len := n - 1;
      return true;
    }

    /** The body of a range over the slice as it was when its length was `n`. */
    method StopNext(n: nat, k: nat) returns (ok: bool)
      requires len <= n <= data.Length && k < n
      modifies this`len, data
      ensures len <= n
      ensures RangeLive(old(data[..]), old(len), n, k) ==
              if ok then RangeLive(data[..], len, n, k + 1) else Left(data[..], len, false)
    {
      ghost var mem := data[..];
      ok := StopOne(data[k]);
      RangeStopsOne(mem, old(len), n, k);
    }

    /** for _, x := range list { stop x }, leaving at the first error. */
    method StopAllRanging() returns (ok: bool)
      requires Valid()
      modifies this`len, data
      ensures Valid() && Left(data[..], len, ok) == RangeLive(old(data[..]), old(len), old(len), 0)
    {
      var n := len;
      ghost var result := RangeLive(data[..], n, n, 0);
      for k := 0 to n
        invariant len <= n <= data.Length
        invariant RangeLive(data[..], len, n, k) == result
      {
        ok := StopNext(n, k);
        if !ok {
          return;
        }
      }
      ok := true;
    }

    /** What the loop above comes to. */
    method StopAll() returns (ok: bool)
      requires Valid()
      modifies this`len, data
      ensures Valid() && Remains(old(Live()), Live()) && (ok <==> OddsAreLast(old(Live()))) && (ok ==> Live() == [])
    {
      ghost var mem, was := data[..], Live();
      assert mem[..len] == was;
      RangeLiveOkIff(mem, len);
      ok := StopAllRanging();
      assert data[..][..len] == Live();
    }
  }

  ghost predicate AfterRange<T>(reached: bool, was: seq<T>, left: seq<T>) {
    if reached then Remains(was, left) else left == was
  }

  /** The three component lists of a machine; the later two hold types and IDs. */
  datatype Lists = Lists(controllers: seq<string>, drivers: seq<(string, string)>, adaptors: seq<(string, string)>)

  const NO_COMPONENTS := Lists([], [], [])

  /** Every component of the lists can be stopped by ranging over them in place. */
  ghost predicate AllStoppable(l: Lists) {
    OddsAreLast(l.controllers) && OddsAreLast(l.drivers) && OddsAreLast(l.adaptors)
  }

  ghost predicate AllDistinct(l: Lists) {
    Distinct(l.controllers) && Distinct(l.drivers) && Distinct(l.adaptors)
  }

  lemma DistinctStoppableIff(l: Lists)
    requires AllDistinct(l)
    ensures AllStoppable(l) <==> |l.controllers| <= 2 && |l.drivers| <= 2 && |l.adaptors| <= 2
  {
    DistinctOkIff(l.controllers);
    DistinctOkIff(l.drivers);
    DistinctOkIff(l.adaptors);
  }

  /** The lists are stopped one after the other, up to the first that fails. */
  ghost predicate LeftOver(was: Lists, left: Lists) {
    && Remains(was.controllers, left.controllers)
    && AfterRange(OddsAreLast(was.controllers), was.drivers, left.drivers)
    && AfterRange(OddsAreLast(was.controllers) && OddsAreLast(was.drivers), was.adaptors, left.adaptors)
  }

  /** Controllers are stopped by ID, drivers and adaptors by type and ID. */
  class Machine {
    const controllers: Slice<string>
    const drivers: Slice<(string, string)>
    const adaptors: Slice<(string, string)>

    /** The lists are apart; their entries may be alike. */
    ghost predicate Valid()
      reads this, controllers, drivers, adaptors
    {
      && controllers.Valid() && drivers.Valid() && adaptors.Valid()
      && drivers != adaptors && drivers.data != adaptors.data
    }

    ghost function Running(): Lists
      reads this, controllers, drivers, adaptors, controllers.data, drivers.data, adaptors.data
      requires Valid()
    {
      Lists(controllers.Live(), drivers.Live(), adaptors.Live())
    }

    constructor (controllers: Slice<string>, drivers: Slice<(string, string)>, adaptors: Slice<(string, string)>)
      ensures this.controllers == controllers && this.drivers == drivers && this.adaptors == adaptors
    {
      this.controllers, this.drivers, this.adaptors := controllers, drivers, adaptors;
    }

    /** The three loops of MachineLeave, left at the first error. */
    method StopComponents() returns (r: Outcome)
      requires Valid()
      modifies controllers`len, controllers.data
      modifies drivers`len, drivers.data, adaptors`len, adaptors.data
      ensures Valid() && LeftOver(old(Running()), Running())
      ensures (r.Ok? <==> AllStoppable(old(Running()))) && (r.Ok? ==> Running() == NO_COMPONENTS)
    {
      ghost var d, a := drivers.Live(), adaptors.Live();
      var ok := controllers.StopAll();
      assert drivers.Live() == d && adaptors.Live() == a;
      if !ok {
        return Err("controller not found");
      }
      ok := drivers.StopAll();
      assert adaptors.Live() == a;
      if !ok {
        return Err("driver not found");
      }
      ok := adaptors.StopAll();
      if !ok {
        return Err("adaptor not found");
      }
      return Ok;
    }
  }

  class Daemon {
    var machines: map<string, Machine>

    constructor ()
      ensures machines == map[]
    {
      machines := map[];
    }

    /** `madeDir` is whether the working directory could be made. A machine without an ID is not kept. */
    method MachineJoin(id: string, m: Machine, madeDir: bool) returns (r: Outcome)
      modifies this
      ensures r.Ok? <==> id !in old(machines) && madeDir
      ensures machines == if r.Ok? && id != "" then old(machines)[id := m] else old(machines)
    {
      if id in machines {
        return Err("machine already exists");
      }
      if !madeDir {
        return Err("failed to create temporary directory");
      }
      if id != "" {
        machines := machines[id := m];
      }
      return Ok;
    }

    /**
     MachineLeave succeeds exactly when the machine exists and in each of its three lists the entries at
     odd places all equal the last one, which for different entries means that there are at most two.
     Then all lists are empty and the machine is gone. Otherwise the first list that fails keeps its
     skipped entries, the lists after it are untouched, and the machine stays.
     */
    method MachineLeave(id: string) returns (r: Outcome)
      requires id in machines ==> machines[id].Valid()
      modifies this
      modifies if id in machines then {machines[id].controllers} else {}
      modifies if id in machines then {machines[id].drivers, machines[id].adaptors} else {}
      modifies if id in machines then {machines[id].controllers.data} else {}
      modifies if id in machines then {machines[id].drivers.data, machines[id].adaptors.data} else {}
      ensures r.Ok? <==> id in old(machines) && AllStoppable(old(machines[id].Running()))
      ensures machines == if r.Ok? then old(machines) - {id} else old(machines)
      ensures id in old(machines) ==>
                && var m := old(machines)[id];
                && m.Valid() && LeftOver(old(machines[id].Running()), m.Running())
                && (r.Ok? ==> m.Running() == NO_COMPONENTS)
    {
      if id !in machines {
        return Err("machine not found");
      }
      var m := machines[id];
      r := m.StopComponents();
      if r.Ok? {
        machines := machines - {id};
      }
    }
  }
}
