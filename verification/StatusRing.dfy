/** The machine's status log: a ring buffer over a list that first grows and then is overwritten. */
module StatusRing {

  /** The place that lies `v` steps before the newest one, going backwards round the ring. */
  function Place(cap: nat, index: nat, v: nat): int {
    if index - 1 - v >= 0 then index - 1 - v else index - 1 - v + cap
  }

  /** The ring after the entries `all` have been logged: it holds the last min(count, cap) of them. */
  ghost predicate Holds<T>(all: seq<T>, cap: nat, log: seq<T>, index: nat) {
    && index < cap
    && |log| == (if |all| < cap then |all| else cap)
    && (|all| < cap ==> index == |all|)
    && forall v {:trigger Place(cap, index, v)} :: 0 <= v < |log| ==>
         0 <= Place(cap, index, v) < |log| && log[Place(cap, index, v)] == all[|all| - 1 - v]
  }

  /** The last min(count, cap) entries, newest first. */
  function Newest<T>(all: seq<T>, cap: nat): seq<T> {
    var n := if |all| < cap then |all| else cap;
    seq(n, i requires 0 <= i < n => all[|all| - 1 - i])
  }

  /** Logging moves every older entry one step away from the newest place. */
  lemma HoldsMore<T>(all: seq<T>, cap: nat, log: seq<T>, index: nat, s: T)
    requires Holds(all, cap, log, index)
    ensures var log' := if |log| < cap then log + [s] else log[index := s];
            Holds(all + [s], cap, log', if index + 1 >= cap then 0 else index + 1)
  {
    var log' := if |log| < cap then log + [s] else log[index := s];
    var index' := if index + 1 >= cap then 0 else index + 1;
    forall v | 0 <= v < |log'|
      ensures 0 <= Place(cap, index', v) < |log'| && log'[Place(cap, index', v)] == (all + [s])[|all| - v]
    {
      if v > 0 {
        assert Place(cap, index', v) == Place(cap, index, v - 1);
      }
    }
  }

  /** Going backwards from the newest place meets the logged entries newest first, and then only unused places. */
  lemma PlaceHoldsEntry<T>(all: seq<T>, cap: nat, log: seq<T>, index: nat, v: nat)
    requires Holds(all, cap, log, index) && v < cap
    ensures 0 <= Place(cap, index, v) < cap && (Place(cap, index, v) == index <==> v == cap - 1)
    ensures v >= |log| ==> Place(cap, index, v) >= |log|
  {
  }

  class MachineStatus<T(0)> {
    const maxLogs: nat
    var log: seq<T>
    var index: nat
    ghost var all: seq<T>

    ghost predicate Valid()
      reads this
    {
      Holds(all, maxLogs, log, index)
    }

    constructor (cap: nat)
      requires cap >= 1
      ensures Valid() && maxLogs == cap && all == []
    {
      maxLogs, log, index, all := cap, [], 0, [];
    }

    method LastIndex() returns (i: nat)
      requires Valid()
      ensures i == Place(maxLogs, index, 0) && (all != [] ==> i < |log| && log[i] == all[|all| - 1])
    {
      PlaceHoldsEntry(all, maxLogs, log, index, 0);
      var last: int := index - 1;
      if last < 0 {
        return maxLogs - 1;
      }
      return last;
    }

    method GetAndIncIdx() returns (idx: nat)
      requires maxLogs >= 1 && index < maxLogs
      modifies this`index
      ensures idx == old(index) && index == if old(index) + 1 == maxLogs then 0 else old(index) + 1
    {
      idx := index;
      index := index + 1;
      if index >= maxLogs {
        index := 0;
      }
    }

    method AddStatusLog(s: T)
      requires Valid()
      modifies this
      ensures Valid() && all == old(all) + [s]
    {
      HoldsMore(all, maxLogs, log, index, s);
      var idx := GetAndIncIdx();
      if |log| < maxLogs {
        log := log + [s];
      } else {
        log := log[idx := s];
      }
      all := all + [s];
    }

    /** String's lookup: the newest entry, if there is one. */
    method Latest() returns (found: bool, s: T)
      requires Valid()
      ensures found <==> all != []
      ensures found ==> s == all[|all| - 1]
    {
      found, s := false, *;
      if |log| > 0 {
        var i := LastIndex();
        found, s := true, log[i];
      }
    }

    /** DumpLog: it visits exactly `maxLogs` places, the newest entry first. */
    method DumpLog() returns (logs: seq<T>, ghost visits: nat)
      requires Valid()
      ensures logs == Newest(all, maxLogs) && visits == maxLogs
    {
      logs, visits := [], 0;
      var last := LastIndex();
      var i: int := last;
      while true
        invariant visits < maxLogs && -1 <= i < maxLogs
        invariant (if i < 0 then maxLogs - 1 else i) == Place(maxLogs, index, visits)
        invariant logs == Newest(all, visits)
        decreases maxLogs - visits
      {
        PlaceHoldsEntry(all, maxLogs, log, index, visits);
        if i < 0 {
          i := maxLogs - 1;
        }
        if i < |log| {
          logs := logs + [log[i]];
        }
        visits := visits + 1;
        if i == index {
          break;
        }
        i := i - 1;
      }
    }
  }
}
