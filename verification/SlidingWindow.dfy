/**
  Sliding-window hit lists: pruning a list of time stamps, and why a pruned list answers every later question
  exactly as the full history would.
*/
module SlidingWindow {

  const SECOND := 1_000_000_000
  const MINUTE := 60 * SECOND
  const HOUR := 60 * MINUTE

  type Times = map<string, seq<int>>

  function Get(m: Times, key: string): seq<int> { if key in m then m[key] else [] }

  /** Drops the time stamps that are not after the cutoff from the front of the list. */
  function Prune(ts: seq<int>, cutoff: int): seq<int>
  {
    if ts != [] && ts[0] <= cutoff then Prune(ts[1..], cutoff) else ts
  }

  method PruneBefore(ts: seq<int>, cutoff: int) returns (kept: seq<int>)
    ensures kept == Prune(ts, cutoff)
  {
    var i := 0;
    while i < |ts| && ts[i] <= cutoff
      invariant 0 <= i <= |ts|
      invariant Prune(ts[i..], cutoff) == Prune(ts, cutoff)
    {
      assert ts[i..][1..] == ts[i + 1..];
      i := i + 1;
    }
    kept := ts[i..];
  }

  /** Stores a pruned list, dropping the key when nothing is left. */
  function SetTimes(m: Times, key: string, ts: seq<int>): Times
  {
    if ts == [] then m - {key} else m[key := ts]
  }

  /** The sweep of one map: every list pruned, empty keys gone. */
  function SweepTimes(m: Times, cutoff: int): Times
  {
    map k | k in m && Prune(m[k], cutoff) != [] :: Prune(m[k], cutoff)
  }

  method Sweep(m: Times, cutoff: int) returns (swept: Times)
    ensures swept == SweepTimes(m, cutoff)
  {
    swept := m;
    var left := m.Keys;
    while left != {}
      invariant left <= m.Keys && left <= swept.Keys <= m.Keys
      invariant forall k | k in left :: swept[k] == m[k]
      invariant forall k | k in m && k !in left :: k in swept <==> Prune(m[k], cutoff) != []
      invariant forall k | k in swept && k !in left :: swept[k] == Prune(m[k], cutoff)
      decreases left
    {
      var k :| k in left;
      var kept := PruneBefore(swept[k], cutoff);
      swept := SetTimes(swept, k, kept);
      left := left - {k};
    }
  }

  // ---------------------------------------------------------------- pruned lists against the full history

  ghost predicate Sorted(ts: seq<int>) { forall i, j | 0 <= i < j < |ts| :: ts[i] <= ts[j] }

  /** How many hits of a history lie after a moment: the question every limiter asks. */
  ghost function CountAfter(log: seq<int>, cutoff: int): nat
  {
    if log == [] then 0
    else CountAfter(log[..|log| - 1], cutoff) + if log[|log| - 1] > cutoff then 1 else 0
  }

  /** The stored list is the end of the history, and what was dropped is no later than the horizon. */
  ghost predicate Remembers(stored: seq<int>, log: seq<int>, horizon: int)
  {
    |stored| <= |log| && stored == log[|log| - |stored|..] &&
    forall i | 0 <= i < |log| - |stored| :: log[i] <= horizon
  }

  lemma {:induction false} PruneIsSuffix(ts: seq<int>, cutoff: int)
    ensures Remembers(Prune(ts, cutoff), ts, cutoff)
    ensures Prune(ts, cutoff) != [] ==> Prune(ts, cutoff)[0] > cutoff
  {
    if ts != [] && ts[0] <= cutoff {
      PruneIsSuffix(ts[1..], cutoff);
      var kept := Prune(ts, cutoff);
      assert forall i | 1 <= i < |ts| - |kept| :: ts[i] == ts[1..][i - 1];
    }
  }

  /** Pruning a pruned list forgets nothing new that a later question could ask about. */
  lemma RemembersPruned(stored: seq<int>, log: seq<int>, horizon: int, cutoff: int)
    requires Remembers(stored, log, horizon) && horizon <= cutoff
    ensures Remembers(Prune(stored, cutoff), log, cutoff)
  {
    PruneIsSuffix(stored, cutoff);
    var kept := Prune(stored, cutoff);
    forall i | 0 <= i < |log| - |kept| ensures log[i] <= cutoff {
      if i >= |log| - |stored| { assert log[i] == stored[i - (|log| - |stored|)]; }
    }
  }

  lemma RemembersHit(stored: seq<int>, log: seq<int>, horizon: int, t: int)
    requires Remembers(stored, log, horizon)
    ensures Remembers(stored + [t], log + [t], horizon)
  {
  }

  /** The length of the pruned list is the count over the full history. */
  lemma PrunedLengthIsCount(stored: seq<int>, log: seq<int>, horizon: int, cutoff: int)
    requires Remembers(stored, log, horizon) && horizon <= cutoff && Sorted(log)
    ensures |Prune(stored, cutoff)| == CountAfter(log, cutoff)
  {
    RemembersPruned(stored, log, horizon, cutoff);
    PruneIsSuffix(stored, cutoff);
    var kept := Prune(stored, cutoff);
    forall i | |log| - |kept| <= i < |log| ensures log[i] > cutoff {
      assert kept[0] == log[|log| - |kept|];
    }
    CountSplit(log, cutoff, |log| - |kept|);
  }

  lemma {:induction false} CountSplit(log: seq<int>, cutoff: int, k: nat)
    requires k <= |log|
    requires forall i | 0 <= i < k :: log[i] <= cutoff
    requires forall i | k <= i < |log| :: log[i] > cutoff
    ensures CountAfter(log, cutoff) == |log| - k
  {
    if log != [] {
      var n := |log| - 1;
      CountSplit(log[..n], cutoff, if k <= n then k else n);
    }
  }

  lemma LongerHorizon(stored: seq<int>, log: seq<int>, horizon: int, later: int)
    requires Remembers(stored, log, horizon) && horizon <= later
    ensures Remembers(stored, log, later)
  {
  }
}
