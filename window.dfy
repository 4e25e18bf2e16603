/** The sliding time window shared by the flood and raid detectors: a queue
    of timestamps in arrival order, trimmed from the front. */
module Window {
  import opened Common

  predicate Sorted(q: seq<int>) {
    forall i, j :: 0 <= i < j < |q| ==> q[i] <= q[j]
  }

  /** No timestamp of `q` lies after `now`. */
  predicate UpTo(q: seq<int>, now: int) {
    forall i :: 0 <= i < |q| ==> q[i] <= now
  }

  /** Every timestamp of `q` lies in `[lo, hi]`. */
  predicate Within(q: seq<int>, lo: int, hi: int) {
    forall i :: 0 <= i < |q| ==> lo <= q[i] <= hi
  }

  /** `while q and q[0] < cutoff: q.popleft()`: drops entries from the front
      for as long as they are older than `cutoff`. */
  function Evict(q: seq<int>, cutoff: int): (r: seq<int>)
    ensures |r| <= |q|
    decreases |q|
  {
    if q != [] && q[0] < cutoff then Evict(q[1..], cutoff) else q
  }

  /** What eviction leaves: a suffix of the queue that starts at or after
      the cutoff, every dropped entry being older than the cutoff. */
  lemma {:induction false} EvictFacts(q: seq<int>, cutoff: int)
    ensures |Evict(q, cutoff)| <= |q| && Evict(q, cutoff) == q[|q| - |Evict(q, cutoff)|..]
    ensures Evict(q, cutoff) == [] || Evict(q, cutoff)[0] >= cutoff
    ensures forall i :: 0 <= i < |q| - |Evict(q, cutoff)| ==> q[i] < cutoff
    decreases |q|
  {
    if q != [] && q[0] < cutoff {
      EvictFacts(q[1..], cutoff);
      var r := Evict(q, cutoff);
      assert forall i :: 1 <= i < |q| - |r| ==> q[i] == q[1..][i - 1];
    }
  }

  /** The entries of `q` at or after `cutoff`, in order: the reference
      definition of what the window should keep. */
  function Recent(q: seq<int>, cutoff: int): (r: seq<int>)
    ensures |r| <= |q|
    decreases |q|
  {
    if q == [] then []
    else (if q[0] >= cutoff then [q[0]] else []) + Recent(q[1..], cutoff)
  }

  /** On a sorted queue, popping stale entries from the front keeps exactly
      the entries at or after the cutoff. */
  lemma {:induction false} EvictSortedIsRecent(q: seq<int>, cutoff: int)
    requires Sorted(q)
    ensures Evict(q, cutoff) == Recent(q, cutoff)
    decreases |q|
  {
    if q != [] {
      if q[0] < cutoff {
        EvictSortedIsRecent(q[1..], cutoff);
      } else {
        RecentOfAllRecent(q, cutoff);
      }
    }
  }

  /** A queue with nothing older than the cutoff is kept whole. */
  lemma {:induction false} RecentOfAllRecent(q: seq<int>, cutoff: int)
    requires forall i :: 0 <= i < |q| ==> q[i] >= cutoff
    ensures Recent(q, cutoff) == q
    decreases |q|
  {
    if q != [] {
      RecentOfAllRecent(q[1..], cutoff);
    }
  }

  /** After eviction, a sorted queue holds only entries at or after the cutoff. */
  lemma EvictSortedAllRecent(q: seq<int>, cutoff: int)
    requires Sorted(q)
    ensures forall i :: 0 <= i < |Evict(q, cutoff)| ==> Evict(q, cutoff)[i] >= cutoff
  {
    var r := Evict(q, cutoff);
    var d := |q| - |r|;
    EvictFacts(q, cutoff);
    forall i | 0 <= i < |r| ensures r[i] >= cutoff {
      assert r[i] == q[d + i] && r[0] == q[d];
    }
  }

  /** Appending the current time keeps a queue sorted when the clock has not
      gone backwards. */
  lemma AppendSorted(q: seq<int>, now: int)
    requires Sorted(q) && UpTo(q, now)
    ensures Sorted(q + [now]) && UpTo(q + [now], now)
  {
  }

  /** What one `append(now)`-then-evict step leaves behind: a sorted queue
      whose entries all lie in `[now - window, now]`. */
  lemma StepInWindow(q: seq<int>, add: seq<int>, now: int, window: int)
    requires Sorted(q) && UpTo(q, now)
    requires forall i :: 0 <= i < |add| ==> add[i] == now
    ensures Sorted(q + add) && UpTo(q + add, now)
    ensures Sorted(Evict(q + add, now - window))
    ensures Within(Evict(q + add, now - window), now - window, now)
  {
    var all := q + add;
    assert Sorted(all) by {
      forall i, j | 0 <= i < j < |all| ensures all[i] <= all[j] {
        if j >= |q| { assert all[j] == now; }
      }
    }
    EvictSortedAllRecent(all, now - window);
    EvictFacts(all, now - window);
    var r := Evict(all, now - window);
    var d := |all| - |r|;
    assert forall i :: 0 <= i < |r| ==> r[i] == all[d + i];
  }

  /** The count a window reports: events fed inside `[now - window, now]`
      are all counted, so `k` such events yield `k`. */
  lemma {:induction false} CountInsideWindow(q: seq<int>, now: int, window: int)
    requires Sorted(q) && Within(q, now - window, now)
    ensures Evict(q, now - window) == q
  {
    if q != [] {
      assert q[0] >= now - window;
    }
  }

  /** Feeding `n` simultaneous events into an empty window counts `n` of them. */
  lemma BurstIntoEmpty(now: int, window: int, n: nat)
    requires window >= 0
    ensures |Evict(Repeat(now, n), now - window)| == n
  {
    CountInsideWindow(Repeat(now, n), now, window);
  }
}
