/**
 * The sliding-window rate limiter of main.py (class RateLimiter).
 *
 * The limiter keeps a log of admission instants (integer seconds on a clock that
 * never runs backwards).  `acquire` drops every instant at or before
 * `now - window`, sleeps once when the remaining log already holds `capacity`
 * instants, and then records the instant at which it returns.
 */
module RateLimiting {

  /**
   * The `i`-th instant of a log.  The quantified invariants below are triggered
   * on `At` alone, so that they are instantiated only where a proof names `At`.
   */
  function At(s: seq<int>, i: int): int
    requires 0 <= i < |s|
  {
    s[i]
  }

  /** The instants are in non-decreasing order. */
  ghost predicate Sorted(s: seq<int>) {
    forall i, j {:trigger At(s, i), At(s, j)} :: 0 <= i < j < |s| ==> At(s, i) <= At(s, j)
  }

  /**
   * Any `c + 1` consecutive admissions are at least `w` seconds apart, so no
   * half-open window of length `w` contains more than `c` of them.
   */
  ghost predicate Spaced(s: seq<int>, c: nat, w: int) {
    forall i, j {:trigger At(s, i), At(s, j)} :: 0 <= i < |s| && 0 <= j < |s| && j == i + c ==> At(s, i) + w <= At(s, j)
  }

  /**
   * How many instants the prune loop pops: the length of the leading run of
   * instants at or before `cutoff`.
   */
  function PruneCount(q: seq<int>, cutoff: int): (k: nat)
    ensures k <= |q|
    ensures forall i :: 0 <= i < k ==> At(q, i) <= cutoff
    ensures k < |q| ==> q[k] > cutoff
  {
    if q != [] && q[0] <= cutoff then
      var k := 1 + PruneCount(q[1..], cutoff);
      assert forall i :: 1 <= i < k ==> At(q, i) == At(q[1..], i - 1);
      k
    else
      0
  }

  /** The log left after the prune loop. */
  function Pruned(q: seq<int>, cutoff: int): seq<int> {
    q[PruneCount(q, cutoff)..]
  }

  /** The number of seconds `acquire` sleeps, given the pruned log `p` and the current instant. */
  function AcquireWait(p: seq<int>, capacity: nat, window: int, now: int): (wait: int)
    ensures wait >= 0
  {
    if p != [] && |p| >= capacity && p[0] + window - now > 0 then p[0] + window - now else 0
  }

  /** The instant at which `acquire`, called at `now` on the deque `log`, records its admission. */
  function AdmittedAt(log: seq<int>, capacity: nat, window: int, now: int): (t: int)
    ensures t >= now
  {
    now + AcquireWait(Pruned(log, now - window), capacity, window, now)
  }

  /**
   * What the limiter keeps true between calls: `history` is every instant ever
   * admitted, the deque `log` is what is left of it after the first `dropped`
   * instants were popped, and the newest popped instant (so, by the order,
   * every popped one) is at least `window` older than the latest admission.
   */
  ghost predicate LogInvariant(history: seq<int>, dropped: nat, log: seq<int>, capacity: nat, window: int) {
    && Sorted(history)
    && Spaced(history, capacity, window)
    && dropped <= |history|
    && log == history[dropped..]
    && (dropped > 0 ==> history[dropped - 1] + window <= history[|history| - 1])
  }

  /** The clock has not run backwards since the latest admission. */
  ghost predicate ClockAfter(history: seq<int>, now: int) {
    history != [] ==> history[|history| - 1] <= now
  }

  /** Every instant that survives pruning a sorted log is newer than the cutoff. */
  lemma PrunedNewer(q: seq<int>, cutoff: int, i: nat)
    requires Sorted(q)
    requires i < |Pruned(q, cutoff)|
    ensures Pruned(q, cutoff)[i] > cutoff
  {
    var k := PruneCount(q, cutoff);
    assert Pruned(q, cutoff)[i] == At(q, k + i);
    assert At(q, k) <= At(q, k + i) || i == 0;
  }

  /** Every instant in a sorted log is at or before its latest one. */
  lemma SortedBelowLast(s: seq<int>, i: nat)
    requires Sorted(s) && i < |s|
    ensures s[i] <= s[|s| - 1]
  {
    assert i < |s| - 1 ==> At(s, i) <= At(s, |s| - 1);
  }

  /** Appending an instant no older than the latest keeps the log sorted. */
  lemma SortedAppend(s: seq<int>, t: int)
    requires Sorted(s) && ClockAfter(s, t)
    ensures Sorted(s + [t])
  {
    var s' := s + [t];
    forall i, j | 0 <= i < j < |s'|
      ensures At(s', i) <= At(s', j)
    {
      if j < |s| {
        assert At(s', i) == At(s, i) && At(s', j) == At(s, j);
      } else {
        SortedBelowLast(s, i);
      }
    }
  }

  /** Admissions `c` or more places apart are at least `w` seconds apart. */
  lemma SpacedGap(s: seq<int>, c: nat, w: int, i: nat, j: nat)
    requires Sorted(s) && Spaced(s, c, w)
    requires i <= j < |s|
    ensures j - i >= c ==> s[i] + w <= s[j]
  {
    if j - i >= c {
      assert At(s, i) + w <= At(s, i + c);
      assert At(s, i + c) <= At(s, j) || i + c == j;
    }
  }

  /** Appending keeps the spacing when the new instant is `w` after the one `c` places back. */
  lemma SpacedAppend(s: seq<int>, c: nat, w: int, t: int)
    requires c > 0 && Spaced(s, c, w)
    requires |s| >= c ==> s[|s| - c] + w <= t
    ensures Spaced(s + [t], c, w)
  {
    var s' := s + [t];
    forall i, j | 0 <= i < |s'| && 0 <= j < |s'| && j == i + c
      ensures At(s', i) + w <= At(s', j)
    {
      if j < |s| {
        assert At(s', i) == At(s, i) && At(s', j) == At(s, j);
      } else {
        assert At(s', i) == s[|s| - c];
      }
    }
  }

  lemma SliceOfSlice(s: seq<int>, d: nat, k: nat)
    requires d + k <= |s|
    ensures s[d..][k..] == s[d + k..]
  {
  }

  lemma SliceAppend(s: seq<int>, d: nat, t: int)
    requires d <= |s|
    ensures (s + [t])[d..] == s[d..] + [t]
  {
  }

  /** Everything that pruning at `now` leaves behind, or has left behind before, is at least `window` old. */
  lemma DroppedAreOld(history: seq<int>, dropped: nat, log: seq<int>, capacity: nat, window: int, now: int, i: nat)
    requires LogInvariant(history, dropped, log, capacity, window)
    requires ClockAfter(history, now)
    requires i < dropped + PruneCount(log, now - window)
    ensures history[i] + window <= now
  {
    if i >= dropped {
      assert history[i] == At(log, i - dropped);
    } else {
      assert At(history, i) <= At(history, dropped - 1) || i == dropped - 1;
    }
  }

  /** After pruning at `now`, the log never holds more than `capacity` instants. */
  lemma PrunedWithinCapacity(history: seq<int>, dropped: nat, log: seq<int>, capacity: nat, window: int, now: int)
    requires LogInvariant(history, dropped, log, capacity, window)
    requires ClockAfter(history, now)
    ensures |Pruned(log, now - window)| <= capacity
  {
    var k := PruneCount(log, now - window);
    var N := |history|;
    if k < |log| {
      assert log[k] == history[dropped + k];
      SpacedGap(history, capacity, window, dropped + k, N - 1);
      assert history[N - 1] <= now;
      assert N - 1 - (dropped + k) < capacity;
    }
  }

  /**
   * The new admission is at least `window` after the one `capacity` places
   * before it: either that one has been popped (so it is old), or the log was
   * full and the caller slept until it left the window.
   */
  lemma AdmitKeepsSpacing(history: seq<int>, dropped: nat, log: seq<int>, capacity: nat, window: int, now: int)
    requires capacity > 0 && window > 0
    requires LogInvariant(history, dropped, log, capacity, window)
    requires ClockAfter(history, now)
    ensures Spaced(history + [AdmittedAt(log, capacity, window, now)], capacity, window)
  {
    var k := PruneCount(log, now - window);
    var p := Pruned(log, now - window);
    var t := AdmittedAt(log, capacity, window, now);
    var N := |history|;
    PrunedWithinCapacity(history, dropped, log, capacity, window, now);
    if N >= capacity {
      if |p| < capacity {
        DroppedAreOld(history, dropped, log, capacity, window, now, N - capacity);
      } else {
        assert p[0] == log[k] == history[dropped + k];
        assert N - capacity == dropped + k;
      }
    }
    SpacedAppend(history, capacity, window, t);
  }

  /** After one admission the deque is again the undropped part of the history. */
  lemma AdmitKeepsSuffix(history: seq<int>, dropped: nat, log: seq<int>, capacity: nat, window: int, now: int)
    requires LogInvariant(history, dropped, log, capacity, window)
    requires ClockAfter(history, now)
    ensures var h' := history + [AdmittedAt(log, capacity, window, now)];
            var d' := dropped + PruneCount(log, now - window);
            && d' <= |h'|
            && Pruned(log, now - window) + [AdmittedAt(log, capacity, window, now)] == h'[d'..]
            && (d' > 0 ==> h'[d' - 1] + window <= h'[|h'| - 1])
  {
    var k := PruneCount(log, now - window);
    var t := AdmittedAt(log, capacity, window, now);
    var h' := history + [t];
    if dropped + k > 0 {
      DroppedAreOld(history, dropped, log, capacity, window, now, dropped + k - 1);
      assert h'[dropped + k - 1] == history[dropped + k - 1];
    }
    SliceOfSlice(history, dropped, k);
    SliceAppend(history, dropped + k, t);
  }

  /**
   * One admission keeps the limiter's invariant: after popping `k` instants and
   * recording `t`, the deque `p + [t]` is again what is left of the history.
   */
  lemma AdmitPreservesInvariant(history: seq<int>, dropped: nat, log: seq<int>, capacity: nat, window: int, now: int,
                                k: nat, p: seq<int>, t: int)
    requires capacity > 0 && window > 0
    requires LogInvariant(history, dropped, log, capacity, window)
    requires ClockAfter(history, now)
    requires k == PruneCount(log, now - window) && p == Pruned(log, now - window)
    requires t == AdmittedAt(log, capacity, window, now)
    ensures LogInvariant(history + [t], dropped + k, p + [t], capacity, window)
    ensures ClockAfter(history + [t], t)
  {
    SortedAppend(history, t);
    AdmitKeepsSpacing(history, dropped, log, capacity, window, now);
    AdmitKeepsSuffix(history, dropped, log, capacity, window, now);
  }

  /**
   * Under the invariant `acquire` sleeps exactly when the pruned deque is full,
   * and then precisely until its oldest instant leaves the window.
   */
  lemma AcquireSleepsExactlyWhenFull(history: seq<int>, dropped: nat, log: seq<int>, capacity: nat, window: int, now: int)
    requires capacity > 0 && window > 0
    requires LogInvariant(history, dropped, log, capacity, window)
    requires ClockAfter(history, now)
    ensures var p := Pruned(log, now - window);
            var wait := AcquireWait(p, capacity, window, now);
            && (wait > 0 <==> |p| == capacity)
            && (wait > 0 ==> now + wait == p[0] + window)
  {
    var p := Pruned(log, now - window);
    PrunedWithinCapacity(history, dropped, log, capacity, window, now);
    if p != [] {
      assert p[0] == log[PruneCount(log, now - window)];
    }
  }

  /** `AdmitPreservesInvariant` for the pruned deque `p` and the sleep computed from it. */
  lemma AdmitAfterWait(history: seq<int>, dropped: nat, log: seq<int>, capacity: nat, window: int, now: int,
                       p: seq<int>, slept: int)
    requires capacity > 0 && window > 0
    requires LogInvariant(history, dropped, log, capacity, window) && ClockAfter(history, now)
    requires p == Pruned(log, now - window) && slept == AcquireWait(p, capacity, window, now)
    ensures LogInvariant(history + [now + slept], dropped + PruneCount(log, now - window), p + [now + slept], capacity, window)
    ensures |p| <= capacity
  {
    PrunedWithinCapacity(history, dropped, log, capacity, window, now);
    AdmitPreservesInvariant(history, dropped, log, capacity, window, now, PruneCount(log, now - window), p, now + slept);
  }

  /**
   * The bound of the limiter's contract, read off the invariant: any stretch of
   * admissions that fits inside a window shorter than `window` seconds holds at
   * most `capacity` of them.
   */
  lemma AdmittedPerWindow(history: seq<int>, capacity: nat, window: int, i: nat, j: nat)
    requires Sorted(history) && Spaced(history, capacity, window)
    requires i <= j < |history|
    requires history[j] - history[i] < window
    ensures j - i + 1 <= capacity
  {
    SpacedGap(history, capacity, window, i, j);
  }

  class RateLimiter {
    const capacity: nat
    const window: int
    /** The deque of admission instants. */
    var requests: seq<int>
    /** Every instant this limiter has admitted, oldest first. */
    ghost var history: seq<int>
    /** How many of them have been popped from the deque. */
    ghost var dropped: nat

    ghost predicate Valid()
      reads this
    {
      capacity > 0 && window > 0 && LogInvariant(history, dropped, requests, capacity, window)
    }

    constructor (requestsPerWindow: nat, windowSeconds: int)
      requires requestsPerWindow > 0 && windowSeconds > 0
      ensures Valid()
      ensures capacity == requestsPerWindow && window == windowSeconds
      ensures requests == [] && history == []
    {
      capacity := requestsPerWindow;
      window := windowSeconds;
      requests := [];
      history := [];
      dropped := 0;
    }

    /**
     * The prune loop of `acquire`: pops every leading instant at or before
     * `cutoff`, counting the pops in `dropped`.
     */
    method Prune(cutoff: int)
      modifies this`requests, this`dropped
      ensures dropped == old(dropped) + PruneCount(old(requests), cutoff)
      ensures requests == Pruned(old(requests), cutoff)
    {
      ghost var popped: nat := 0;
      while requests != [] && requests[0] <= cutoff
        invariant popped <= |old(requests)| && requests == old(requests)[popped..]
        invariant popped + PruneCount(requests, cutoff) == PruneCount(old(requests), cutoff)
        invariant dropped == old(dropped) + popped
        decreases |requests|
      {
        requests := requests[1..];
        dropped := dropped + 1;
        popped := popped + 1;
      }
    }

    /** Replaces the deque and the ghost bookkeeping by values known to satisfy the invariant. */
    method Store(log: seq<int>, ghost h: seq<int>, ghost d: nat)
      requires capacity > 0 && window > 0 && LogInvariant(h, d, log, capacity, window)
      modifies this`requests, this`history, this`dropped
      ensures Valid() && requests == log && history == h && dropped == d
    {
      requests := log;
      history := h;
      dropped := d;
    }

    /**
     * The rest of `acquire` once the deque is pruned: sleep until the oldest
     * instant leaves the window when the deque is full, then record the
     * admission.  `h`, `d` and `log` are the history, the pop count and the
     * deque before the call, made at `now`.
     */
    method WaitAndRecord(now: int, ghost h: seq<int>, ghost d: nat, ghost log: seq<int>) returns (slept: int)
      requires capacity > 0 && window > 0
      requires LogInvariant(h, d, log, capacity, window) && ClockAfter(h, now)
      requires history == h && dropped == d + PruneCount(log, now - window) && requests == Pruned(log, now - window)
      modifies this`requests, this`history, this`dropped
      ensures Valid()
      ensures slept == AcquireWait(Pruned(log, now - window), capacity, window, now)
      ensures requests == Pruned(log, now - window) + [now + slept] && history == h + [now + slept]
      ensures |requests| <= capacity + 1
    {
      var p := requests;
      slept := 0;
      if |p| >= capacity {
        var waitTime := p[0] + window - now;
        if waitTime > 0 {
          slept := waitTime;
        }
      }
      AdmitAfterWait(h, d, log, capacity, window, now, p, slept);
      Store(p + [now + slept], h + [now + slept], d + PruneCount(log, now - window));
    }

    /**
     * Admits one request at instant `now`; `slept` is how long the caller is
     * suspended, so the request is recorded at `now + slept`.
     */
    method Acquire(now: int) returns (slept: int)
      requires Valid()
      requires ClockAfter(history, now)
      modifies this
      ensures Valid()
      ensures slept == AcquireWait(Pruned(old(requests), now - window), capacity, window, now)
      ensures requests == Pruned(old(requests), now - window) + [now + slept]
      ensures history == old(history) + [now + slept]
      ensures |requests| <= capacity + 1
    {
      Prune(now - window);
      slept := WaitAndRecord(now, old(history), old(dropped), old(requests));
    }
  }
}
