/** The sliding window as mathematics on sequences of timestamps: one pruning-and-append
    step of the bounded ring, and the unbounded log that the ring stands for. */
module SlidingWindow {
  import opened Base

  /** The timestamps of age at most `window` at time `now`, in order. */
  function Within(log: seq<Ticks>, now: Ticks, window: int): seq<Ticks> {
    Scan(log, |log|, now, window)
  }

  /** The same selection over the first n entries only, as a scan in progress has it. */
  function Scan(log: seq<Ticks>, n: nat, now: Ticks, window: int): seq<Ticks>
    requires n <= |log|
  {
    if n == 0 then []
    else
      var earlier := Scan(log, n - 1, now, window);
      if now - log[n - 1] <= window then earlier + [log[n - 1]] else earlier
  }

  lemma {:induction false} ScanIgnoresTail(log: seq<Ticks>, tail: seq<Ticks>, n: nat, now: Ticks, window: int)
    requires n <= |log|
    ensures Scan(log + tail, n, now, window) == Scan(log, n, now, window)
    ensures |Scan(log, n, now, window)| <= n
  {
    if n > 0 {
      ScanIgnoresTail(log, tail, n - 1, now, window);
    }
  }

  lemma WithinSnoc(log: seq<Ticks>, last: Ticks, now: Ticks, window: int)
    ensures Within(log + [last], now, window)
         == if now - last <= window then Within(log, now, window) + [last] else Within(log, now, window)
  {
    ScanIgnoresTail(log, [last], |log|, now, window);
  }

  /** Split a non-empty log at its newest entry. */
  lemma WithinFront(log: seq<Ticks>, now: Ticks, window: int)
    requires log != []
    ensures log == log[..|log| - 1] + [log[|log| - 1]]
    ensures Within(log, now, window)
         == if now - log[|log| - 1] <= window
            then Within(log[..|log| - 1], now, window) + [log[|log| - 1]]
            else Within(log[..|log| - 1], now, window)
  {
    WithinSnoc(log[..|log| - 1], log[|log| - 1], now, window);
  }

  /** One recorded operation: prune, then append, dropping the oldest when full. */
  function RingStep(ring: seq<Ticks>, now: Ticks, window: int): seq<Ticks> {
    Last(Within(ring, now, window) + [now], RING_CAPACITY)
  }

  /** A recorded operation together with the window length in force when it was recorded. */
  datatype Stamp = Stamp(at: Ticks, window: int)

  /** The ring a context holds after recording the given operations. */
  function Replay(log: seq<Stamp>): seq<Ticks> {
    if log == [] then []
    else
      var last := log[|log| - 1];
      RingStep(Replay(log[..|log| - 1]), last.at, last.window)
  }

  /** The unbounded log: every timestamp, nothing pruned. */
  function Times(log: seq<Stamp>): seq<Ticks> {
    if log == [] then [] else Times(log[..|log| - 1]) + [log[|log| - 1].at]
  }

  ghost predicate Sorted(log: seq<Ticks>) {
    forall i, j :: 0 <= i <= j < |log| ==> log[i] <= log[j]
  }

  /** Recorded in timestamp order and the window never widened. */
  ghost predicate Disciplined(log: seq<Stamp>) {
    forall i, j :: 0 <= i <= j < |log| ==> log[i].at <= log[j].at && log[i].window >= log[j].window
  }

  ghost predicate AllWithin(log: seq<Ticks>, now: Ticks, window: int) {
    forall i :: 0 <= i < |log| ==> now - log[i] <= window
  }

  // ---- Filtering -----------------------------------------------------------------

  lemma {:induction false} WithinSelects(log: seq<Ticks>, now: Ticks, window: int)
    ensures |Within(log, now, window)| <= |log|
    ensures AllWithin(Within(log, now, window), now, window)
    ensures AllWithin(log, now, window) <==> Within(log, now, window) == log
  {
    if log == [] {
    } else {
      var front := log[..|log| - 1];
      WithinSelects(front, now, window);
      WithinFront(log, now, window);
      if AllWithin(log, now, window) {
        assert forall i :: 0 <= i < |front| ==> front[i] == log[i];
      }
    }
  }

  lemma {:induction false} WithinConcat(a: seq<Ticks>, b: seq<Ticks>, now: Ticks, window: int)
    ensures Within(a + b, now, window) == Within(a, now, window) + Within(b, now, window)
  {
    if b == [] {
      assert a + b == a;
    } else {
      var front, last := b[..|b| - 1], b[|b| - 1];
      WithinConcat(a, front, now, window);
      WithinFront(b, now, window);
      WithinSnoc(a + front, last, now, window);
      assert a + b == a + front + [last];
    }
  }

  /** Counting what is in one window after pruning by another never gains entries. */
  lemma {:induction false} PruningNeverAdds(log: seq<Ticks>, t: Ticks, w: int, now: Ticks, window: int)
    ensures |Within(Within(log, t, w), now, window)| <= |Within(log, now, window)|
  {
    if log == [] {
    } else {
      var front, last := log[..|log| - 1], log[|log| - 1];
      PruningNeverAdds(front, t, w, now, window);
      WithinFront(log, t, w);
      WithinFront(log, now, window);
      WithinSnoc(Within(front, t, w), last, now, window);
    }
  }

  /** A later instant with a window no wider sees nothing that an earlier pruning dropped. */
  lemma {:induction false} LaterWindowIsNested(log: seq<Ticks>, t: Ticks, w: int, now: Ticks, window: int)
    requires t <= now && window <= w
    ensures Within(Within(log, t, w), now, window) == Within(log, now, window)
  {
    if log == [] {
    } else {
      var front, last := log[..|log| - 1], log[|log| - 1];
      LaterWindowIsNested(front, t, w, now, window);
      WithinFront(log, t, w);
      WithinFront(log, now, window);
      WithinSnoc(Within(front, t, w), last, now, window);
    }
  }

  /** If everything before `cut` is too old and everything from it on is not, pruning cuts there. */
  lemma WithinCuts(log: seq<Ticks>, cut: nat, now: Ticks, window: int)
    requires cut <= |log|
    requires forall i :: 0 <= i < cut ==> now - log[i] > window
    requires forall i :: cut <= i < |log| ==> now - log[i] <= window
    ensures Within(log, now, window) == log[cut..]
  {
    assert log == log[..cut] + log[cut..];
    WithinConcat(log[..cut], log[cut..], now, window);
    NoneWithin(log[..cut], now, window);
    WithinSelects(log[cut..], now, window);
  }

  lemma {:induction false} NoneWithin(log: seq<Ticks>, now: Ticks, window: int)
    requires forall i :: 0 <= i < |log| ==> now - log[i] > window
    ensures Within(log, now, window) == []
  {
    if log != [] {
      NoneWithin(log[..|log| - 1], now, window);
      WithinFront(log, now, window);
    }
  }

  /** In a sorted log the entries in the window are exactly a suffix. */
  lemma {:induction false} WithinIsSuffix(log: seq<Ticks>, now: Ticks, window: int) returns (cut: nat)
    requires Sorted(log)
    ensures cut <= |log| && Within(log, now, window) == log[cut..]
    ensures forall i :: 0 <= i < |log| ==> (now - log[i] <= window <==> cut <= i)
  {
    cut := 0;
    while cut < |log| && now - log[cut] > window
      invariant cut <= |log|
      invariant forall i :: 0 <= i < cut ==> now - log[i] > window
    {
      cut := cut + 1;
    }
    WithinCuts(log, cut, now, window);
  }

  lemma WithinOfSuffix(log: seq<Ticks>, m: nat, now: Ticks, window: int)
    requires Sorted(log) && m <= |log|
    ensures Within(log[m..], now, window) == Last(Within(log, now, window), |log| - m)
  {
    var cut := WithinIsSuffix(log, now, window);
    var tail := log[m..];
    if cut <= m {
      WithinCuts(tail, 0, now, window);
      assert log[cut..][m - cut..] == tail;
    } else {
      WithinCuts(tail, cut - m, now, window);
      assert tail[cut - m..] == log[cut..];
    }
  }

  // ---- The recount and the bounded ring --------------------------------------------

  /** The precise recount after prune and append always equals the ring's own length. */
  lemma RecountAgrees(ring: seq<Ticks>, now: Ticks, window: int)
    requires 0 <= window
    ensures Within(RingStep(ring, now, window), now, window) == RingStep(ring, now, window)
    ensures 1 <= |RingStep(ring, now, window)| <= RING_CAPACITY
    ensures RingStep(ring, now, window)[|RingStep(ring, now, window)| - 1] == now
  {
    var kept := Within(ring, now, window) + [now];
    WithinSelects(ring, now, window);
    assert AllWithin(kept, now, window);
    assert AllWithin(Last(kept, RING_CAPACITY), now, window);
    WithinSelects(Last(kept, RING_CAPACITY), now, window);
  }

  /** One step keeps the ring equal to the last 256 in-window entries of the log. */
  lemma StepKeepsLastWithin(log: seq<Ticks>, t: Ticks, w: int, now: Ticks, window: int)
    requires Sorted(log + [now]) && t <= now && 0 <= window <= w
    ensures RingStep(Last(Within(log, t, w), RING_CAPACITY), now, window)
         == Last(Within(log + [now], now, window), RING_CAPACITY)
  {
    var before, after := Within(log, t, w), Within(log, now, window);
    assert Sorted(log) by {
      assert forall i :: 0 <= i < |log| ==> log[i] == (log + [now])[i];
    }
    var cut := WithinIsSuffix(log, t, w);
    WithinSelects(before, now, window);
    LaterWindowIsNested(log, t, w, now, window);
    var m := |log| - Min(|before|, RING_CAPACITY);
    assert Last(before, RING_CAPACITY) == log[m..];
    WithinOfSuffix(log, m, now, window);
    assert Within(log[m..], now, window) == Last(after, RING_CAPACITY);
    WithinSnoc(log, now, now, window);
    LastSnoc(after, now, RING_CAPACITY);
  }

  lemma LastSnoc<T>(s: seq<T>, x: T, n: nat)
    requires n > 0
    ensures Last(Last(s, n) + [x], n) == Last(s + [x], n)
  {
  }

  /** Ring refines log: in timestamp order and with no widening, the ring is exactly the last
      256 of the logged timestamps that lie in the current window. */
  lemma {:induction false} RingIsLastWithin(log: seq<Stamp>)
    requires log != [] && Disciplined(log)
    requires forall i :: 0 <= i < |log| ==> 0 <= log[i].window
    ensures Replay(log) == Last(Within(Times(log), log[|log| - 1].at, log[|log| - 1].window), RING_CAPACITY)
  {
    var front, last := log[..|log| - 1], log[|log| - 1];
    TimesOf(log);
    if front == [] {
      WithinOne(last.at, last.at, last.window);
      assert Times(log) == [last.at] == [] + [last.at];
    } else {
      var prior := front[|front| - 1];
      RingIsLastWithin(front);
      StepKeepsLastWithin(Times(front), prior.at, prior.window, last.at, last.window);
    }
  }

  lemma ReplaySnoc(log: seq<Stamp>, last: Stamp)
    ensures Replay(log + [last]) == RingStep(Replay(log), last.at, last.window)
  {
    assert (log + [last])[..|log|] == log;
  }

  lemma {:induction false} TimesOf(log: seq<Stamp>)
    ensures |Times(log)| == |log|
    ensures forall i :: 0 <= i < |log| ==> Times(log)[i] == log[i].at
  {
    if log != [] {
      TimesOf(log[..|log| - 1]);
    }
  }

  /** With no assumption on clock order or on the window: whatever the ring shows in a window,
      the unbounded log shows at least as much of. */
  lemma {:induction false} RingNeverOvercounts(log: seq<Stamp>, now: Ticks, window: int)
    ensures |Within(Replay(log), now, window)| <= |Within(Times(log), now, window)|
  {
    if log == [] {
    } else {
      var front, last := log[..|log| - 1], log[|log| - 1];
      var ring := Replay(front);
      var kept := Within(ring, last.at, last.window);
      RingNeverOvercounts(front, now, window);
      PruningNeverAdds(ring, last.at, last.window, now, window);
      WithinSnoc(kept, last.at, now, window);
      WithinSnoc(Times(front), last.at, now, window);
      var all := kept + [last.at];
      if |all| > RING_CAPACITY {
        var m := |all| - RING_CAPACITY;
        assert all == all[..m] + all[m..];
        WithinConcat(all[..m], all[m..], now, window);
      }
    }
  }

  lemma WithinOne(x: Ticks, now: Ticks, w: int)
    ensures Within([x], now, w) == if now - x <= w then [x] else []
  {
    WithinFront([x], now, w);
  }
}
