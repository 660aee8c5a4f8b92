/** When does the sliding window catch a writer? Exactly when some threshold-long run of its
    operations fits in one window; a writer slower than that is never caught, however long it goes on. */
module DetectionRate {
  import opened Base
  import opened SlidingWindow
  import opened Kernel

  /** The times of every operation submitted by `pid`, recorded or denied. */
  function Submitted(es: seq<Event>, pid: ULong): seq<Ticks> {
    if es == [] then []
    else
      var front, e := es[..|es| - 1], es[|es| - 1];
      if e.Record? && e.pid == pid then Submitted(front, pid) + [e.now] else Submitted(front, pid)
  }

  predicate LeavesAlone(e: Event, pid: ULong) {
    !e.Configure? && !e.SetMonitoring? && e != Unblock(pid)
  }

  /** No reconfiguration and no unblock of `pid`; other PIDs and queries may interleave freely. */
  predicate Steady(es: seq<Event>, pid: ULong) {
    forall i :: 0 <= i < |es| ==> LeavesAlone(es[i], pid)
  }

  ghost predicate BurstAt(times: seq<Ticks>, i: int, threshold: int, window: int)
    requires 1 <= threshold
  {
    0 <= i && i + threshold <= |times| && times[i + threshold - 1] - times[i] <= window
  }

  ghost predicate HasBurst(times: seq<Ticks>, threshold: int, window: int)
    requires 1 <= threshold
  {
    exists i :: BurstAt(times, i, threshold, window)
  }

  lemma CountReaches(times: seq<Ticks>, threshold: nat, window: int)
    requires Sorted(times) && 1 <= threshold && times != []
    ensures |Within(times, times[|times| - 1], window)| >= threshold
       <==> BurstAt(times, |times| - threshold, threshold, window)
  {
    var now := times[|times| - 1];
    var cut := WithinIsSuffix(times, now, window);
    if threshold <= |times| {
      assert now - times[|times| - threshold] <= window <==> cut <= |times| - threshold;
    }
  }

  lemma BurstGrows(times: seq<Ticks>, now: Ticks, threshold: nat, window: int)
    requires 1 <= threshold
    ensures HasBurst(times + [now], threshold, window)
       <==> HasBurst(times, threshold, window) || BurstAt(times + [now], |times| + 1 - threshold, threshold, window)
  {
    var longer := times + [now];
    if HasBurst(times, threshold, window) {
      var i :| BurstAt(times, i, threshold, window);
      assert BurstAt(longer, i, threshold, window);
    }
    if HasBurst(longer, threshold, window) {
      var i :| BurstAt(longer, i, threshold, window);
      if i + threshold <= |times| {
        assert BurstAt(times, i, threshold, window);
      }
    }
  }

  /** While a PID stays unblocked under a steady configuration its log is everything it submitted. */
  lemma {:induction false} UnblockedLogsAll(s: State, es: seq<Event>, pid: ULong)
    requires pid !in s.table && Steady(es, pid)
    ensures Run(s, es).config == s.config
    ensures !IsBlocked(Run(s, es).table, pid) ==>
              && Times(Logged(s, es, pid)) == Submitted(es, pid)
              && forall i :: 0 <= i < |Logged(s, es, pid)| ==> Logged(s, es, pid)[i].window == s.config.ticks
  {
    if es != [] {
      var front, e := es[..|es| - 1], es[|es| - 1];
      assert LeavesAlone(e, pid);
      UnblockedLogsAll(s, front, pid);
      if !IsBlocked(Run(s, es).table, pid) && e.Record? && e.pid == pid {
        var log := Logged(s, front, pid);
        assert (log + [Stamp(e.now, s.config.ticks)])[..|log|] == log;
      }
    }
  }

  /** Exactly when a writer is caught: with timestamps in order and no reconfiguration, a PID ends up
      blocked iff monitoring is on, the threshold is at most 256, and some `threshold` consecutive
      operations of its own span no more than the window. */
  lemma {:induction false} CaughtIffBurst(s: State, es: seq<Event>, pid: ULong)
    requires pid !in s.table && 1 <= s.config.threshold
    requires Steady(es, pid) && Sorted(Submitted(es, pid))
    ensures IsBlocked(Run(s, es).table, pid)
       <==> && s.config.monitoring && s.config.threshold <= 256
            && HasBurst(Submitted(es, pid), s.config.threshold, s.config.ticks)
  {
    if es != [] {
      var front, e := es[..|es| - 1], es[|es| - 1];
      var times := Submitted(front, pid);
      assert LeavesAlone(e, pid);
      assert forall i :: 0 <= i < |times| ==> times[i] == Submitted(es, pid)[i];
      CaughtIffBurst(s, front, pid);
      UnblockedLogsAll(s, front, pid);
      if e.Record? && e.pid == pid {
        BurstGrows(times, e.now, s.config.threshold, s.config.ticks);
        if !IsBlocked(Run(s, front).table, pid) {
          LastOperationDecides(s, front, pid, e.image, e.now);
        }
      }
    }
  }

  lemma LastOperationDecides(s: State, front: seq<Event>, pid: ULong, image: Option<string>, now: Ticks)
    requires pid !in s.table && 1 <= s.config.threshold
    requires Steady(front, pid) && Sorted(Submitted(front, pid) + [now])
    requires !IsBlocked(Run(s, front).table, pid)
    ensures IsBlocked(After(Run(s, front), Record(pid, image, now)).table, pid)
       <==> && s.config.monitoring && s.config.threshold <= RING_CAPACITY
            && BurstAt(Submitted(front, pid) + [now], |Submitted(front, pid)| + 1 - s.config.threshold,
                       s.config.threshold, s.config.ticks)
  {
    SteadyLog(s, front, pid, now);
    BlocksExactlyLikeLog(s, front, pid, image, now);
    CountReaches(Submitted(front, pid) + [now], s.config.threshold, s.config.ticks);
  }

  lemma SteadyLog(s: State, front: seq<Event>, pid: ULong, now: Ticks)
    requires pid !in s.table && Steady(front, pid) && Sorted(Submitted(front, pid) + [now])
    requires !IsBlocked(Run(s, front).table, pid)
    ensures Run(s, front).config == s.config
    ensures Times(LogWith(s, front, pid, now)) == Submitted(front, pid) + [now]
    ensures Disciplined(LogWith(s, front, pid, now))
  {
    var log := LogWith(s, front, pid, now);
    UnblockedLogsAll(s, front, pid);
    assert log[..|log| - 1] == Logged(s, front, pid);
    OrderedLog(log, Submitted(front, pid) + [now], s.config.ticks);
  }

  lemma OrderedLog(log: seq<Stamp>, times: seq<Ticks>, window: int)
    requires Times(log) == times && Sorted(times) && forall i :: 0 <= i < |log| ==> log[i].window == window
    ensures Disciplined(log)
  {
    TimesOf(log);
  }

  ghost predicate Spaced(times: seq<Ticks>, gap: int) {
    forall i :: 0 < i < |times| ==> times[i] - times[i - 1] >= gap
  }

  /** A writer that always leaves at least `gap` ticks between operations is never caught once
      threshold - 1 gaps exceed the window, however many operations it submits. */
  lemma SlowWriterEscapes(s: State, es: seq<Event>, pid: ULong, gap: nat)
    requires pid !in s.table && 1 <= s.config.threshold
    requires Steady(es, pid)
    requires Spaced(Submitted(es, pid), gap)
    requires (s.config.threshold - 1) * gap > s.config.ticks
    ensures !IsBlocked(Run(s, es).table, pid)
  {
    var times := Submitted(es, pid);
    forall i, j | 0 <= i <= j < |times| ensures times[j] - times[i] >= (j - i) * gap && times[i] <= times[j] {
      GapsAddUp(times, i, j, gap);
    }
    CaughtIffBurst(s, es, pid);
  }

  lemma {:induction false} GapsAddUp(times: seq<Ticks>, i: nat, j: nat, gap: nat)
    requires Spaced(times, gap)
    requires i <= j < |times|
    ensures times[j] - times[i] >= (j - i) * gap
    ensures times[i] <= times[j]
    decreases j - i
  {
    if i < j {
      GapsAddUp(times, i, j - 1, gap);
      assert (j - i) * gap == (j - 1 - i) * gap + gap;
    }
  }

  /** With the defaults (50 operations in 10 seconds) a writer at ten files a minute goes on
      unblocked for any number of files. */
  lemma TenFilesAMinuteEscapes(es: seq<Event>, pid: ULong)
    requires Steady(es, pid)
    requires Spaced(Submitted(es, pid), 6 * TICKS_PER_SECOND)
    ensures !IsBlocked(Run(INITIAL, es).table, pid)
  {
    SlowWriterEscapes(INITIAL, es, pid, 6 * TICKS_PER_SECOND);
  }

  /** With the defaults a process is caught exactly if 50 operations in a row, the first to the last of them,
      take no more than 10 seconds of 10^7 ticks. */
  lemma {:induction false} DefaultsCatch(es: seq<Event>, pid: ULong)
    requires Steady(es, pid) && Sorted(Submitted(es, pid))
    ensures IsBlocked(Run(INITIAL, es).table, pid)
       <==> exists i :: 0 <= i < |Submitted(es, pid)| - 49 && Submitted(es, pid)[i + 49] - Submitted(es, pid)[i] <= 100_000_000
  {
    var times := Submitted(es, pid);
    CaughtIffBurst(INITIAL, es, pid);
    if i :| 0 <= i < |times| - 49 && times[i + 49] - times[i] <= 100_000_000 {
      assert BurstAt(times, i, 50, 100_000_000);
    }
  }

  /** The window is closed: of two operations, the first still counts when it is exactly one window old,
      and no longer one tick later. */
  lemma {:induction false} WindowIsClosed(s: State, pid: ULong, image: Option<string>, first: Ticks, second: Ticks)
    requires pid !in s.table && s.config.monitoring && s.config.threshold == 2 && first <= second
    ensures IsBlocked(Run(s, [Record(pid, image, first), Record(pid, image, second)]).table, pid)
       <==> second - first <= s.config.ticks
  {
    var a, b := Record(pid, image, first), Record(pid, image, second);
    var es := [a, b];
    assert es[..1] == [a] && [a][..0] == [];
    assert Submitted([a], pid) == [first];
    assert Submitted(es, pid) == [first, second];
    CaughtIffBurst(s, es, pid);
    var times := Submitted(es, pid);
    assert BurstAt(times, 0, 2, s.config.ticks) <==> second - first <= s.config.ticks;
    assert forall i :: BurstAt(times, i, 2, s.config.ticks) ==> i == 0;
  }

  // ---- No cap on tracked processes -----------------------------------------------------------------

  /** The PIDs that can be recorded, counted from 0. */
  function LegalPid(i: nat): ULong
    requires i < ULONG_RANGE - 2
  {
    if i < 3 then i + 1 else i + 2
  }

  /** One operation of each of the first n of them. */
  function OneEach(n: nat): seq<Event>
    requires n <= ULONG_RANGE - 2
  {
    if n == 0 then [] else OneEach(n - 1) + [Record(LegalPid(n - 1), None, 0)]
  }

  ghost predicate AmongFirst(table: Table, n: nat)
    requires n <= ULONG_RANGE - 2
  {
    forall pid :: pid in table ==> exists i: nat :: i < n && pid == LegalPid(i)
  }

  lemma RecordedKeys(s: State, pid: ULong)
    ensures After(s, Record(pid, None, 0)).table.Keys == s.table.Keys + {pid}
  {
  }

  lemma OneMoreKey(before: Table, after: Table, n: nat)
    requires 0 < n <= ULONG_RANGE - 2 && AmongFirst(before, n - 1) && after.Keys == before.Keys + {LegalPid(n - 1)}
    ensures |after| == |before| + 1 && AmongFirst(after, n)
  {
    assert |after| == |after.Keys| && |before| == |before.Keys|;
    assert LegalPid(n - 1) !in before;
    forall pid | pid in after ensures exists i: nat :: i < n && pid == LegalPid(i) {
      if pid != LegalPid(n - 1) {
        assert pid in before;
      }
    }
  }

  lemma {:induction false} OneEachIsLegal(n: nat)
    requires n <= ULONG_RANGE - 2
    ensures AllLegal(OneEach(n))
  {
    if n > 0 {
      OneEachIsLegal(n - 1);
    }
  }

  /** Nothing limits how many processes are tracked, short of the number of PIDs there are: for every
      such n some run of recordings leaves exactly n contexts. */
  lemma {:induction false} AnyNumberTracked(n: nat)
    requires n <= ULONG_RANGE - 2
    ensures AllLegal(OneEach(n)) && |Run(INITIAL, OneEach(n)).table| == n
    ensures AmongFirst(Run(INITIAL, OneEach(n)).table, n)
  {
    OneEachIsLegal(n);
    if n > 0 {
      var front, e := OneEach(n - 1), Record(LegalPid(n - 1), None, 0);
      AnyNumberTracked(n - 1);
      RunSnoc(INITIAL, front, e);
      RecordedKeys(Run(INITIAL, front), LegalPid(n - 1));
      OneMoreKey(Run(INITIAL, front).table, After(Run(INITIAL, front), e).table, n);
    }
  }
}
