/** Exactly which operations the bounded ring still holds, whatever the clock or the configuration did,
    and hence exactly when it decides as the unbounded log would. */
module Retention {
  import opened Base
  import opened SlidingWindow
  import Kernel

  // ---- What a ring keeps ---------------------------------------------------------------------

  /** Entry i was no older than the window at any record after it, up to the k-th. */
  predicate Outlasts(log: seq<Stamp>, i: nat, k: nat)
    requires i <= k < |log|
  {
    forall m :: i < m <= k ==> log[m].at - log[i].at <= log[m].window
  }

  /** The entries newer than i that no pruning up to the k-th record dropped. */
  ghost function Newer(log: seq<Stamp>, i: nat, k: nat): set<nat>
    requires i <= k < |log|
  {
    set j: nat | i < j <= k && Outlasts(log, j, k)
  }

  /** Entry i was neither pruned nor overwritten: it was in the window of every later record, and at
      none of them were there 256 newer entries. */
  ghost predicate Kept(log: seq<Stamp>, i: nat)
    requires i < |log|
  {
    Outlasts(log, i, |log| - 1) && forall k :: i <= k < |log| ==> |Newer(log, i, k)| < RING_CAPACITY
  }

  ghost function KeptEntries(log: seq<Stamp>): set<nat> {
    set i: nat | i < |log| && Kept(log, i)
  }

  ghost function InWindow(log: seq<Stamp>, now: Ticks, window: int): set<nat> {
    set i: nat | i < |log| && now - log[i].at <= window
  }

  /** Up to 256 records nothing is ever overwritten, so only pruning matters. */
  lemma ShortLogKeeps(log: seq<Stamp>, i: nat)
    requires i < |log| <= RING_CAPACITY
    ensures Kept(log, i) <==> forall m :: i < m < |log| ==> log[m].at - log[i].at <= log[m].window
  {
    forall k | i <= k < |log| ensures |Newer(log, i, k)| < RING_CAPACITY {
      BoundedSet(Newer(log, i, k) + {0}, |log|);
    }
  }

  // ---- The ring by positions in the log --------------------------------------------------------

  predicate Below(slots: seq<nat>, n: nat) {
    forall k :: 0 <= k < |slots| ==> slots[k] < n
  }

  ghost predicate Increasing(s: seq<nat>) {
    forall x, y :: 0 <= x < y < |s| ==> s[x] < s[y]
  }

  ghost function Elements(s: seq<nat>): set<nat> {
    set x | x in s
  }

  /** Those of `slots` that are in the window of the record at position n. */
  function Select(slots: seq<nat>, log: seq<Stamp>, n: nat): (chosen: seq<nat>)
    requires n < |log| && Below(slots, n)
    ensures Below(chosen, n)
  {
    if slots == [] then []
    else
      var front, last := slots[..|slots| - 1], slots[|slots| - 1];
      if log[n].at - log[last].at <= log[n].window then Select(front, log, n) + [last] else Select(front, log, n)
  }

  /** The positions in the log of what the ring holds, oldest first. */
  function Slots(log: seq<Stamp>): (slots: seq<nat>)
    ensures Below(slots, |log|)
  {
    if log == [] then []
    else
      var n := |log| - 1;
      Last(Select(Slots(log[..n]), log, n) + [n], RING_CAPACITY)
  }

  function Stamps(slots: seq<nat>, log: seq<Stamp>): seq<Ticks>
    requires Below(slots, |log|)
  {
    seq(|slots|, k requires 0 <= k < |slots| => log[slots[k]].at as Ticks)
  }

  lemma SplitLast(s: seq<nat>)
    requires s != []
    ensures s == s[..|s| - 1] + [s[|s| - 1]]
    ensures Elements(s) == Elements(s[..|s| - 1]) + {s[|s| - 1]}
    ensures Increasing(s) ==> Increasing(s[..|s| - 1]) && Below(s[..|s| - 1], s[|s| - 1]) && s[|s| - 1] !in Elements(s[..|s| - 1])
  {
    var front, last := s[..|s| - 1], s[|s| - 1];
    assert forall k :: 0 <= k < |front| ==> front[k] == s[k];
    forall x | x in s ensures x in front || x == last {
      var k :| 0 <= k < |s| && s[k] == x;
      assert k < |front| ==> front[k] == x;
    }
  }

  lemma {:induction false} SelectChooses(slots: seq<nat>, log: seq<Stamp>, n: nat)
    requires n < |log| && Below(slots, n)
    ensures forall x :: x in Elements(Select(slots, log, n)) <==> x in Elements(slots) && x < n && log[n].at - log[x].at <= log[n].window
  {
    if slots != [] {
      SplitLast(slots);
      SelectChooses(slots[..|slots| - 1], log, n);
    }
  }

  lemma StampsSnoc(front: seq<nat>, last: nat, log: seq<Stamp>)
    requires Below(front, |log|) && last < |log|
    ensures Below(front + [last], |log|) && Stamps(front + [last], log) == Stamps(front, log) + [log[last].at]
  {
  }

  lemma {:induction false} SelectIsWithin(slots: seq<nat>, log: seq<Stamp>, n: nat)
    requires n < |log| && Below(slots, n)
    ensures Stamps(Select(slots, log, n), log) == Within(Stamps(slots, log), log[n].at, log[n].window)
  {
    if slots != [] {
      var front, last := slots[..|slots| - 1], slots[|slots| - 1];
      SelectIsWithin(front, log, n);
      assert slots == front + [last];
      StampsSnoc(front, last, log);
      WithinSnoc(Stamps(front, log), log[last].at, log[n].at, log[n].window);
      StampsSnoc(Select(front, log, n), last, log);
    }
  }

  lemma {:induction false} SelectIncreases(slots: seq<nat>, log: seq<Stamp>, n: nat, bound: nat)
    requires n < |log| && Increasing(slots) && Below(slots, n) && Below(slots, bound)
    ensures Increasing(Select(slots, log, n)) && Below(Select(slots, log, n), bound)
  {
    if slots != [] {
      SplitLast(slots);
      SelectIncreases(slots[..|slots| - 1], log, n, slots[|slots| - 1]);
    }
  }

  lemma {:induction false} SlotsIncrease(log: seq<Stamp>)
    ensures Increasing(Slots(log))
  {
    if log != [] {
      var n := |log| - 1;
      SlotsIncrease(log[..n]);
      SelectIncreases(Slots(log[..n]), log, n, n);
      LastIncreases(Select(Slots(log[..n]), log, n), n);
    }
  }

  lemma LastIncreases(s: seq<nat>, n: nat)
    requires Increasing(s) && Below(s, n)
    ensures Increasing(s + [n]) && Increasing(Last(s + [n], RING_CAPACITY))
  {
    var all := s + [n];
    var tail := Last(all, RING_CAPACITY);
    assert forall k :: 0 <= k < |tail| ==> tail[k] == all[|all| - |tail| + k];
  }

  lemma {:induction false} SlotsAreReplay(log: seq<Stamp>)
    ensures Stamps(Slots(log), log) == Replay(log)
  {
    if log != [] {
      var n := |log| - 1;
      var slots := Slots(log[..n]);
      SlotsAreReplay(log[..n]);
      assert Stamps(slots, log) == Stamps(slots, log[..n]);
      SelectIsWithin(slots, log, n);
      var all := Select(slots, log, n) + [n];
      assert Stamps(all, log) == Stamps(Select(slots, log, n), log) + [log[n].at];
      assert Stamps(Last(all, RING_CAPACITY), log) == Last(Stamps(all, log), RING_CAPACITY);
    }
  }

  // ---- The ring holds exactly the kept entries --------------------------------------------------------

  lemma {:induction false} IncreasingSize(s: seq<nat>)
    requires Increasing(s)
    ensures |Elements(s)| == |s|
  {
    if s != [] {
      SplitLast(s);
      IncreasingSize(s[..|s| - 1]);
    }
  }

  lemma AfterPosition(s: seq<nat>, p: nat)
    requires Increasing(s) && p < |s|
    ensures |(set y | y in Elements(s) && y > s[p])| == |s| - 1 - p
  {
    var after := s[p + 1..];
    assert forall q :: 0 <= q < |after| ==> after[q] == s[p + 1 + q];
    IncreasingSize(after);
    forall y | y in Elements(s) && y > s[p] ensures y in Elements(after) {
      var q :| 0 <= q < |s| && s[q] == y;
      assert after[q - p - 1] == y;
    }
    forall y | y in Elements(after) ensures y in Elements(s) && y > s[p] {
      var q :| 0 <= q < |after| && after[q] == y;
      assert s[p + 1 + q] == y;
    }
    assert (set y | y in Elements(s) && y > s[p]) == Elements(after);
  }

  /** An element of an increasing sequence is among the last 256 iff fewer than 256 are greater. */
  lemma AmongLast(s: seq<nat>, p: nat)
    requires Increasing(s) && p < |s|
    ensures s[p] in Elements(Last(s, RING_CAPACITY)) <==> |s| - 1 - p < RING_CAPACITY
  {
    var tail := Last(s, RING_CAPACITY);
    assert forall q :: 0 <= q < |tail| ==> tail[q] == s[|s| - |tail| + q];
    if |s| - 1 - p < RING_CAPACITY {
      assert tail[p - (|s| - |tail|)] == s[p];
    }
  }

  lemma NewerInFront(log: seq<Stamp>, n: nat, i: nat, k: nat)
    requires i <= k < n <= |log|
    ensures Newer(log[..n], i, k) == Newer(log, i, k)
  {
    forall j: nat | i < j <= k ensures Outlasts(log[..n], j, k) <==> Outlasts(log, j, k) {
    }
  }

  /** One more record: an entry is kept iff it was, is in the new window, and is not overwritten now. */
  lemma KeptStep(log: seq<Stamp>, i: nat)
    requires log != [] && i < |log| - 1
    ensures var n := |log| - 1;
            Kept(log, i) <==> && Kept(log[..n], i) && log[n].at - log[i].at <= log[n].window
                              && |Newer(log, i, n)| < RING_CAPACITY
  {
    var n := |log| - 1;
    forall k | i <= k < n ensures Newer(log[..n], i, k) == Newer(log, i, k) {
      NewerInFront(log, n, i, k);
    }
    assert Outlasts(log, i, n) <==> Outlasts(log[..n], i, n - 1) && log[n].at - log[i].at <= log[n].window;
  }

  /** The oldest goes first: when an entry is still there, of the newer ones only pruned ones are gone. */
  lemma NewerAreKept(log: seq<Stamp>, i: nat, j: nat)
    requires i < j < |log| && Kept(log, i)
    ensures Kept(log, j) <==> Outlasts(log, j, |log| - 1)
  {
    forall k | j <= k < |log| ensures |Newer(log, j, k)| < RING_CAPACITY {
      Subset(Newer(log, j, k), Newer(log, i, k));
    }
  }

  lemma {:induction false} SlotsAreKept(log: seq<Stamp>, i: nat)
    requires i < |log|
    ensures i in Elements(Slots(log)) <==> Kept(log, i)
    decreases |log|
  {
    if i == |log| - 1 {
      NewestIsKept(log);
    } else {
      SlotsAreKept(log[..|log| - 1], i);
      KeptStep(log, i);
      OlderSlot(log, i);
    }
  }

  lemma NewestIsKept(log: seq<Stamp>)
    requires log != []
    ensures |log| - 1 in Elements(Slots(log)) && Kept(log, |log| - 1)
  {
    var n := |log| - 1;
    var slots := Slots(log);
    assert slots[|slots| - 1] == n;
    assert forall k :: n <= k < |log| ==> Newer(log, n, k) == {};
  }

  /** An entry that the ring held before the newest record is still there iff it is in the window and
      not overwritten. */
  lemma {:induction false} OlderSlot(log: seq<Stamp>, i: nat)
    requires log != [] && i < |log| - 1
    requires i in Elements(Slots(log[..|log| - 1])) <==> Kept(log[..|log| - 1], i)
    ensures var n := |log| - 1;
            i in Elements(Slots(log))
            <==> && Kept(log[..n], i) && log[n].at - log[i].at <= log[n].window
                 && |Newer(log, i, n)| < RING_CAPACITY
    decreases |log|, 3
  {
    var n := |log| - 1;
    var slots := Slots(log[..n]);
    var all := Select(slots, log, n) + [n];
    SlotsIncrease(log[..n]);
    SelectIncreases(slots, log, n, n);
    SelectChooses(slots, log, n);
    SplitLast(all);
    assert all[..|all| - 1] == Select(slots, log, n);
    if i in Elements(all) {
      NotOverwritten(log, i, all);
    } else {
      LastIsPart(all, i);
    }
  }

  lemma LastIsPart(s: seq<nat>, x: nat)
    requires x !in Elements(s)
    ensures x !in Elements(Last(s, RING_CAPACITY))
  {
  }

  /** Whether the newest record overwrites entry i. */
  lemma {:induction false} NotOverwritten(log: seq<Stamp>, i: nat, all: seq<nat>)
    requires log != [] && i < |log| - 1 && Kept(log[..|log| - 1], i)
    requires all == Select(Slots(log[..|log| - 1]), log, |log| - 1) + [|log| - 1] && Increasing(all) && i in Elements(all)
    ensures i in Elements(Last(all, RING_CAPACITY)) <==> |Newer(log, i, |log| - 1)| < RING_CAPACITY
    decreases |log|, 2
  {
    var p :| 0 <= p < |all| && all[p] == i;
    AfterPosition(all, p);
    AmongLast(all, p);
    LaterSlots(log, i, all);
    assert (set y | y in Elements(all) && y > all[p]) == Newer(log, i, |log| - 1);
  }

  lemma {:induction false} LaterSlots(log: seq<Stamp>, i: nat, all: seq<nat>)
    requires log != [] && i < |log| - 1 && Kept(log[..|log| - 1], i)
    requires all == Select(Slots(log[..|log| - 1]), log, |log| - 1) + [|log| - 1]
    ensures (set y | y in Elements(all) && y > i) == Newer(log, i, |log| - 1)
    decreases |log|, 1
  {
    var n := |log| - 1;
    SplitLast(all);
    assert all[..|all| - 1] == Select(Slots(log[..n]), log, n);
    forall y: nat | i < y <= n ensures y in Elements(all) <==> Outlasts(log, y, n) {
      if y < n {
        LaterSlot(log, i, y);
      }
    }
  }

  lemma {:induction false} LaterSlot(log: seq<Stamp>, i: nat, y: nat)
    requires i < y < |log| - 1 && Kept(log[..|log| - 1], i)
    ensures y in Elements(Select(Slots(log[..|log| - 1]), log, |log| - 1)) <==> Outlasts(log, y, |log| - 1)
    decreases |log|, 0
  {
    var n := |log| - 1;
    var front := log[..n];
    SelectChooses(Slots(front), log, n);
    SlotsAreKept(front, y);
    NewerAreKept(front, i, y);
    assert Outlasts(log, y, n) <==> Outlasts(front, y, n - 1) && log[n].at - log[y].at <= log[n].window;
  }

  // ---- Counting -----------------------------------------------------------------------------------------

  ghost function AmongInWindow(slots: seq<nat>, log: seq<Stamp>, now: Ticks, window: int): set<nat> {
    set x | x in Elements(slots) && x < |log| && now - log[x].at <= window
  }

  lemma AmongSnoc(front: seq<nat>, last: nat, log: seq<Stamp>, now: Ticks, window: int)
    requires last < |log| && last !in Elements(front)
    ensures last !in AmongInWindow(front, log, now, window)
    ensures AmongInWindow(front + [last], log, now, window)
         == AmongInWindow(front, log, now, window) + if now - log[last].at <= window then {last} else {}
  {
    assert forall x :: x in Elements(front + [last]) <==> x in Elements(front) || x == last;
  }

  lemma {:induction false} WithinCount(slots: seq<nat>, log: seq<Stamp>, now: Ticks, window: int)
    requires Increasing(slots) && Below(slots, |log|)
    ensures |Within(Stamps(slots, log), now, window)| == |AmongInWindow(slots, log, now, window)|
  {
    if slots == [] {
      assert AmongInWindow(slots, log, now, window) == {};
    } else {
      var front, last := slots[..|slots| - 1], slots[|slots| - 1];
      SplitLast(slots);
      WithinCount(front, log, now, window);
      StampsSnoc(front, last, log);
      WithinSnoc(Stamps(front, log), log[last].at, now, window);
      AmongSnoc(front, last, log, now, window);
    }
  }

  lemma {:induction false} LogCount(log: seq<Stamp>, now: Ticks, window: int)
    ensures |Within(Times(log), now, window)| == |InWindow(log, now, window)|
  {
    var every := seq(|log|, k => k);
    TimesOf(log);
    assert Stamps(every, log) == Times(log);
    WithinCount(every, log, now, window);
    forall i: nat | i < |log| ensures i in Elements(every) {
      assert every[i] == i;
    }
    assert AmongInWindow(every, log, now, window) == InWindow(log, now, window);
  }

  /** What the ring shows of a window: the entries in it that were kept. */
  lemma {:induction false} RingCount(log: seq<Stamp>, now: Ticks, window: int)
    ensures |Within(Replay(log), now, window)| == |InWindow(log, now, window) * KeptEntries(log)|
  {
    SlotsAreReplay(log);
    SlotsIncrease(log);
    WithinCount(Slots(log), log, now, window);
    forall i: nat | i < |log| ensures i in Elements(Slots(log)) <==> i in KeptEntries(log) {
      SlotsAreKept(log, i);
    }
    assert AmongInWindow(Slots(log), log, now, window) == InWindow(log, now, window) * KeptEntries(log);
  }

  /** The ring shows as much of a window as the log iff it kept every entry in that window. */
  lemma {:induction false} CountsAgreeIffKept(log: seq<Stamp>, now: Ticks, window: int)
    ensures |Within(Replay(log), now, window)| == |Within(Times(log), now, window)|
       <==> forall i: nat :: i < |log| && now - log[i].at <= window ==> Kept(log, i)
  {
    RingCount(log, now, window);
    LogCount(log, now, window);
    var wanted, kept := InWindow(log, now, window), KeptEntries(log);
    if |wanted * kept| == |wanted| {
      Subset(wanted * kept, wanted);
      assert forall i :: i in wanted ==> i in wanted * kept;
    }
    if forall i :: i in wanted ==> i in kept {
      assert wanted * kept == wanted;
    }
    if forall i :: i in wanted ==> i in kept {
      forall i: nat | i < |log| && now - log[i].at <= window ensures Kept(log, i) {
        assert i in wanted;
      }
    }
    if forall i: nat :: i < |log| && now - log[i].at <= window ==> Kept(log, i) {
      assert forall i :: i in wanted ==> i in kept;
    }
  }

  // ---- Decisions -----------------------------------------------------------------------------------------

  /** Exactly when a recording blocks an unblocked PID, whatever its timestamps and the configuration
      history: monitoring is on and the ring kept threshold-many operations, the new one included. It
      decides as the unbounded log would iff it kept that many, or there were not that many in the
      window to keep, or monitoring is off. */
  lemma {:induction false} BlocksIffKept(s: Kernel.State, es: seq<Kernel.Event>, pid: ULong, image: Option<string>, now: Ticks)
    requires pid !in s.table && !Kernel.IsBlocked(Kernel.Run(s, es).table, pid)
    ensures var config, log := Kernel.Run(s, es).config, Kernel.LogWith(s, es, pid, now);
            var blocks := Kernel.IsBlocked(Kernel.After(Kernel.Run(s, es), Kernel.Record(pid, image, now)).table, pid);
            var wouldBlock := config.monitoring && |Within(Times(log), now, config.ticks)| >= config.threshold;
            && (blocks <==> config.monitoring && |KeptEntries(log)| >= config.threshold)
            && (blocks == wouldBlock
                <==> || !config.monitoring || |KeptEntries(log)| >= config.threshold
                     || |InWindow(log, now, config.ticks)| < config.threshold)
  {
    var config, log := Kernel.Run(s, es).config, Kernel.LogWith(s, es, pid, now);
    Kernel.VerdictFromReplay(s, es, pid, image, now);
    RingCount(log, now, config.ticks);
    LogCount(log, now, config.ticks);
    KeptAreInWindow(log);
    assert InWindow(log, now, config.ticks) * KeptEntries(log) == KeptEntries(log);
    Subset(KeptEntries(log), InWindow(log, now, config.ticks));
  }

  lemma KeptAreInWindow(log: seq<Stamp>)
    requires log != [] && 0 <= log[|log| - 1].window
    ensures var last := log[|log| - 1]; KeptEntries(log) <= InWindow(log, last.at, last.window)
  {
    var last := log[|log| - 1];
    forall i | i in KeptEntries(log) ensures last.at - log[i].at <= last.window {
      assert i == |log| - 1 || Outlasts(log, i, |log| - 1);
    }
  }

  // ---- Two runs in which the ring misses what the log sees -----------------------------------------------------

  lemma OneMoreEvent(s: Kernel.State, es: seq<Kernel.Event>, e: Kernel.Event, pid: ULong)
    ensures Kernel.Run(s, es + [e]) == Kernel.After(Kernel.Run(s, es), e)
    ensures e.Configure? ==> Kernel.Logged(s, es + [e], pid) == Kernel.Logged(s, es, pid)
    ensures e.Record? && e.pid == pid && !Kernel.IsBlocked(Kernel.Run(s, es).table, pid)
            ==> Kernel.Logged(s, es + [e], pid) == Kernel.LogWith(s, es, pid, e.now)
  {
    assert (es + [e])[..|es|] == es;
  }

  /** Three operations, the threshold being three, are all in the window when the last one is recorded,
      monitoring is on, and yet the PID is not blocked: the first was pruned before the last came. */
  ghost predicate Missed(es: seq<Kernel.Event>, pid: ULong, now: Ticks) {
    var s := Kernel.Run(Kernel.INITIAL, es);
    && s.config.monitoring && s.config.threshold == 3 && !Kernel.IsBlocked(s.table, pid)
    && |Within(Times(Kernel.LogWith(Kernel.INITIAL, es, pid, now)), now, s.config.ticks)| == 3
    && !Kernel.IsBlocked(Kernel.After(s, Kernel.Record(pid, None, now)).table, pid)
  }

  /** Of three records, all in the window, the second pruned the first. */
  lemma FirstPruned(first: Stamp, second: Stamp, third: Stamp)
    requires third.at - first.at <= third.window && third.at - second.at <= third.window && 0 <= third.window
    requires second.at - first.at > second.window
    ensures var log := [first, second, third];
            |Within(Times(log), third.at, third.window)| == 3 && |KeptEntries(log)| < 3
  {
    var log := [first, second, third];
    TimesOf(log);
    WithinSelects(Times(log), third.at, third.window);
    assert !Outlasts(log, 0, 2);
    Subset(KeptEntries(log), {1, 2});
  }

  /** The first of three records was pruned by the second. */
  lemma {:induction false} MissedWhenPruned(es: seq<Kernel.Event>, pid: ULong, first: Stamp, second: Stamp, now: Ticks)
    requires var s := Kernel.Run(Kernel.INITIAL, es);
             && s.config.monitoring && s.config.threshold == 3 && !Kernel.IsBlocked(s.table, pid)
             && now - first.at <= s.config.ticks && now - second.at <= s.config.ticks && 0 <= s.config.ticks
    requires Kernel.Logged(Kernel.INITIAL, es, pid) == [first, second] && second.at - first.at > second.window
    ensures Missed(es, pid, now)
  {
    var third := Stamp(now, Kernel.Run(Kernel.INITIAL, es).config.ticks);
    assert Kernel.LogWith(Kernel.INITIAL, es, pid, now) == [first, second, third];
    FirstPruned(first, second, third);
    BlocksIffKept(Kernel.INITIAL, es, pid, None, now);
  }

  lemma FewStayUnblocked(s: Kernel.State, es: seq<Kernel.Event>, pid: ULong, now: Ticks)
    requires pid !in s.table && !Kernel.IsBlocked(Kernel.Run(s, es).table, pid)
    requires |Kernel.LogWith(s, es, pid, now)| < Kernel.Run(s, es).config.threshold
    ensures !Kernel.IsBlocked(Kernel.After(Kernel.Run(s, es), Kernel.Record(pid, None, now)).table, pid)
  {
    var log := Kernel.LogWith(s, es, pid, now);
    BlocksIffKept(s, es, pid, None, now);
    BoundedSet(KeptEntries(log), |log|);
  }

  /** The threshold is set to three and the window to `seconds`, then `pid` performs two operations. */
  function TwoRecords(seconds: ULong, pid: ULong, first: Ticks, second: Ticks): seq<Kernel.Event> {
    [Kernel.Configure(3, seconds, true)] + [Kernel.Record(pid, None, first)] + [Kernel.Record(pid, None, second)]
  }

  ghost predicate Watching(es: seq<Kernel.Event>, seconds: ULong, pid: ULong, log: seq<Stamp>) {
    var s := Kernel.Run(Kernel.INITIAL, es);
    && s.config == Kernel.Config(3, seconds, seconds * TICKS_PER_SECOND, true) && !Kernel.IsBlocked(s.table, pid)
    && Kernel.Logged(Kernel.INITIAL, es, pid) == log
  }

  lemma {:induction false} WatchOneMore(es: seq<Kernel.Event>, seconds: ULong, pid: ULong, log: seq<Stamp>, now: Ticks)
    requires Watching(es, seconds, pid, log) && |log| < 2
    ensures Watching(es + [Kernel.Record(pid, None, now)], seconds, pid, log + [Stamp(now, seconds * TICKS_PER_SECOND)])
  {
    OneMoreEvent(Kernel.INITIAL, es, Kernel.Record(pid, None, now), pid);
    FewStayUnblocked(Kernel.INITIAL, es, pid, now);
  }

  lemma {:induction false} TwoRecordsLogged(seconds: ULong, pid: ULong, first: Ticks, second: Ticks)
    requires seconds > 0
    ensures var ticks := seconds * TICKS_PER_SECOND;
            Watching(TwoRecords(seconds, pid, first, second), seconds, pid, [Stamp(first, ticks), Stamp(second, ticks)])
  {
    var ticks := seconds * TICKS_PER_SECOND;
    var start := [Kernel.Configure(3, seconds, true)];
    OneMoreEvent(Kernel.INITIAL, [], Kernel.Configure(3, seconds, true), pid);
    assert [] + start == start;
    WatchOneMore(start, seconds, pid, [], first);
    WatchOneMore(start + [Kernel.Record(pid, None, first)], seconds, pid, [] + [Stamp(first, ticks)], second);
    assert [] + [Stamp(first, ticks)] + [Stamp(second, ticks)] == [Stamp(first, ticks), Stamp(second, ticks)];
  }

  /** Widening the window: operations at 0, 2 and 3 seconds; a window of 1 second, then of 10. */
  lemma {:induction false} WideningMisses(pid: ULong)
    ensures var es := TwoRecords(1, pid, 0, 20_000_000) + [Kernel.Configure(0, 10, true)];
            Missed(es, pid, 30_000_000)
  {
    var es := TwoRecords(1, pid, 0, 20_000_000);
    TwoRecordsLogged(1, pid, 0, 20_000_000);
    OneMoreEvent(Kernel.INITIAL, es, Kernel.Configure(0, 10, true), pid);
    MissedWhenPruned(es + [Kernel.Configure(0, 10, true)], pid, Stamp(0, 10_000_000), Stamp(20_000_000, 10_000_000), 30_000_000);
  }

  /** Timestamps out of order, the time being read before the lock is taken: operations at 0.5, 2 and
      1.2 seconds in lock order, in a window of 1 second throughout. */
  lemma {:induction false} DisorderMisses(pid: ULong)
    ensures Missed(TwoRecords(1, pid, 5_000_000, 20_000_000), pid, 12_000_000)
  {
    TwoRecordsLogged(1, pid, 5_000_000, 20_000_000);
    MissedWhenPruned(TwoRecords(1, pid, 5_000_000, 20_000_000), pid, Stamp(5_000_000, 10_000_000),
                     Stamp(20_000_000, 10_000_000), 12_000_000);
  }
}
