/** Every step of every thread keeps the invariant. */
module ThreadSteps {
  import opened Base
  import opened Names
  import opened Operations
  import opened Threads
  import opened ThreadInvariant
  import Kernel

  // ---- Steps that change only the lock and the moving thread ---------------------------------------

  ghost predicate SameHold(pc: Pc, pc': Pc) {
    && (pc.Fresh? || pc.Second? ==> pc' == Fresh(pc.cell) || pc' == Second(pc.cell))
  }

  /** From one part of a callback to the other only with a PID that may be recorded. */
  ghost predicate SamePart(thread: Thread, pc': Pc) {
    thread.op.FileOp? && Early(thread.pc) && !Early(pc') ==> thread.op.pid != 0 && thread.op.pid != 4
  }

  /** Everything but the lock and the moving thread's place is as it was. */
  ghost predicate Quiet(s: State, s': State, t: nat) {
    && t < |s.threads| == |s'.threads|
    && s'.threads == s.threads[t := s.threads[t].(pc := s'.threads[t].pc, returnedAt := s'.threads[t].returnedAt)]
    && SameHold(s.threads[t].pc, s'.threads[t].pc)
    && s'.events == s.events && s'.callers == s.callers && s'.faulted == s.faulted
    && s'.table == s.table && s'.tracked == s.tracked && s'.heap == s.heap && s'.freed == s.freed && s'.nextCell == s.nextCell
    && s'.config == s.config && s'.names == s.names && s'.sequence == s.sequence
    && (s'.lock == s.lock || (s.lock == Some(t) && s'.lock == None) || (s.lock == None && s'.lock == Some(t)))
  }

  lemma QuietCells(s: State, s': State, t: nat, c: nat)
    requires Inv(s) && Quiet(s, s', t)
    ensures CellOk(s', c)
  {
    assert InvParts(s);
    assert CellOk(s, c);
  }

  lemma QuietEvents(s: State, s': State, t: nat, k: nat)
    requires Inv(s) && Quiet(s, s', t)
    ensures EventOk(s', k)
  {
    assert InvParts(s);
    assert EventOk(s, k);
  }

  lemma QuietStep(s: State, s': State, t: nat)
    requires Inv(s) && Quiet(s, s', t) && ThreadOk(s', t)
    ensures Inv(s')
  {
    assert InvParts(s);
    assert Abs(s') == Abs(s);
    forall c: nat ensures CellOk(s', c) {
      QuietCells(s, s', t, c);
    }
    forall pid ensures PidOk(s', pid) {
      assert PidOk(s, pid);
    }
    forall k: nat ensures EventOk(s', k) {
      QuietEvents(s, s', t, k);
    }
    Preserved(s, s', t);
  }

  lemma AcquireStep(s: State, t: nat, pc: Pc)
    requires Inv(s) && t < |s.threads| && !Critical(s.threads[t].pc) && Critical(pc) && SamePart(s.threads[t], pc)
    requires SameHold(s.threads[t].pc, pc)
    requires PcOk(s, t, s.threads[t].(pc := pc))
    ensures Inv(Acquire(s, t, pc))
  {
    assert InvParts(s);
    assert ThreadOk(s, t);
    if s.lock == None {
      QuietStep(s, Acquire(s, t, pc), t);
    }
  }

  lemma ReleaseStep(s: State, t: nat, pc: Pc)
    requires Inv(s) && t < |s.threads| && Critical(s.threads[t].pc) && !Critical(pc) && !pc.Returned? && SamePart(s.threads[t], pc)
    requires SameHold(s.threads[t].pc, pc) && PcOk(s, t, s.threads[t].(pc := pc))
    ensures Inv(Release(s, t, pc))
  {
    assert InvParts(s);
    assert ThreadOk(s, t);
    QuietStep(s, Release(s, t, pc), t);
  }

  // ---- Steps at which a call takes effect -------------------------------------------------------------

  /** `m` is `s` with the effect on the shared state already made. */
  ghost predicate Effect(s: State, m: State, t: nat) {
    && m.threads == s.threads && m.events == s.events && m.callers == s.callers && m.lock == s.lock && !m.faulted
    && (forall c :: c in s.heap && s.heap[c].owner.HeldBy? && s.heap[c].owner != HeldBy(t) ==> c in m.heap && m.heap[c] == s.heap[c])
    && 0 !in m.table && 4 !in m.table && m.tracked == |m.table|
    && (forall pid :: PidOk(m, pid))
  }

  /** As CellOk, for a state in which thread `t` is about to hold nothing. */
  ghost predicate CellSettled(m: State, t: nat, c: nat) {
    CellOk(m, c) && (c in m.heap ==> m.heap[c].owner != HeldBy(t))
  }

  lemma ActStep(s: State, m: State, t: nat, answer: Kernel.Answer)
    requires Inv(s) && t < |s.threads| && s.lock == Some(t) && NotYet(s.threads[t])
    requires Effect(s, m, t) && forall c: nat :: CellSettled(m, t, c)
    requires Abs(m) == Kernel.After(Abs(s), EventOf(s.threads[t].op))
    requires answer == Kernel.AnswerTo(Abs(s), EventOf(s.threads[t].op))
    requires answer.Verdict? && answer.notice.Some? ==> s.threads[t].op.FileOp? && answer.block
    ensures Inv(Act(m, t, answer))
  {
    assert InvParts(s);
    var s' := Act(m, t, answer);
    ActThread(s, m, t, answer);
    ActReplays(s, m, t, answer);
    ActCells(m, t, answer);
    forall k: nat ensures EventOk(s', k) {
      ActEvents(s, m, t, answer, k);
    }
    ActMoved(s, m, t, answer);
    Preserved(s, s', t);
  }

  lemma ActCells(m: State, t: nat, answer: Kernel.Answer)
    requires t < |m.threads| && (forall c: nat :: CellSettled(m, t, c)) && (forall pid :: PidOk(m, pid))
    ensures (forall c: nat :: CellOk(Act(m, t, answer), c)) && (forall pid :: PidOk(Act(m, t, answer), pid))
  {
    var s' := Act(m, t, answer);
    forall c: nat ensures CellOk(s', c) {
      assert CellSettled(m, t, c);
    }
    forall pid ensures PidOk(s', pid) {
      assert PidOk(m, pid);
    }
  }

  lemma ActMoved(s: State, m: State, t: nat, answer: Kernel.Answer)
    requires t < |s.threads| && s.lock == Some(t) && Effect(s, m, t) && |s.events| == |s.callers|
    ensures OnlyMoved(s, Act(m, t, answer), t) && SharedOk(Act(m, t, answer))
  {
  }

  lemma ActThread(s: State, m: State, t: nat, answer: Kernel.Answer)
    requires Inv(s) && t < |s.threads| && s.lock == Some(t) && NotYet(s.threads[t]) && Effect(s, m, t)
    requires answer == Kernel.AnswerTo(Abs(s), EventOf(s.threads[t].op))
    requires answer.Verdict? && answer.notice.Some? ==> s.threads[t].op.FileOp? && answer.block
    ensures ThreadOk(Act(m, t, answer), t)
  {
    assert InvParts(s);
    var s' := Act(m, t, answer);
    assert s'.events[..|s.events|] == s.events;
    assert ThreadOk(s, t);
  }

  lemma ActReplays(s: State, m: State, t: nat, answer: Kernel.Answer)
    requires Replays(s) && t < |s.threads| && m.threads == s.threads && m.events == s.events
    requires Abs(m) == Kernel.After(Abs(s), EventOf(s.threads[t].op))
    ensures Replays(Act(m, t, answer))
  {
    Kernel.RunSnoc(Kernel.INITIAL, s.events, EventOf(s.threads[t].op));
    assert Abs(Act(m, t, answer)) == Abs(m);
  }

  lemma ActEvents(s: State, m: State, t: nat, answer: Kernel.Answer, k: nat)
    requires Inv(s) && t < |s.threads| && NotYet(s.threads[t]) && Effect(s, m, t)
    ensures EventOk(Act(m, t, answer), k)
  {
    assert InvParts(s);
    assert EventOk(s, k);
  }

  lemma NothingHeld(s: State, t: nat, c: nat)
    requires Inv(s) && t < |s.threads| && !s.threads[t].pc.Fresh? && !s.threads[t].pc.Second?
    ensures CellSettled(s, t, c)
  {
    assert InvParts(s);
    assert CellOk(s, c);
  }

  /** A call that finds nothing to do. */
  lemma IdleActStep(s: State, t: nat, answer: Kernel.Answer)
    requires Inv(s) && t < |s.threads| && s.threads[t].pc.First?
    requires Abs(s) == Kernel.After(Abs(s), EventOf(s.threads[t].op))
    requires answer == Kernel.AnswerTo(Abs(s), EventOf(s.threads[t].op)) && (answer.Verdict? ==> answer.notice == None)
    ensures Inv(Act(s, t, answer))
  {
    assert InvParts(s);
    assert ThreadOk(s, t);
    forall c: nat ensures CellSettled(s, t, c) {
      NothingHeld(s, t, c);
    }
    ActStep(s, s, t, answer);
  }

  /** The answer Region hands out. */
  function RegionAnswer(s: State, t: nat, e: Kernel.Event): Kernel.Answer {
    if e.CountPids? then Kernel.Counted(s.tracked, |Kernel.BlockedPids(TableOf(s))|)
    else if e.ListBlocked? then Kernel.Snapshot(Kernel.BlockedPart(TableOf(s)))
    else Kernel.AnswerTo(Kernel.State(s.config, map[], s.names, s.sequence), e)
  }

  /** `s` after the region of `e` has changed the globals. */
  function RegionState(s: State, e: Kernel.Event): State {
    var after := Kernel.After(Kernel.State(s.config, map[], s.names, s.sequence), e);
    s.(config := after.config, names := after.names, sequence := after.sequence)
  }

  lemma RegionRefines(s: State, t: nat, e: Kernel.Event)
    requires t < |s.threads| && !e.Record? && !e.Unblock? && |TableOf(s)| == s.tracked
    ensures Abs(RegionState(s, e)) == Kernel.After(Abs(s), e)
    ensures RegionAnswer(s, t, e) == Kernel.AnswerTo(Abs(s), e)
  {
    assert TableOf(RegionState(s, e)) == TableOf(s);
  }

  lemma RegionStep(s: State, t: nat, e: Kernel.Event)
    requires Inv(s) && t < |s.threads| && s.threads[t].pc.First? && s.threads[t].op == RegionOp(e)
    requires !e.Record? && !e.Unblock?
    ensures Inv(Region(s, t, e))
  {
    assert InvParts(s);
    assert ThreadOk(s, t);
    RegionEffect(s, t, e);
    TableSize(s);
    NothingDangles(s);
    RegionRefines(s, t, e);
    ActStep(s, RegionState(s, e), t, RegionAnswer(s, t, e));
  }

  lemma NothingDangles(s: State)
    requires Inv(s)
    ensures !Dangling(s)
  {
    assert InvParts(s);
    assert forall p :: p in s.table ==> PidOk(s, p);
  }

  lemma RegionEffect(s: State, t: nat, e: Kernel.Event)
    requires Inv(s) && t < |s.threads| && s.threads[t].pc.First?
    ensures Effect(s, RegionState(s, e), t) && forall c: nat :: CellSettled(RegionState(s, e), t, c)
  {
    assert InvParts(s);
    var m := RegionState(s, e);
    forall c: nat ensures CellSettled(m, t, c) {
      NothingHeld(s, t, c);
    }
    forall pid ensures PidOk(m, pid) {
      assert PidOk(s, pid);
    }
  }

  lemma TableSize(s: State)
    requires Inv(s)
    ensures TableOf(s).Keys == s.table.Keys && |TableOf(s)| == s.tracked
  {
    assert InvParts(s);
    assert forall pid :: pid in s.table ==> PidOk(s, pid);
    assert |TableOf(s)| == |TableOf(s).Keys| && |s.table| == |s.table.Keys|;
  }

  // ---- Recording ------------------------------------------------------------------------------------

  predicate Records(op: Op, pid: ULong, image: Option<string>, now: Ticks) {
    op.FileOp? && op.pid == pid && op.image == image && op.now == now
  }

  /** With the context in hand: prune, append, evaluate. */
  lemma RecordStep(s: State, t: nat, cell: nat, pid: ULong, image: Option<string>, now: Ticks)
    requires Inv(s) && t < |s.threads| && s.threads[t].pc == Using(cell)
    requires Records(s.threads[t].op, pid, image, now)
    ensures Inv(RecordInto(s, t, cell, pid, now))
  {
    assert InvParts(s);
    assert ThreadOk(s, t) && PidOk(s, pid);
    var context := s.heap[cell].context;
    var m := s.(heap := s.heap[cell := s.heap[cell].(context := Kernel.Absorb(context, s.config, now))]);
    RecordCells(s, m, t, cell);
    assert TableOf(s)[pid] == context;
    assert TableOf(m) == TableOf(s)[pid := Kernel.Absorb(context, s.config, now)] by {
      forall p | p in s.table && p != pid ensures s.table[p] != cell {
        assert PidOk(s, p);
      }
    }
    var notice := Kernel.NoticeOf(pid, context, s.config, now);
    ActStep(s, m, t, Kernel.Verdict(notice.Some?, notice));
  }

  lemma RecordCells(s: State, m: State, t: nat, cell: nat)
    requires Inv(s) && t < |s.threads| && s.threads[t].pc == Using(cell) && cell in s.heap
    requires exists context :: m == s.(heap := s.heap[cell := s.heap[cell].(context := context)])
    ensures Effect(s, m, t) && forall c: nat :: CellSettled(m, t, c)
  {
    assert InvParts(s);
    assert ThreadOk(s, t);
    assert PidOk(s, s.threads[t].op.pid);
    forall c: nat ensures CellSettled(m, t, c) {
      NothingHeld(s, t, c);
      assert CellOk(s, c);
    }
    forall p ensures PidOk(m, p) {
      assert PidOk(s, p);
    }
  }

  /** The first lookup. */
  lemma FirstRecordStep(s: State, t: nat)
    requires Inv(s) && t < |s.threads| && s.threads[t].pc.First? && s.threads[t].op.FileOp?
    ensures Inv(FirstLookup(s, t))
  {
    assert InvParts(s);
    assert ThreadOk(s, t);
    var pid := s.threads[t].op.pid;
    assert PidOk(s, pid);
    if pid !in s.table {
      QuietStep(s, Goto(s, t, Missed), t);
    } else if s.heap[s.table[pid]].context.blocked {
      assert Kernel.IsBlocked(TableOf(s), pid);
      IdleActStep(s, t, Kernel.Verdict(true, None));
    } else {
      QuietStep(s, Goto(s, t, Using(s.table[pid])), t);
    }
  }

  lemma FirstRegionStep(s: State, t: nat)
    requires Inv(s) && t < |s.threads| && s.threads[t].pc.First? && s.threads[t].op.RegionOp?
    ensures Inv(FirstLookup(s, t))
  {
    assert InvParts(s);
    assert ThreadOk(s, t);
    var e := s.threads[t].op.event;
    if !e.Unblock? {
      RegionStep(s, t, e);
    } else if e.pid in s.table {
      QuietStep(s, Goto(s, t, Doomed(s.table[e.pid])), t);
    } else {
      assert TableOf(s) - {e.pid} == TableOf(s);
      IdleActStep(s, t, Kernel.Acknowledged);
    }
  }

  /** Unblock: unlink the context and free it. */
  lemma UnlinkStep(s: State, t: nat, cell: nat, pid: ULong)
    requires Inv(s) && t < |s.threads| && s.threads[t].pc == Doomed(cell)
    requires s.threads[t].op == RegionOp(Kernel.Unblock(pid))
    ensures Inv(Act(Free(Unlink(s, pid), cell), t, Kernel.Acknowledged))
  {
    assert InvParts(s);
    assert ThreadOk(s, t) && PidOk(s, pid);
    var m := Free(Unlink(s, pid), cell);
    UnlinkCells(s, m, t, cell, pid);
    assert Abs(m) == Kernel.After(Abs(s), Kernel.Unblock(pid));
    ActStep(s, m, t, Kernel.Acknowledged);
  }

  lemma UnlinkCells(s: State, m: State, t: nat, cell: nat, pid: ULong)
    requires Inv(s) && t < |s.threads| && s.threads[t].pc == Doomed(cell)
    requires pid in s.table && s.table[pid] == cell && m == Free(Unlink(s, pid), cell)
    ensures Effect(s, m, t) && forall c: nat :: CellSettled(m, t, c)
    ensures TableOf(m) == TableOf(s) - {pid}
  {
    assert InvParts(s);
    assert PidOk(s, pid);
    forall c: nat ensures CellSettled(m, t, c) {
      UnlinkCell(s, m, t, cell, pid, c);
    }
    UnlinkTable(s, m, cell, pid);
    UnlinkCount(s, pid);
  }

  lemma UnlinkTable(s: State, m: State, cell: nat, pid: ULong)
    requires pid in s.table && s.table[pid] == cell && m == Free(Unlink(s, pid), cell) && forall p :: PidOk(s, p)
    ensures TableOf(m) == TableOf(s) - {pid} && forall p :: PidOk(m, p)
  {
    assert PidOk(s, pid);
    forall p ensures PidOk(m, p) && (p in m.table ==> s.table[p] in m.heap) {
      assert PidOk(s, p);
    }
  }

  lemma UnlinkCell(s: State, m: State, t: nat, cell: nat, pid: ULong, c: nat)
    requires Inv(s) && t < |s.threads| && s.threads[t].pc == Doomed(cell)
    requires pid in s.table && s.table[pid] == cell && m == Free(Unlink(s, pid), cell)
    ensures CellSettled(m, t, c)
  {
    assert InvParts(s);
    assert PidOk(s, pid);
    assert CellOk(s, c);
  }

  lemma UnlinkCount(s: State, pid: ULong)
    requires Inv(s) && pid in s.table
    ensures (s.tracked + ULONG_RANGE - 1) % ULONG_RANGE == |s.table - {pid}|
  {
    assert InvParts(s);
    TrackedFits(s);
    assert s.table == (s.table - {pid})[pid := s.table[pid]];
  }

  lemma TrackedFits(s: State)
    requires Inv(s)
    ensures s.tracked <= ULONG_RANGE - 2
  {
    assert InvParts(s);
    TableSize(s);
    Kernel.TrackedCountFits(TableOf(s));
  }

  // ---- Allocation and the second lookup ------------------------------------------------------------

  lemma AllocateStep(s: State, t: nat, poolHasMemory: bool)
    requires Inv(s) && t < |s.threads| && s.threads[t].pc.Allocating?
    ensures Inv(Move(s, t, poolHasMemory))
  {
    assert InvParts(s);
    assert ThreadOk(s, t);
    if poolHasMemory {
      AllocatedStep(s, t);
    } else {
      QuietStep(s, Goto(s, t, Failed), t);
    }
  }

  /** `s` with one more cell, held by `t`. */
  ghost predicate Allocated(s: State, s': State, t: nat) {
    && t < |s.threads| && s.threads[t].pc.Allocating? && s.threads[t].op.FileOp? && s.lock != Some(t)
    && s' == Goto(s.(heap := s.heap[s.nextCell := Cell(Kernel.FreshContext(s.threads[t].op.image), HeldBy(t))],
                     nextCell := s.nextCell + 1), t, Fresh(s.nextCell))
  }

  lemma AllocatedStep(s: State, t: nat)
    requires Inv(s) && t < |s.threads| && s.threads[t].pc.Allocating?
    ensures Inv(Move(s, t, true))
  {
    assert InvParts(s);
    assert ThreadOk(s, t) && CellOk(s, s.nextCell);
    var s' := Move(s, t, true);
    assert Allocated(s, s', t);
    forall c: nat ensures CellOk(s', c) {
      assert CellOk(s, c);
      AllocatedCell(s, s', t, c);
    }
    forall pid ensures PidOk(s', pid) {
      assert PidOk(s, pid);
    }
    forall k: nat ensures EventOk(s', k) {
      assert EventOk(s, k);
      AllocatedEvent(s, s', t, k);
    }
    AllocatedTable(s, s', t);
    Preserved(s, s', t);
  }

  lemma AllocatedCell(s: State, s': State, t: nat, c: nat)
    requires Allocated(s, s', t) && CellOk(s, c) && CellOk(s, s.nextCell)
    ensures CellOk(s', c)
  {
  }

  lemma AllocatedEvent(s: State, s': State, t: nat, k: nat)
    requires EventOk(s, k) && Allocated(s, s', t)
    ensures EventOk(s', k)
  {
  }

  lemma AllocatedTable(s: State, s': State, t: nat)
    requires Allocated(s, s', t) && s.nextCell !in s.heap && (forall p :: PidOk(s, p))
    ensures TableOf(s') == TableOf(s)
  {
    assert forall p :: p in s.table ==> PidOk(s, p);
  }

  /** Another thread was faster: the fresh context is freed, and the tracked one used. */
  lemma LoseRaceStep(s: State, t: nat, cell: nat, pid: ULong)
    requires Inv(s) && t < |s.threads| && s.threads[t].pc == Second(cell)
    requires s.threads[t].op.FileOp? && s.threads[t].op.pid == pid && pid in s.table
    ensures Inv(Found(Free(s, cell), t, s.table[pid]))
  {
    var m, found := Free(s, cell), s.table[pid];
    FreeCells(s, m, t, cell);
    TrackedIsNotHeld(s, t, cell, pid);
    if s.heap[found].context.blocked {
      LoserIsDenied(s, m, t, cell, pid);
      assert Found(m, t, found) == Act(m, t, Kernel.Verdict(true, None));
    } else {
      LoserGoesOn(s, m, t, cell, pid);
      assert Found(m, t, found) == Goto(m, t, Using(found));
    }
  }

  lemma TrackedIsNotHeld(s: State, t: nat, cell: nat, pid: ULong)
    requires Inv(s) && t < |s.threads| && s.threads[t].pc == Second(cell) && pid in s.table
    ensures s.table[pid] != cell && s.table[pid] in s.heap
  {
    assert InvParts(s);
    assert ThreadOk(s, t) && PidOk(s, pid);
  }

  lemma LoserIsDenied(s: State, m: State, t: nat, cell: nat, pid: ULong)
    requires Inv(s) && t < |s.threads| && s.threads[t].pc == Second(cell) && m == Free(s, cell)
    requires s.threads[t].op.FileOp? && s.threads[t].op.pid == pid && pid in s.table
    requires Effect(s, m, t) && TableOf(m) == TableOf(s) && forall c: nat :: CellSettled(m, t, c)
    requires s.table[pid] in s.heap && s.heap[s.table[pid]].context.blocked
    ensures Inv(Act(m, t, Kernel.Verdict(true, None)))
  {
    assert Kernel.IsBlocked(TableOf(s), pid);
    SecondHoldsLock(s, t);
    ActStep(s, m, t, Kernel.Verdict(true, None));
  }

  lemma LoserGoesOn(s: State, m: State, t: nat, cell: nat, pid: ULong)
    requires Inv(s) && t < |s.threads| && s.threads[t].pc == Second(cell) && m == Free(s, cell)
    requires s.threads[t].op.FileOp? && s.threads[t].op.pid == pid && pid in s.table
    requires Effect(s, m, t) && TableOf(m) == TableOf(s) && forall c: nat :: CellSettled(m, t, c)
    requires s.table[pid] in m.heap && !m.heap[s.table[pid]].context.blocked
    ensures Inv(Goto(m, t, Using(s.table[pid])))
  {
    assert InvParts(s);
    assert ThreadOk(s, t);
    var s' := Goto(m, t, Using(s.table[pid]));
    forall c: nat ensures CellOk(s', c) {
      assert CellSettled(m, t, c);
    }
    forall p ensures PidOk(s', p) {
      assert PidOk(m, p);
    }
    forall k: nat ensures EventOk(s', k) {
      assert EventOk(s, k);
    }
    assert Abs(s') == Abs(m);
    Preserved(s, s', t);
  }

  lemma FreeCells(s: State, m: State, t: nat, cell: nat)
    requires Inv(s) && t < |s.threads| && s.threads[t].pc == Second(cell) && m == Free(s, cell)
    ensures cell in s.heap && Effect(s, m, t) && TableOf(m) == TableOf(s)
    ensures forall c: nat :: CellSettled(m, t, c)
  {
    assert InvParts(s);
    assert ThreadOk(s, t);
    forall c: nat ensures CellSettled(m, t, c) {
      assert CellOk(s, c);
    }
    FreeTable(s, m, t, cell);
  }

  lemma FreeTable(s: State, m: State, t: nat, cell: nat)
    requires cell in s.heap && s.heap[cell].owner == HeldBy(t) && m == Free(s, cell) && forall p :: PidOk(s, p)
    ensures TableOf(m) == TableOf(s) && forall p :: PidOk(m, p)
  {
    forall p ensures PidOk(m, p) && (p in s.table ==> s.table[p] in m.heap) {
      assert PidOk(s, p);
    }
  }

  /** The thread's own allocation wins: insert it and record into it. */
  lemma WinRaceStep(s: State, t: nat, cell: nat, pid: ULong, image: Option<string>, now: Ticks)
    requires Inv(s) && t < |s.threads| && s.threads[t].pc == Second(cell)
    requires Records(s.threads[t].op, pid, image, now) && pid !in s.table
    ensures Inv(RecordInto(Insert(s, cell, pid), t, cell, pid, now))
  {
    assert InvParts(s);
    assert ThreadOk(s, t);
    var m := Winning(s, cell, pid, image, now);
    WinIsWon(s, t, cell, pid, image, now);
    WonStep(s, m, t, cell, pid, image, now);
  }

  /** `s` with the fresh context linked and recorded into. */
  function Winning(s: State, cell: nat, pid: ULong, image: Option<string>, now: Ticks): State {
    s.(table := s.table[pid := cell], tracked := (s.tracked + 1) % ULONG_RANGE,
       heap := s.heap[cell := Cell(Kernel.Absorb(Kernel.FreshContext(image), s.config, now), Linked(pid))])
  }

  lemma WinIsWon(s: State, t: nat, cell: nat, pid: ULong, image: Option<string>, now: Ticks)
    requires t < |s.threads| && cell in s.heap && s.heap[cell] == Cell(Kernel.FreshContext(image), HeldBy(t))
    ensures var notice := Kernel.NoticeOf(pid, Kernel.FreshContext(image), s.config, now);
            RecordInto(Insert(s, cell, pid), t, cell, pid, now)
            == Act(Winning(s, cell, pid, image, now), t, Kernel.Verdict(notice.Some?, notice))
  {
    var context := Kernel.FreshContext(image);
    var i := Insert(s, cell, pid);
    assert i.heap[cell].context == context;
    assert i.heap[cell := i.heap[cell].(context := Kernel.Absorb(context, s.config, now))]
        == s.heap[cell := Cell(Kernel.Absorb(context, s.config, now), Linked(pid))];
  }

  lemma WonStep(s: State, m: State, t: nat, cell: nat, pid: ULong, image: Option<string>, now: Ticks)
    requires Inv(s) && Won(s, m, t, cell, pid, Kernel.Absorb(Kernel.FreshContext(image), s.config, now))
    requires Records(s.threads[t].op, pid, image, now)
    ensures var notice := Kernel.NoticeOf(pid, Kernel.FreshContext(image), s.config, now);
            Inv(Act(m, t, Kernel.Verdict(notice.Some?, notice)))
  {
    var notice := Kernel.NoticeOf(pid, Kernel.FreshContext(image), s.config, now);
    WinCells(s, m, t, cell, pid, Kernel.Absorb(Kernel.FreshContext(image), s.config, now));
    WinRefines(s, m, pid, image, now);
    SecondHoldsLock(s, t);
    ActStep(s, m, t, Kernel.Verdict(notice.Some?, notice));
  }

  lemma SecondHoldsLock(s: State, t: nat)
    requires Inv(s) && t < |s.threads| && s.threads[t].pc.Second?
    ensures s.lock == Some(t) && NotYet(s.threads[t])
  {
    assert InvParts(s);
    assert ThreadOk(s, t);
  }

  lemma WinRefines(s: State, m: State, pid: ULong, image: Option<string>, now: Ticks)
    requires pid !in s.table && m.config == s.config && m.names == s.names && m.sequence == s.sequence
    requires TableOf(m) == TableOf(s)[pid := Kernel.Absorb(Kernel.FreshContext(image), s.config, now)]
    ensures Abs(m) == Kernel.After(Abs(s), Kernel.Record(pid, image, now))
    ensures var notice := Kernel.NoticeOf(pid, Kernel.FreshContext(image), s.config, now);
            Kernel.AnswerTo(Abs(s), Kernel.Record(pid, image, now)) == Kernel.Verdict(notice.Some?, notice)
  {
    assert pid !in TableOf(s);
  }

  /** `s` with the held cell linked under `pid`, its context already recorded into. */
  ghost predicate Won(s: State, m: State, t: nat, cell: nat, pid: ULong, context: Kernel.Context) {
    && t < |s.threads| && s.threads[t].pc == Second(cell) && pid !in s.table && pid != 0 && pid != 4
    && m == s.(table := s.table[pid := cell], tracked := (s.tracked + 1) % ULONG_RANGE,
               heap := s.heap[cell := Cell(context, Linked(pid))])
  }

  lemma WinCells(s: State, m: State, t: nat, cell: nat, pid: ULong, context: Kernel.Context)
    requires Inv(s) && Won(s, m, t, cell, pid, context)
    ensures Effect(s, m, t) && TableOf(m) == TableOf(s)[pid := context]
    ensures forall c: nat :: CellSettled(m, t, c)
  {
    assert InvParts(s);
    WinCount(s, m, t, cell, pid, context);
    forall c: nat ensures CellSettled(m, t, c) {
      assert CellOk(s, c) && CellOk(s, cell);
      WinCell(s, m, t, cell, pid, context, c);
    }
    WinTable(s, m, t, cell, pid, context);
  }

  lemma WinCount(s: State, m: State, t: nat, cell: nat, pid: ULong, context: Kernel.Context)
    requires Inv(s) && Won(s, m, t, cell, pid, context)
    ensures m.tracked == |m.table| && s.heap[cell := Cell(context, Linked(pid))] == m.heap
    ensures cell in s.heap && s.heap[cell].owner == HeldBy(t)
  {
    assert InvParts(s);
    assert ThreadOk(s, t);
    TrackedFits(s);
  }

  lemma WinCell(s: State, m: State, t: nat, cell: nat, pid: ULong, context: Kernel.Context, c: nat)
    requires Won(s, m, t, cell, pid, context) && cell in s.heap && s.heap[cell].owner == HeldBy(t)
    requires CellOk(s, c) && CellOk(s, cell)
    ensures CellSettled(m, t, c)
  {
  }

  lemma WinTable(s: State, m: State, t: nat, cell: nat, pid: ULong, context: Kernel.Context)
    requires Won(s, m, t, cell, pid, context) && cell in s.heap && s.heap[cell].owner == HeldBy(t)
    requires forall p :: PidOk(s, p)
    ensures TableOf(m) == TableOf(s)[pid := context] && forall p :: PidOk(m, p)
  {
    forall p ensures PidOk(m, p) && (p in s.table ==> s.table[p] != cell && s.table[p] in s.heap) {
      assert PidOk(s, p);
    }
  }

  // ---- After the lock is released ---------------------------------------------------------------------

  lemma LeaveStep(s: State, t: nat, answer: Kernel.Answer, poolHasMemory: bool)
    requires Inv(s) && t < |s.threads| && s.threads[t].pc == Leaving(answer)
    ensures Inv(Move(s, t, poolHasMemory))
  {
    assert InvParts(s);
    assert ThreadOk(s, t);
    if answer.Verdict? && answer.notice.Some? {
      ReleaseStep(s, t, Pc.Owing(answer.notice.value));
    } else {
      ReturnStep(s, t, answer);
    }
  }

  lemma ReturnStep(s: State, t: nat, answer: Kernel.Answer)
    requires Inv(s) && t < |s.threads| && s.threads[t].pc == Leaving(answer)
    ensures Inv(Return(Release(s, t, Returned(answer, None)), t))
  {
    assert InvParts(s);
    assert ThreadOk(s, t);
    var s' := Return(Release(s, t, Returned(answer, None)), t);
    assert s'.threads[t] == s.threads[t].(pc := Returned(answer, None), returnedAt := |s.events|);
    QuietStep(s, s', t);
  }

  lemma NotifyStep(s: State, t: nat, poolHasMemory: bool)
    requires Inv(s) && t < |s.threads| && (s.threads[t].pc.Owing? || s.threads[t].pc.Sending?)
    ensures Inv(Move(s, t, poolHasMemory))
  {
    assert InvParts(s);
    assert ThreadOk(s, t);
    var answer := Kernel.Verdict(true, Some(s.threads[t].pc.notice));
    if s.threads[t].pc.Sending? {
      NotifiedStep(s, t, answer, Some(s.threads[t].pc.number));
    } else if s.connected {
      QuietStep(s, Goto(s, t, Numbering(s.threads[t].pc.notice)), t);
    } else {
      NotifiedStep(s, t, answer, None);
    }
  }

  lemma NotifiedStep(s: State, t: nat, answer: Kernel.Answer, sent: Option<ULong>)
    requires Inv(s) && t < |s.threads|
    requires match s.threads[t].pc
             case Owing(notice) => sent == None && answer == Kernel.Verdict(true, Some(notice))
             case Sending(number, notice) => sent == Some(number) && answer == Kernel.Verdict(true, Some(notice))
             case _ => false
    ensures Inv(Return(Goto(s, t, Returned(answer, sent)), t))
  {
    assert InvParts(s);
    assert ThreadOk(s, t);
    var s' := Return(Goto(s, t, Returned(answer, sent)), t);
    assert s'.threads[t] == s.threads[t].(pc := Returned(answer, sent), returnedAt := |s.events|);
    QuietStep(s, s', t);
  }

  // ---- Steps that enter the history without being a call's own effect --------------------------------------

  /** Thread `t`, holding the lock, notes the event `e` in the given role; no context is touched. */
  ghost predicate Noted(s: State, s': State, t: nat, e: Kernel.Event, role: Role) {
    && t < |s.threads| == |s'.threads| && s.lock == Some(t)
    && s'.threads == s.threads[t := s'.threads[t]] && s'.threads[t].actedAt == s.threads[t].actedAt
    && !s.threads[t].pc.Fresh? && !s.threads[t].pc.Second?
    && s'.events == s.events + [e] && s'.callers == s.callers + [Caller(t, role)] && s'.faulted == s.faulted
    && s'.table == s.table && s'.tracked == s.tracked && s'.heap == s.heap && s'.freed == s.freed && s'.nextCell == s.nextCell
    && s'.lock == s.lock && Abs(s') == Kernel.After(Abs(s), e)
  }

  /** The note is the first of its kind, and the only thing that changes in the thread's positions. */
  ghost predicate NotedOnce(s: State, s': State, t: nat, e: Kernel.Event, role: Role) {
    && Noted(s, s', t, e, role)
    && match role
       case Match =>
         && s.threads[t].matchedAt == None && s'.threads[t].matchedAt == Some(|s.events|)
         && s'.threads[t].numberedAt == s.threads[t].numberedAt && e.MatchName?
       case Number =>
         && s.threads[t].numberedAt == None && s'.threads[t].numberedAt == Some(|s.events|)
         && s'.threads[t].matchedAt == s.threads[t].matchedAt && e == Kernel.TakeNumber
       case Main => false
  }

  lemma NoteStep(s: State, s': State, t: nat, e: Kernel.Event, role: Role)
    requires Inv(s) && NotedOnce(s, s', t, e, role) && s'.threads[t].op == s.threads[t].op && ThreadOk(s', t)
    ensures Inv(s')
  {
    assert InvParts(s);
    NotedReplays(s, s', t, e, role);
    forall c: nat ensures CellOk(s', c) {
      assert CellOk(s, c);
      NotedCell(s, s', t, e, role, c);
    }
    forall pid ensures PidOk(s', pid) {
      assert PidOk(s, pid);
    }
    forall k: nat ensures EventOk(s', k) {
      assert EventOk(s, k);
      NotedEvent(s, s', t, e, role, k);
    }
    NotedMoved(s, s', t, e, role);
    Preserved(s, s', t);
  }

  lemma NotedReplays(s: State, s': State, t: nat, e: Kernel.Event, role: Role)
    requires Replays(s) && Noted(s, s', t, e, role)
    ensures Replays(s')
  {
    Kernel.RunSnoc(Kernel.INITIAL, s.events, e);
  }

  lemma NotedCell(s: State, s': State, t: nat, e: Kernel.Event, role: Role, c: nat)
    requires CellOk(s, c) && Noted(s, s', t, e, role)
    ensures CellOk(s', c)
  {
  }

  lemma NotedMoved(s: State, s': State, t: nat, e: Kernel.Event, role: Role)
    requires SharedOk(s) && Noted(s, s', t, e, role)
    ensures OnlyMoved(s, s', t) && SharedOk(s')
  {
  }

  lemma NotedEvent(s: State, s': State, t: nat, e: Kernel.Event, role: Role, k: nat)
    requires EventOk(s, k) && |s.events| == |s.callers|
    requires NotedOnce(s, s', t, e, role) && s'.threads[t].op == s.threads[t].op
    ensures EventOk(s', k)
  {
  }

  lemma NumberStep(s: State, t: nat, notice: Kernel.Notice)
    requires Inv(s) && t < |s.threads| && s.threads[t].pc == NumberLocked(notice)
    ensures Inv(TakeNumber(s, t, notice))
  {
    NumberedThread(s, t, notice);
    NumberIsNoted(s, t, notice);
    NoteStep(s, TakeNumber(s, t, notice), t, Kernel.TakeNumber, Number);
  }

  lemma NumberIsNoted(s: State, t: nat, notice: Kernel.Notice)
    requires t < |s.threads| && s.threads[t].pc == NumberLocked(notice) && s.lock == Some(t) && s.threads[t].numberedAt == None
    ensures NotedOnce(s, TakeNumber(s, t, notice), t, Kernel.TakeNumber, Number)
  {
    assert TableOf(TakeNumber(s, t, notice)) == TableOf(s);
  }

  lemma NumberedThread(s: State, t: nat, notice: Kernel.Notice)
    requires Inv(s) && t < |s.threads| && s.threads[t].pc == NumberLocked(notice)
    ensures s.lock == Some(t) && s.threads[t].numberedAt == None && ThreadOk(TakeNumber(s, t, notice), t)
  {
    assert InvParts(s);
    var s' := TakeNumber(s, t, notice);
    assert ThreadOk(s, t);
    assert s'.events[..|s.events|] == s.events;
    AnswerKept(s.events, s'.events, s.threads[t].actedAt.value);
  }

  lemma MatchStep(s: State, t: nat)
    requires Inv(s) && t < |s.threads| && s.threads[t].pc.MatchLocked?
    ensures s.threads[t].op.FileOp? && s.threads[t].op.image.Some?
    ensures var op := s.threads[t].op; Inv(MatchNames(s, t, op.fold, FileName(op.image.value)))
  {
    assert InvParts(s);
    assert ThreadOk(s, t);
    var op := s.threads[t].op;
    var e := Kernel.MatchName(op.fold, FileName(op.image.value));
    var s' := MatchNames(s, t, op.fold, FileName(op.image.value));
    assert TableOf(s') == TableOf(s);
    NoteStep(s, s', t, e, Match);
  }

  /** The checks without the lock, and the end of the search. */
  lemma EnterStep(s: State, t: nat)
    requires Inv(s) && t < |s.threads| && s.threads[t].pc.Entered?
    ensures s.threads[t].op.FileOp? && Inv(Enter(s, t))
  {
    assert InvParts(s);
    assert ThreadOk(s, t);
    var FileOp(operation, pid, image, _, fold) := s.threads[t].op;
    if !Monitored(operation) || pid == 0 || pid == 4 {
      PassStep(s, t);
    } else if image == None || image.value == [] {
      QuietStep(s, Goto(s, t, Start), t);
    } else if Listed(fold, FileName(image.value), BUILT_IN) {
      PassStep(s, t);
    } else {
      QuietStep(s, Goto(s, t, Matching), t);
    }
  }

  lemma PassStep(s: State, t: nat)
    requires Inv(s) && t < |s.threads| && s.threads[t].pc.Entered?
    ensures Inv(Return(Goto(s, t, Passed), t))
  {
    assert InvParts(s);
    assert ThreadOk(s, t);
    var s' := Return(Goto(s, t, Passed), t);
    assert s'.threads[t] == s.threads[t].(pc := Passed, returnedAt := |s.events|);
    QuietStep(s, s', t);
  }

  lemma MatchedStep(s: State, t: nat, found: bool)
    requires Inv(s) && t < |s.threads| && s.threads[t].pc == NameMatched(found)
    ensures found ==> Inv(Return(Release(s, t, Passed), t))
    ensures !found ==> Inv(Release(s, t, Start))
  {
    assert InvParts(s);
    assert ThreadOk(s, t);
    if found {
      var s' := Return(Release(s, t, Passed), t);
      assert s'.threads[t] == s.threads[t].(pc := Passed, returnedAt := |s.events|);
      QuietStep(s, s', t);
    } else {
      ReleaseStep(s, t, Start);
    }
  }

  // ---- All steps -------------------------------------------------------------------------------------

  lemma EarlyMoveStep(s: State, t: nat, poolHasMemory: bool)
    requires Inv(s) && t < |s.threads| && Early(s.threads[t].pc)
    ensures Inv(Move(s, t, poolHasMemory))
  {
    assert InvParts(s);
    assert ThreadOk(s, t);
    match s.threads[t].pc {
      case Entered => EnterStep(s, t);
      case Matching => AcquireStep(s, t, MatchLocked);
      case MatchLocked => MatchStep(s, t);
      case NameMatched(found) => MatchedStep(s, t, found);
      case Passed =>
    }
  }

  lemma LookupStep(s: State, t: nat, poolHasMemory: bool)
    requires Inv(s) && t < |s.threads|
    requires var pc := s.threads[t].pc; pc.First? || pc.Using? || pc.Doomed? || pc.Second?
    ensures Inv(Move(s, t, poolHasMemory))
  {
    assert InvParts(s);
    assert ThreadOk(s, t);
    var thread := s.threads[t];
    match thread.pc {
      case First => if thread.op.FileOp? { FirstRecordStep(s, t); } else { FirstRegionStep(s, t); }
      case Using(cell) => RecordStep(s, t, cell, thread.op.pid, thread.op.image, thread.op.now);
      case Doomed(cell) => UnlinkStep(s, t, cell, thread.op.event.pid);
      case Second(cell) =>
        if thread.op.pid in s.table { LoseRaceStep(s, t, cell, thread.op.pid); }
        else { WinRaceStep(s, t, cell, thread.op.pid, thread.op.image, thread.op.now); }
    }
  }

  lemma MoveStep(s: State, t: nat, poolHasMemory: bool)
    requires Inv(s) && t < |s.threads|
    ensures Inv(Move(s, t, poolHasMemory))
  {
    if Early(s.threads[t].pc) {
      EarlyMoveStep(s, t, poolHasMemory);
    } else {
      LateMoveStep(s, t, poolHasMemory);
    }
  }

  lemma LateMoveStep(s: State, t: nat, poolHasMemory: bool)
    requires Inv(s) && t < |s.threads| && !Early(s.threads[t].pc)
    ensures Inv(Move(s, t, poolHasMemory))
  {
    assert InvParts(s);
    assert ThreadOk(s, t);
    match s.threads[t].pc {
      case Start => AcquireStep(s, t, First);
      case Missed => ReleaseStep(s, t, Allocating);
      case Allocating => AllocateStep(s, t, poolHasMemory);
      case Fresh(cell) => AcquireStep(s, t, Second(cell));
      case Leaving(answer) => LeaveStep(s, t, answer, poolHasMemory);
      case Owing(_) => NotifyStep(s, t, poolHasMemory);
      case Numbering(notice) => AcquireStep(s, t, NumberLocked(notice));
      case NumberLocked(notice) => NumberStep(s, t, notice);
      case NumberTaken(number, notice) => ReleaseStep(s, t, Sending(number, notice));
      case Sending(_, _) => NotifyStep(s, t, poolHasMemory);
      case Returned(_, _) =>
      case Failed =>
      case _ => LookupStep(s, t, poolHasMemory);
    }
  }

  lemma CallStep(s: State, op: Op)
    requires Inv(s)
    ensures Inv(Next(s, Call(op)))
  {
    assert InvParts(s);
    var s' := Next(s, Call(op));
    forall u: nat ensures ThreadOk(s', u) {
      assert ThreadOk(s, u);
      CalledThread(s, op, u);
    }
    forall c: nat ensures CellOk(s', c) {
      assert CellOk(s, c);
    }
    forall pid ensures PidOk(s', pid) {
      assert PidOk(s, pid);
    }
    forall k: nat ensures EventOk(s', k) {
      assert EventOk(s, k);
    }
    assert Abs(s') == Abs(s);
    assert InvParts(s');
  }

  lemma CalledThread(s: State, op: Op, u: nat)
    requires ThreadOk(s, u) && (s.lock.Some? ==> s.lock.value < |s.threads|)
    ensures ThreadOk(Next(s, Call(op)), u)
  {
    if u < |s.threads| {
      PcFrame(s, Next(s, Call(op)), u, s.threads[u]);
    }
  }

  lemma PcFrame(s: State, s': State, u: nat, thread: Thread)
    requires s'.heap == s.heap && s'.table == s.table && s'.events == s.events && s'.callers == s.callers
    requires PcOk(s, u, thread)
    ensures PcOk(s', u, thread)
  {
  }

  lemma ConnectStep(s: State, on: bool)
    requires Inv(s)
    ensures Inv(Next(s, Connect(on)))
  {
    assert InvParts(s);
    var s' := Next(s, Connect(on));
    forall u: nat ensures ThreadOk(s', u) {
      assert ThreadOk(s, u);
      if u < |s.threads| {
        PcFrame(s, s', u, s.threads[u]);
      }
    }
    forall c: nat ensures CellOk(s', c) {
      assert CellOk(s, c);
    }
    forall pid ensures PidOk(s', pid) {
      assert PidOk(s, pid);
    }
    forall k: nat ensures EventOk(s', k) {
      assert EventOk(s, k);
    }
    assert Abs(s') == Abs(s);
    assert InvParts(s');
  }

  lemma NextStep(s: State, a: Action)
    requires Inv(s)
    ensures Inv(Next(s, a))
  {
    assert InvParts(s);
    match a {
      case Call(op) => CallStep(s, op);
      case Connect(on) => ConnectStep(s, on);
      case Step(t, poolHasMemory) =>
        if t < |s.threads| {
          MoveStep(s, t, poolHasMemory);
          assert Next(s, a) == Move(s, t, poolHasMemory);
        }
    }
  }

  lemma InitialIsOk()
    ensures Inv(INITIAL)
  {
    assert Abs(INITIAL) == Kernel.INITIAL;
    assert InvParts(INITIAL);
  }

  lemma StartIsOk(run: seq<State>)
    requires Execution(run)
    ensures Inv(run[0])
  {
    InitialIsOk();
  }

  lemma FollowsKeepsInv(run: seq<State>, n: nat)
    requires n + 1 < |run| && Follows(run, n) && Inv(run[n])
    ensures Inv(run[n + 1])
  {
    var s, s' := run[n], run[n + 1];
    var a :| s' == Next(s, a);
    NextStep(s, a);
  }

  /** The invariant holds whatever the interleaving. */
  lemma {:induction false} ReachableIsOk(run: seq<State>, n: nat)
    requires Execution(run) && n < |run|
    ensures Inv(run[n])
    decreases n
  {
    if n == 0 {
      StartIsOk(run);
    } else {
      var m := n - 1;
      ReachableIsOk(run, m);
      FollowsKeepsInv(run, m);
    }
  }
}
