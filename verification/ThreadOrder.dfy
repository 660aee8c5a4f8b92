/** How the threads and the history grow: a step moves one thread, and a call that returned stays as it
    returned. */
module ThreadOrder {
  import opened Base
  import opened Names
  import opened Threads
  import Kernel

  /** How a thread's record may change, the history being n events long: a call that is over stays as it
      is, and one that has got to RsRecordOperation stays there and keeps its match. */
  ghost predicate Grows(thread: Thread, thread': Thread, n: nat) {
    && thread'.op == thread.op && thread'.invokedAt == thread.invokedAt
    && (thread.pc.Returned? || thread.pc.Failed? || thread.pc.Passed? ==> thread' == thread)
    && (!Early(thread.pc) ==>
          && !Early(thread'.pc) && thread'.matchedAt == thread.matchedAt
          && (thread'.actedAt == thread.actedAt || thread'.actedAt == Some(n)))
  }

  /** Only thread `t` moved, and the history only grew. */
  ghost predicate Advances(s: State, s': State, t: nat) {
    && t < |s.threads| == |s'.threads| && s.events <= s'.events && s.callers <= s'.callers
    && Grows(s.threads[t], s'.threads[t], |s.events|)
    && forall u :: 0 <= u < |s.threads| && u != t ==> s'.threads[u] == s.threads[u]
  }

  lemma Moved(s: State, s': State, t: nat, thread: Thread)
    requires t < |s.threads| && Grows(s.threads[t], thread, |s.events|)
    requires s'.threads == s.threads[t := thread] && s.events <= s'.events && s.callers <= s'.callers
    ensures Advances(s, s', t)
  {
  }

  /** A step that goes on from one place of the same part of a call to another. */
  predicate GoesOn(pc: Pc, pc': Pc) {
    !pc.Returned? && !pc.Failed? && !pc.Passed? && (Early(pc') ==> Early(pc))
  }

  lemma AcquireAdvances(s: State, t: nat, pc: Pc)
    requires t < |s.threads| && GoesOn(s.threads[t].pc, pc)
    ensures Advances(s, Acquire(s, t, pc), t)
  {
    if s.lock == None {
      Moved(s, Acquire(s, t, pc), t, s.threads[t].(pc := pc));
    }
  }

  lemma ReleaseAdvances(s: State, t: nat, pc: Pc)
    requires t < |s.threads| && GoesOn(s.threads[t].pc, pc)
    ensures Advances(s, Release(s, t, pc), t)
  {
    if s.lock == Some(t) {
      Moved(s, Release(s, t, pc), t, s.threads[t].(pc := pc));
    }
  }

  lemma GotoAdvances(s: State, t: nat, pc: Pc)
    requires t < |s.threads| && GoesOn(s.threads[t].pc, pc)
    ensures Advances(s, Goto(s, t, pc), t)
  {
    Moved(s, Goto(s, t, pc), t, s.threads[t].(pc := pc));
  }

  lemma ReturnAdvances(s: State, t: nat, pc: Pc)
    requires t < |s.threads| && GoesOn(s.threads[t].pc, pc)
    ensures Advances(s, Return(Release(s, t, pc), t), t) && Advances(s, Return(Goto(s, t, pc), t), t)
  {
    Moved(s, Return(Goto(s, t, pc), t), t, s.threads[t].(pc := pc, returnedAt := |s.events|));
    if s.lock == Some(t) {
      Moved(s, Return(Release(s, t, pc), t), t, s.threads[t].(pc := pc, returnedAt := |s.events|));
    } else {
      Moved(s, Return(Release(s, t, pc), t), t, s.threads[t].(returnedAt := |s.events|));
    }
  }

  /** `m` is `s` up to a change of the heap and the table. */
  lemma ActAdvances(s: State, m: State, t: nat, answer: Kernel.Answer)
    requires t < |s.threads| && GoesOn(s.threads[t].pc, Leaving(answer))
    requires m.threads == s.threads && m.events == s.events && m.callers == s.callers
    ensures Advances(s, Act(m, t, answer), t)
  {
    Moved(s, Act(m, t, answer), t, s.threads[t].(pc := Leaving(answer), actedAt := Some(|s.events|)));
  }

  lemma RecordAdvances(s: State, m: State, t: nat, cell: nat, pid: ULong, now: Ticks)
    requires t < |s.threads| && GoesOn(s.threads[t].pc, Failed)
    requires m.threads == s.threads && m.events == s.events && m.callers == s.callers
    ensures Advances(s, RecordInto(m, t, cell, pid, now), t)
  {
    if cell in m.heap {
      var context := m.heap[cell].context;
      var notice := Kernel.NoticeOf(pid, context, m.config, now);
      var m' := m.(heap := m.heap[cell := m.heap[cell].(context := Kernel.Absorb(context, m.config, now))]);
      ActAdvances(s, m', t, Kernel.Verdict(notice.Some?, notice));
    }
  }

  lemma FoundAdvances(s: State, m: State, t: nat, cell: nat)
    requires t < |s.threads| && GoesOn(s.threads[t].pc, Failed)
    requires m.threads == s.threads && m.events == s.events && m.callers == s.callers
    ensures Advances(s, Found(m, t, cell), t)
  {
    if cell in m.heap {
      if m.heap[cell].context.blocked {
        ActAdvances(s, m, t, Kernel.Verdict(true, None));
      } else {
        Moved(s, Goto(m, t, Using(cell)), t, s.threads[t].(pc := Using(cell)));
      }
    }
  }

  lemma RegionAdvances(s: State, t: nat, e: Kernel.Event)
    requires t < |s.threads| && GoesOn(s.threads[t].pc, Failed)
    ensures Advances(s, Region(s, t, e), t)
  {
    var s' := RegionAct(s, t, e);
    assert s'.threads[t].pc.Leaving?;
    Moved(s, s', t, s.threads[t].(pc := s'.threads[t].pc, actedAt := Some(|s.events|)));
  }

  lemma FirstAdvances(s: State, t: nat)
    requires t < |s.threads| && s.threads[t].pc.First?
    ensures Advances(s, FirstLookup(s, t), t)
  {
    match s.threads[t].op {
      case FileOp(_, pid, _, _, _) =>
        if pid in s.table { FoundAdvances(s, s, t, s.table[pid]); } else { GotoAdvances(s, t, Missed); }
      case RegionOp(e) =>
        if !e.Unblock? { RegionAdvances(s, t, e); }
        else if e.pid in s.table { GotoAdvances(s, t, Doomed(s.table[e.pid])); }
        else { ActAdvances(s, s, t, Kernel.Acknowledged); }
    }
  }

  lemma SecondAdvances(s: State, t: nat, cell: nat)
    requires t < |s.threads| && s.threads[t].pc.Second? && s.threads[t].op.FileOp?
    ensures Advances(s, SecondLookup(s, t, cell), t)
  {
    var FileOp(_, pid, _, now, _) := s.threads[t].op;
    if pid in s.table {
      FoundAdvances(s, Free(s, cell), t, s.table[pid]);
    } else {
      RecordAdvances(s, Insert(s, cell, pid), t, cell, pid, now);
    }
  }

  lemma EarlyAdvances(s: State, t: nat, poolHasMemory: bool)
    requires t < |s.threads| && Early(s.threads[t].pc)
    ensures Advances(s, Move(s, t, poolHasMemory), t)
  {
    var thread := s.threads[t];
    match thread.pc {
      case Entered =>
        if thread.op.FileOp? {
          ReturnAdvances(s, t, Passed);
          GotoAdvances(s, t, Start);
          GotoAdvances(s, t, Matching);
        }
      case Matching => AcquireAdvances(s, t, MatchLocked);
      case MatchLocked =>
        if thread.op.FileOp? && thread.op.image.Some? {
          var file := FileName(thread.op.image.value);
          var s' := MatchNames(s, t, thread.op.fold, file);
          Moved(s, s', t, s'.threads[t]);
        }
      case NameMatched(_) =>
        ReturnAdvances(s, t, Passed);
        ReleaseAdvances(s, t, Start);
      case Passed =>
    }
  }

  lemma LeaveAdvances(s: State, t: nat, answer: Kernel.Answer, poolHasMemory: bool)
    requires t < |s.threads| && s.threads[t].pc == Leaving(answer)
    ensures Advances(s, Move(s, t, poolHasMemory), t)
  {
    if answer.Verdict? && answer.notice.Some? {
      ReleaseAdvances(s, t, Pc.Owing(answer.notice.value));
    } else {
      ReturnAdvances(s, t, Returned(answer, None));
    }
  }

  lemma NotifyAdvances(s: State, t: nat, poolHasMemory: bool)
    requires t < |s.threads| && (s.threads[t].pc.Owing? || s.threads[t].pc.Sending?)
    ensures Advances(s, Move(s, t, poolHasMemory), t)
  {
    var answer := Kernel.Verdict(true, Some(s.threads[t].pc.notice));
    if s.threads[t].pc.Sending? {
      ReturnAdvances(s, t, Returned(answer, Some(s.threads[t].pc.number)));
    } else {
      ReturnAdvances(s, t, Returned(answer, None));
      GotoAdvances(s, t, Numbering(s.threads[t].pc.notice));
    }
  }

  lemma DoomedAdvances(s: State, t: nat, cell: nat, poolHasMemory: bool)
    requires t < |s.threads| && s.threads[t].pc == Doomed(cell)
    ensures Advances(s, Move(s, t, poolHasMemory), t)
  {
    var op := s.threads[t].op;
    if op.RegionOp? && op.event.Unblock? {
      ActAdvances(s, Free(Unlink(s, op.event.pid), cell), t, Kernel.Acknowledged);
    }
  }

  lemma AllocateAdvances(s: State, t: nat, poolHasMemory: bool)
    requires t < |s.threads| && s.threads[t].pc.Allocating?
    ensures Advances(s, Move(s, t, poolHasMemory), t)
  {
    if s.lock != Some(t) && s.threads[t].op.FileOp? {
      Moved(s, Move(s, t, poolHasMemory), t, s.threads[t].(pc := if poolHasMemory then Fresh(s.nextCell) else Failed));
    }
  }

  lemma NumberAdvances(s: State, t: nat, notice: Kernel.Notice)
    requires t < |s.threads| && s.threads[t].pc == NumberLocked(notice)
    ensures Advances(s, TakeNumber(s, t, notice), t)
  {
    Moved(s, TakeNumber(s, t, notice), t,
          s.threads[t].(pc := NumberTaken(s.sequence, notice), numberedAt := Some(|s.events|)));
  }

  lemma MoveAdvances(s: State, t: nat, poolHasMemory: bool)
    requires t < |s.threads|
    ensures Advances(s, Move(s, t, poolHasMemory), t)
  {
    var thread := s.threads[t];
    if Early(thread.pc) {
      EarlyAdvances(s, t, poolHasMemory);
    } else {
      match thread.pc {
        case Start => AcquireAdvances(s, t, First);
        case First => FirstAdvances(s, t);
        case Second(cell) => if thread.op.FileOp? { SecondAdvances(s, t, cell); }
        case Using(cell) => if thread.op.FileOp? { RecordAdvances(s, s, t, cell, thread.op.pid, thread.op.now); }
        case Missed => ReleaseAdvances(s, t, Allocating);
        case Fresh(cell) => AcquireAdvances(s, t, Second(cell));
        case Leaving(answer) => LeaveAdvances(s, t, answer, poolHasMemory);
        case Numbering(notice) => AcquireAdvances(s, t, NumberLocked(notice));
        case NumberTaken(number, notice) => ReleaseAdvances(s, t, Sending(number, notice));
        case Owing(_) => NotifyAdvances(s, t, poolHasMemory);
        case Sending(_, _) => NotifyAdvances(s, t, poolHasMemory);
        case Returned(_, _) =>
        case Failed =>
        case Doomed(cell) => DoomedAdvances(s, t, cell, poolHasMemory);
        case Allocating => AllocateAdvances(s, t, poolHasMemory);
        case NumberLocked(notice) => NumberAdvances(s, t, notice);
      }
    }
  }

  lemma StepGrows(s: State, a: Action)
    ensures var s' := Next(s, a);
            && |s.threads| <= |s'.threads| && s.events <= s'.events && s.callers <= s'.callers
            && (forall u :: 0 <= u < |s.threads| ==> Grows(s.threads[u], s'.threads[u], |s.events|))
            && (forall u :: |s.threads| <= u < |s'.threads| ==> s'.threads[u].invokedAt == |s.events| && s'.threads[u].matchedAt == None)
  {
    if a.Step? && a.thread < |s.threads| {
      MoveAdvances(s, a.thread, a.poolHasMemory);
    }
  }

  /** A call that returned keeps its record in every later state, and calls made later start after it. */
  lemma {:induction false} ReturnedStays(run: seq<State>, m: nat, n: nat, t: nat)
    requires Execution(run) && m <= n < |run|
    requires t < |run[m].threads| && run[m].threads[t].pc.Returned?
    ensures |run[m].threads| <= |run[n].threads| && run[n].threads[t] == run[m].threads[t]
    ensures |run[m].events| <= |run[n].events|
    ensures forall u :: |run[m].threads| <= u < |run[n].threads| ==> run[n].threads[u].invokedAt >= |run[m].events|
    decreases n - m
  {
    if m < n {
      ReturnedStays(run, m, n - 1, t);
      assert Follows(run, n - 1);
      var a :| run[n] == Next(run[n - 1], a);
      StepGrows(run[n - 1], a);
    }
  }

  /** What has entered the history stays in it. */
  lemma {:induction false} HistoryGrows(run: seq<State>, m: nat, n: nat)
    requires Execution(run) && m <= n < |run|
    ensures run[m].events <= run[n].events
    decreases n - m
  {
    if m < n {
      HistoryGrows(run, m, n - 1);
      assert Follows(run, n - 1);
      var a :| run[n] == Next(run[n - 1], a);
      StepGrows(run[n - 1], a);
    }
  }
}
