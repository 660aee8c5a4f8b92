/** Why a call ended as it did: it fails only when the pool had nothing for it, and its notification is sent
    exactly if a client was connected when it was due. */
module ThreadOutcomes {
  import opened Base
  import opened Threads
  import opened ThreadOrder

  /** For a call whose notification was due: whether it went, or is about to go, to a client. */
  function ToClient(pc: Pc): Option<bool> {
    match pc
    case Numbering(_) => Some(true)
    case NumberLocked(_) => Some(true)
    case NumberTaken(_, _) => Some(true)
    case Sending(_, _) => Some(true)
    case Returned(answer, sent) => if answer.Verdict? && answer.notice.Some? then Some(sent.Some?) else None
    case _ => None
  }

  predicate Plain(pc: Pc) {
    !pc.Failed? && ToClient(pc) == None
  }

  lemma {:induction false} FoundIsPlain(s: State, t: nat, cell: nat)
    requires t < |s.threads| && Plain(s.threads[t].pc)
    ensures t < |Found(s, t, cell).threads| && Plain(Found(s, t, cell).threads[t].pc)
  {
  }

  lemma {:induction false} FirstIsPlain(s: State, t: nat)
    requires t < |s.threads| && Plain(s.threads[t].pc)
    ensures t < |FirstLookup(s, t).threads| && Plain(FirstLookup(s, t).threads[t].pc)
  {
    if s.threads[t].op.FileOp? && s.threads[t].op.pid in s.table {
      FoundIsPlain(s, t, s.table[s.threads[t].op.pid]);
    }
  }

  lemma {:induction false} RecordIsPlain(s: State, t: nat, cell: nat, pid: ULong, now: Ticks)
    requires t < |s.threads| && Plain(s.threads[t].pc)
    ensures t < |RecordInto(s, t, cell, pid, now).threads| && Plain(RecordInto(s, t, cell, pid, now).threads[t].pc)
  {
  }

  lemma {:induction false} SecondIsPlain(s: State, t: nat, cell: nat)
    requires t < |s.threads| && s.threads[t].op.FileOp? && Plain(s.threads[t].pc)
    ensures t < |SecondLookup(s, t, cell).threads| && Plain(SecondLookup(s, t, cell).threads[t].pc)
  {
    var FileOp(_, pid, _, now, _) := s.threads[t].op;
    if pid in s.table {
      FoundIsPlain(Free(s, cell), t, s.table[pid]);
    } else {
      RecordIsPlain(Insert(s, cell, pid), t, cell, pid, now);
    }
  }

  lemma {:induction false} EnterIsPlain(s: State, t: nat)
    requires t < |s.threads| && s.threads[t].op.FileOp?
    ensures t < |Enter(s, t).threads|
    ensures var pc := Enter(s, t).threads[t].pc; pc.Passed? || pc.Start? || pc.Matching?
  {
  }

  /** What a step of its own makes of a call, given where it stood and whether a client was connected. */
  predicate Follow(pc: Pc, pc': Pc, connected: bool, poolHasMemory: bool) {
    && (pc'.Failed? ==> pc.Failed? || (pc.Allocating? && !poolHasMemory))
    && (ToClient(pc').Some? ==> ToClient(pc') == ToClient(pc) || (pc.Owing? && ToClient(pc') == Some(connected)))
  }

  lemma {:induction false} AcquireFollows(s: State, t: nat, poolHasMemory: bool)
    requires t < |s.threads|
    requires var pc := s.threads[t].pc; pc.Matching? || pc.Start? || pc.Fresh?
    ensures var s' := Move(s, t, poolHasMemory);
            t < |s'.threads| && Follow(s.threads[t].pc, s'.threads[t].pc, s.connected, poolHasMemory)
  {
    var pc' := Move(s, t, poolHasMemory).threads[t].pc;
    assert pc' == s.threads[t].pc || pc'.MatchLocked? || pc'.First? || pc'.Second?;
  }

  lemma {:induction false} SearchFollows(s: State, t: nat, poolHasMemory: bool)
    requires t < |s.threads|
    requires var pc := s.threads[t].pc; pc.Entered? || pc.MatchLocked? || pc.NameMatched?
    ensures var s' := Move(s, t, poolHasMemory);
            t < |s'.threads| && Follow(s.threads[t].pc, s'.threads[t].pc, s.connected, poolHasMemory)
  {
    if s.threads[t].pc.Entered? && s.threads[t].op.FileOp? {
      EnterIsPlain(s, t);
    }
  }

  lemma {:induction false} LookupFollows(s: State, t: nat, poolHasMemory: bool)
    requires t < |s.threads|
    requires var pc := s.threads[t].pc; pc.First? || pc.Using? || pc.Second? || pc.Doomed?
    ensures var s' := Move(s, t, poolHasMemory);
            t < |s'.threads| && Follow(s.threads[t].pc, s'.threads[t].pc, s.connected, poolHasMemory)
  {
    var thread := s.threads[t];
    match thread.pc {
      case First => FirstIsPlain(s, t);
      case Using(cell) => if thread.op.FileOp? { RecordIsPlain(s, t, cell, thread.op.pid, thread.op.now); }
      case Second(cell) => if thread.op.FileOp? { SecondIsPlain(s, t, cell); }
      case Doomed(cell) =>
    }
  }

  lemma {:induction false} CreateFollows(s: State, t: nat, poolHasMemory: bool)
    requires t < |s.threads|
    requires var pc := s.threads[t].pc; pc.Missed? || pc.Allocating?
    ensures var s' := Move(s, t, poolHasMemory);
            t < |s'.threads| && Follow(s.threads[t].pc, s'.threads[t].pc, s.connected, poolHasMemory)
  {
    var pc' := Move(s, t, poolHasMemory).threads[t].pc;
    assert pc' == s.threads[t].pc || pc'.Allocating? || pc'.Fresh? || (pc'.Failed? && !poolHasMemory);
  }

  lemma {:induction false} LeaveFollows(s: State, t: nat, poolHasMemory: bool)
    requires t < |s.threads|
    requires var pc := s.threads[t].pc; pc.Leaving?
    ensures var s' := Move(s, t, poolHasMemory);
            t < |s'.threads| && Follow(s.threads[t].pc, s'.threads[t].pc, s.connected, poolHasMemory)
  {
    var Leaving(answer) := s.threads[t].pc;
    var s' := Move(s, t, poolHasMemory);
    if s.lock != Some(t) {
      assert s'.threads[t].pc == Leaving(answer);
    } else if answer.Verdict? && answer.notice.Some? {
      assert s'.threads[t].pc == Pc.Owing(answer.notice.value);
    } else {
      assert s'.threads[t].pc == Returned(answer, None);
    }
  }

  lemma {:induction false} OweFollows(s: State, t: nat, poolHasMemory: bool)
    requires t < |s.threads|
    requires var pc := s.threads[t].pc; pc.Owing?
    ensures var s' := Move(s, t, poolHasMemory);
            t < |s'.threads| && Follow(s.threads[t].pc, s'.threads[t].pc, s.connected, poolHasMemory)
  {
  }

  lemma {:induction false} NumberFollows(s: State, t: nat, poolHasMemory: bool)
    requires t < |s.threads|
    requires var pc := s.threads[t].pc; pc.Numbering? || pc.NumberLocked?
    ensures var s' := Move(s, t, poolHasMemory);
            t < |s'.threads| && Follow(s.threads[t].pc, s'.threads[t].pc, s.connected, poolHasMemory)
  {
    var pc' := Move(s, t, poolHasMemory).threads[t].pc;
    assert pc' == s.threads[t].pc || pc'.NumberLocked? || pc'.NumberTaken?;
  }

  lemma {:induction false} SendFollows(s: State, t: nat, poolHasMemory: bool)
    requires t < |s.threads|
    requires var pc := s.threads[t].pc; pc.NumberTaken? || pc.Sending?
    ensures var s' := Move(s, t, poolHasMemory);
            t < |s'.threads| && Follow(s.threads[t].pc, s'.threads[t].pc, s.connected, poolHasMemory)
  {
    var pc' := Move(s, t, poolHasMemory).threads[t].pc;
    assert pc' == s.threads[t].pc || pc'.Sending? || (pc'.Returned? && pc'.sent.Some?);
  }

  lemma {:induction false} MoveFollows(s: State, t: nat, poolHasMemory: bool)
    requires t < |s.threads|
    ensures var s' := Move(s, t, poolHasMemory);
            t < |s'.threads| && Follow(s.threads[t].pc, s'.threads[t].pc, s.connected, poolHasMemory)
  {
    match s.threads[t].pc {
      case Matching | Start | Fresh(_) => AcquireFollows(s, t, poolHasMemory);
      case Entered | MatchLocked | NameMatched(_) => SearchFollows(s, t, poolHasMemory);
      case First | Using(_) | Second(_) | Doomed(_) => LookupFollows(s, t, poolHasMemory);
      case Missed | Allocating => CreateFollows(s, t, poolHasMemory);
      case Leaving(_) => LeaveFollows(s, t, poolHasMemory);
      case Owing(_) => OweFollows(s, t, poolHasMemory);
      case Numbering(_) | NumberLocked(_) => NumberFollows(s, t, poolHasMemory);
      case NumberTaken(_, _) | Sending(_, _) => SendFollows(s, t, poolHasMemory);
      case Passed | Returned(_, _) | Failed =>
    }
  }

  lemma {:induction false} NextFollows(s: State, a: Action, t: nat)
    requires t < |Next(s, a).threads|
    ensures var pc' := Next(s, a).threads[t].pc;
            if t < |s.threads| then Follow(s.threads[t].pc, pc', s.connected, a != Step(t, false)) else Plain(pc')
  {
    if a.Step? && a.thread < |s.threads| {
      MoveAdvances(s, a.thread, a.poolHasMemory);
      MoveFollows(s, a.thread, a.poolHasMemory);
    }
  }

  /** Only for lack of memory: a call that failed had asked the pool, between states m and m + 1 of the
      execution, and got nothing. */
  lemma {:induction false} FailedForLackOfMemory(run: seq<State>, n: nat, t: nat) returns (m: nat)
    requires Execution(run) && n < |run| && t < |run[n].threads| && run[n].threads[t].pc.Failed?
    ensures m < n && t < |run[m].threads| && run[m].threads[t].pc.Allocating? && run[m + 1] == Next(run[m], Step(t, false))
    decreases n
  {
    assert n > 0 && Follows(run, n - 1);
    var a :| run[n] == Next(run[n - 1], a);
    NextFollows(run[n - 1], a, t);
    if run[n - 1].threads[t].pc.Failed? {
      m := FailedForLackOfMemory(run, n - 1, t);
    } else {
      m := n - 1;
    }
  }

  lemma {:induction false} SeenStep(run: seq<State>, n: nat, t: nat)
    requires Execution(run) && n < |run| && t < |run[n].threads| && ToClient(run[n].threads[t].pc).Some?
    ensures n > 0 && t < |run[n - 1].threads|
    ensures var pc, seen := run[n - 1].threads[t].pc, ToClient(run[n].threads[t].pc);
            seen == ToClient(pc) || (pc.Owing? && seen == Some(run[n - 1].connected))
  {
    assert n > 0 && Follows(run, n - 1);
    var a :| run[n] == Next(run[n - 1], a);
    NextFollows(run[n - 1], a, t);
  }

  /** The client seen by a call whose notification was due is the one of the state in which it stopped owing it. */
  lemma {:induction false} SeenWhenDue(run: seq<State>, n: nat, t: nat) returns (m: nat)
    requires Execution(run) && n < |run| && t < |run[n].threads| && ToClient(run[n].threads[t].pc).Some?
    ensures m < n && t < |run[m].threads| && t < |run[m + 1].threads|
    ensures run[m].threads[t].pc.Owing? && !run[m + 1].threads[t].pc.Owing?
    ensures ToClient(run[n].threads[t].pc) == Some(run[m].connected)
    decreases n
  {
    SeenStep(run, n, t);
    if ToClient(run[n - 1].threads[t].pc).Some? {
      m := SeenWhenDue(run, n - 1, t);
    } else {
      m := n - 1;
    }
  }

  /** A call that blocked its PID and returned has sent its notification exactly if a client was connected
      in state m of the execution, the last one in which it owed it. */
  lemma {:induction false} SentIffConnected(run: seq<State>, n: nat, t: nat) returns (m: nat)
    requires Execution(run) && n < |run| && t < |run[n].threads|
    requires var pc := run[n].threads[t].pc; pc.Returned? && pc.answer.Verdict? && pc.answer.notice.Some?
    ensures m < n && t < |run[m].threads| && t < |run[m + 1].threads|
    ensures run[m].threads[t].pc.Owing? && !run[m + 1].threads[t].pc.Owing?
    ensures run[n].threads[t].pc.sent.Some? <==> run[m].connected
  {
    m := SeenWhenDue(run, n, t);
  }
}
