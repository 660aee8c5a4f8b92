/** No call holds the lock for long, and none gets stuck: stepped alone, it comes to its end. */
module ThreadProgress {
  import opened Base
  import opened Threads
  import opened ThreadInvariant
  import opened ThreadSteps
  import Kernel

  predicate Over(pc: Pc) {
    pc.Returned? || pc.Failed? || pc.Passed?
  }

  /** How many steps a call has left, at most. */
  function StepsLeft(pc: Pc): nat {
    match pc
    case Entered => 17
    case Matching => 16
    case MatchLocked => 15
    case NameMatched(_) => 14
    case Passed => 0
    case Start => 13
    case First => 12
    case Missed => 11
    case Allocating => 10
    case Fresh(_) => 9
    case Second(_) => 8
    case Using(_) => 7
    case Doomed(_) => 7
    case Leaving(_) => 6
    case Owing(_) => 5
    case Numbering(_) => 4
    case NumberLocked(_) => 3
    case NumberTaken(_, _) => 2
    case Sending(_, _) => 1
    case Returned(_, _) => 0
    case Failed => 0
  }

  /** How many of its own steps the holder of the lock takes, at most, until it gives it back. */
  function HoldsFor(pc: Pc): nat {
    match pc
    case First => 3
    case Second(_) => 3
    case Using(_) => 2
    case Doomed(_) => 2
    case MatchLocked => 2
    case NumberLocked(_) => 2
    case Missed => 1
    case NameMatched(_) => 1
    case Leaving(_) => 1
    case NumberTaken(_, _) => 1
    case _ => 0
  }

  /** The thread took a step, of those that are its own to take. */
  ghost predicate Stepped(s: State, s': State, t: nat) {
    && t < |s.threads| == |s'.threads|
    && StepsLeft(s'.threads[t].pc) < StepsLeft(s.threads[t].pc)
    && (s'.lock == None || s'.lock == Some(t))
    && (s.lock == Some(t) ==> s'.lock == None || HoldsFor(s'.threads[t].pc) < HoldsFor(s.threads[t].pc))
  }

  /** Thread `t` takes the given number of steps and no other thread any. */
  function Alone(s: State, t: nat, poolHasMemory: bool, steps: nat): State
    requires t < |s.threads|
    decreases steps
  {
    if steps == 0 then s
    else
      var s' := Move(s, t, poolHasMemory);
      if t < |s'.threads| then Alone(s', t, poolHasMemory, steps - 1) else s'
  }

  lemma FoundSteps(s: State, m: State, t: nat, cell: nat)
    requires t < |s.threads| && (s.threads[t].pc.First? || s.threads[t].pc.Second?) && s.lock == Some(t)
    requires m.threads == s.threads && m.lock == s.lock && !Found(m, t, cell).faulted
    ensures Stepped(s, Found(m, t, cell), t)
  {
    var s' := Found(m, t, cell);
    assert s'.threads[t].pc.Leaving? || s'.threads[t].pc.Using?;
  }

  lemma FirstSteps(s: State, t: nat)
    requires t < |s.threads| && s.threads[t].pc.First? && s.lock == Some(t) && !FirstLookup(s, t).faulted
    ensures Stepped(s, FirstLookup(s, t), t)
  {
    match s.threads[t].op {
      case FileOp(_, pid, _, _, _) =>
        if pid in s.table {
          FoundSteps(s, s, t, s.table[pid]);
        }
      case RegionOp(e) =>
        if !e.Unblock? {
          RegionSteps(s, t, e);
        }
    }
  }

  lemma RegionSteps(s: State, t: nat, e: Kernel.Event)
    requires t < |s.threads| && s.threads[t].pc.First? && s.lock == Some(t) && !Region(s, t, e).faulted
    ensures Stepped(s, Region(s, t, e), t)
  {
    assert Region(s, t, e).threads[t].pc.Leaving?;
  }

  lemma SecondSteps(s: State, t: nat, cell: nat)
    requires t < |s.threads| && s.threads[t].pc.Second? && s.lock == Some(t) && s.threads[t].op.FileOp?
    requires !SecondLookup(s, t, cell).faulted
    ensures Stepped(s, SecondLookup(s, t, cell), t)
  {
    var FileOp(_, pid, _, now, _) := s.threads[t].op;
    if pid in s.table {
      FoundSteps(s, Free(s, cell), t, s.table[pid]);
    } else {
      RecordSteps(s, Insert(s, cell, pid), t, cell, pid, now);
    }
  }

  lemma RecordSteps(s: State, m: State, t: nat, cell: nat, pid: ULong, now: Ticks)
    requires t < |s.threads| && (s.threads[t].pc.Using? || s.threads[t].pc.Second?) && s.lock == Some(t)
    requires m.threads == s.threads && m.lock == s.lock && !RecordInto(m, t, cell, pid, now).faulted
    ensures Stepped(s, RecordInto(m, t, cell, pid, now), t)
  {
    assert RecordInto(m, t, cell, pid, now).threads[t].pc.Leaving?;
  }

  lemma LookupSteps(s: State, t: nat, poolHasMemory: bool)
    requires Inv(s) && t < |s.threads| && s.lock == Some(t)
    requires var pc := s.threads[t].pc; pc.First? || pc.Using? || pc.Doomed? || pc.Second?
    requires !Move(s, t, poolHasMemory).faulted
    ensures Stepped(s, Move(s, t, poolHasMemory), t)
  {
    assert InvParts(s);
    assert ThreadOk(s, t);
    var thread := s.threads[t];
    match thread.pc {
      case First => FirstSteps(s, t);
      case Using(cell) => RecordSteps(s, s, t, cell, thread.op.pid, thread.op.now);
      case Second(cell) => SecondSteps(s, t, cell);
      case Doomed(cell) => assert Move(s, t, poolHasMemory).threads[t].pc.Leaving?;
    }
  }

  lemma AcquireSteps(s: State, t: nat, poolHasMemory: bool)
    requires t < |s.threads| && s.lock == None
    requires var pc := s.threads[t].pc; pc.Matching? || pc.Start? || pc.Fresh? || pc.Numbering?
    ensures Stepped(s, Move(s, t, poolHasMemory), t)
  {
    var s' := Move(s, t, poolHasMemory);
    assert s'.lock == Some(t) && s'.threads == s.threads[t := s'.threads[t]];
  }

  lemma ReleaseSteps(s: State, t: nat, poolHasMemory: bool)
    requires t < |s.threads| && s.lock == Some(t)
    requires s.threads[t].pc.Missed? || s.threads[t].pc.NumberTaken?
    ensures Stepped(s, Move(s, t, poolHasMemory), t)
  {
    var s' := Move(s, t, poolHasMemory);
    assert s'.lock == None;
  }

  lemma MatchedSteps(s: State, t: nat, poolHasMemory: bool)
    requires t < |s.threads| && s.lock == Some(t) && s.threads[t].pc.NameMatched?
    ensures Stepped(s, Move(s, t, poolHasMemory), t)
  {
    var s' := Move(s, t, poolHasMemory);
    assert s'.lock == None && (s'.threads[t].pc.Passed? || s'.threads[t].pc.Start?);
  }

  lemma LeaveSteps(s: State, t: nat, poolHasMemory: bool)
    requires t < |s.threads| && s.lock == Some(t) && s.threads[t].pc.Leaving?
    ensures Stepped(s, Move(s, t, poolHasMemory), t)
  {
    var s' := Move(s, t, poolHasMemory);
    assert s'.lock == None && (s'.threads[t].pc.Owing? || s'.threads[t].pc.Returned?);
  }

  lemma NoteSteps(s: State, t: nat, poolHasMemory: bool)
    requires t < |s.threads| && s.lock == Some(t) && (s.threads[t].pc.MatchLocked? || s.threads[t].pc.NumberLocked?)
    requires !Move(s, t, poolHasMemory).faulted
    ensures Stepped(s, Move(s, t, poolHasMemory), t)
  {
    var s' := Move(s, t, poolHasMemory);
    assert s'.threads[t].pc.NameMatched? || s'.threads[t].pc.NumberTaken?;
  }

  lemma EnterSteps(s: State, t: nat)
    requires t < |s.threads| && s.lock == None && s.threads[t].pc.Entered? && s.threads[t].op.FileOp?
    ensures Stepped(s, Enter(s, t), t)
  {
    var s' := Enter(s, t);
    assert s'.lock == None && (s'.threads[t].pc.Passed? || s'.threads[t].pc.Start? || s'.threads[t].pc.Matching?);
  }

  lemma AllocateSteps(s: State, t: nat, poolHasMemory: bool)
    requires t < |s.threads| && s.lock == None && s.threads[t].pc.Allocating? && s.threads[t].op.FileOp?
    ensures Stepped(s, Move(s, t, poolHasMemory), t)
  {
    var s' := Move(s, t, poolHasMemory);
    assert s'.threads[t].pc.Fresh? || s'.threads[t].pc.Failed?;
  }

  lemma NotifySteps(s: State, t: nat, poolHasMemory: bool)
    requires t < |s.threads| && s.lock == None && (s.threads[t].pc.Owing? || s.threads[t].pc.Sending?)
    ensures Stepped(s, Move(s, t, poolHasMemory), t)
  {
    var s' := Move(s, t, poolHasMemory);
    assert s'.threads[t].pc.Numbering? || s'.threads[t].pc.Returned?;
  }

  /** With the lock free or its own, a call that is not over can always take a step. */
  lemma MoveIsProgress(s: State, t: nat, poolHasMemory: bool)
    requires Inv(s) && t < |s.threads| && (s.lock == None || s.lock == Some(t)) && !Over(s.threads[t].pc)
    ensures Stepped(s, Move(s, t, poolHasMemory), t) && Inv(Move(s, t, poolHasMemory))
  {
    MoveStep(s, t, poolHasMemory);
    assert InvParts(Move(s, t, poolHasMemory));
    HoldsItself(s, t);
    RecordsFiles(s, t);
    match s.threads[t].pc {
      case Matching | Start | Fresh(_) | Numbering(_) => AcquireSteps(s, t, poolHasMemory);
      case Missed | NumberTaken(_, _) => ReleaseSteps(s, t, poolHasMemory);
      case NameMatched(_) => MatchedSteps(s, t, poolHasMemory);
      case Leaving(_) => LeaveSteps(s, t, poolHasMemory);
      case MatchLocked | NumberLocked(_) => NoteSteps(s, t, poolHasMemory);
      case Entered => EnterSteps(s, t);
      case Allocating => AllocateSteps(s, t, poolHasMemory);
      case Owing(_) | Sending(_, _) => NotifySteps(s, t, poolHasMemory);
      case _ => LookupSteps(s, t, poolHasMemory);
    }
  }

  lemma RecordsFiles(s: State, t: nat)
    requires Inv(s) && t < |s.threads|
    ensures s.threads[t].pc.Entered? || s.threads[t].pc.Allocating? ==> s.threads[t].op.FileOp?
  {
    assert InvParts(s);
    assert ThreadOk(s, t);
  }

  lemma HoldsItself(s: State, t: nat)
    requires Inv(s) && t < |s.threads|
    ensures Critical(s.threads[t].pc) <==> s.lock == Some(t)
  {
    assert InvParts(s);
    assert ThreadOk(s, t);
  }

  lemma {:induction false} AloneToTheEnd(s: State, t: nat, poolHasMemory: bool, steps: nat)
    requires Inv(s) && t < |s.threads| && (s.lock == None || s.lock == Some(t)) && StepsLeft(s.threads[t].pc) <= steps
    ensures var s' := Alone(s, t, poolHasMemory, steps);
            t < |s'.threads| && Over(s'.threads[t].pc) && s'.lock != Some(t)
    decreases steps
  {
    HoldsItself(s, t);
    if steps > 0 {
      if Over(s.threads[t].pc) {
        AloneToTheEnd(s, t, poolHasMemory, steps - 1);
      } else {
        MoveIsProgress(s, t, poolHasMemory);
        AloneToTheEnd(Move(s, t, poolHasMemory), t, poolHasMemory, steps - 1);
      }
    }
  }

  lemma {:induction false} AloneReleases(s: State, t: nat, poolHasMemory: bool, steps: nat)
    requires Inv(s) && t < |s.threads| && s.lock == Some(t) && HoldsFor(s.threads[t].pc) <= steps
    ensures exists k :: 0 < k <= steps && Alone(s, t, poolHasMemory, k).lock == None
    decreases steps
  {
    HoldsItself(s, t);
    MoveIsProgress(s, t, poolHasMemory);
    var s' := Move(s, t, poolHasMemory);
    if s'.lock == None {
      assert Alone(s', t, poolHasMemory, 0) == s';
      assert Alone(s, t, poolHasMemory, 1).lock == None;
    } else {
      AloneReleases(s', t, poolHasMemory, steps - 1);
      var k :| 0 < k <= steps - 1 && Alone(s', t, poolHasMemory, k).lock == None;
      assert Alone(s, t, poolHasMemory, k + 1) == Alone(s', t, poolHasMemory, k);
    }
  }

  // ---- What that says of every interleaving -----------------------------------------------------------------

  /** Released on every path: a call that is over does not hold the lock. */
  lemma {:induction false} LockIsReleased(run: seq<State>, n: nat, t: nat)
    requires Execution(run) && n < |run| && t < |run[n].threads| && Over(run[n].threads[t].pc)
    ensures run[n].lock != Some(t)
  {
    ReachableIsOk(run, n);
    HoldsItself(run[n], t);
  }

  /** The holder, stepped alone, gives the lock back within three steps. */
  lemma {:induction false} HolderReleases(run: seq<State>, n: nat, t: nat, poolHasMemory: bool)
    requires Execution(run) && n < |run| && run[n].lock == Some(t)
    ensures t < |run[n].threads| && exists k :: 0 < k <= 3 && Alone(run[n], t, poolHasMemory, k).lock == None
  {
    ReachableIsOk(run, n);
    assert InvParts(run[n]);
    AloneReleases(run[n], t, poolHasMemory, 3);
  }

  /** Whenever the lock is free or its own, a call that is left to run comes to its end within 17 steps:
      it returns, fails for lack of memory, or lets the operation through, and holds nothing. */
  lemma {:induction false} CallsComplete(run: seq<State>, n: nat, t: nat, poolHasMemory: bool)
    requires Execution(run) && n < |run| && t < |run[n].threads| && (run[n].lock == None || run[n].lock == Some(t))
    ensures var s := Alone(run[n], t, poolHasMemory, 17);
            t < |s.threads| && Over(s.threads[t].pc) && s.lock != Some(t)
  {
    ReachableIsOk(run, n);
    AloneToTheEnd(run[n], t, poolHasMemory, 17);
  }
}
