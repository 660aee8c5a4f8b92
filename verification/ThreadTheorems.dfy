/** What the invariant of the thread model says about every interleaving. */
module ThreadTheorems {
  import opened Base
  import opened Names
  import opened Operations
  import opened Threads
  import opened ThreadInvariant
  import opened ThreadOrder
  import opened ThreadSteps
  import opened ThreadAdmission
  import CommPort
  import Kernel

  // ---- Memory and lock safety ------------------------------------------------------------------

  /** In no interleaving does a thread use or free a context that is gone, ask for the lock it holds,
      release a lock it does not hold, or ask the pool or send a message under the lock. */
  lemma {:induction false} NoFault(run: seq<State>, n: nat)
    requires Execution(run) && n < |run|
    ensures !run[n].faulted
  {
    ReachableIsOk(run, n);
    assert InvParts(run[n]);
  }

  /** At most one thread is inside a region, and it is the one that holds the lock. */
  lemma {:induction false} MutualExclusion(run: seq<State>, n: nat, t: nat, u: nat)
    requires Execution(run) && n < |run|
    requires var s := run[n];
             t < |s.threads| && u < |s.threads| && Critical(s.threads[t].pc) && Critical(s.threads[u].pc)
    ensures t == u && run[n].lock == Some(t)
  {
    ReachableIsOk(run, n);
    assert InvParts(run[n]);
    assert ThreadOk(run[n], t) && ThreadOk(run[n], u);
  }

  // ---- Ownership ------------------------------------------------------------------------------------

  ghost function Holders(s: State): set<nat> {
    set t: nat | t < |s.threads| && (s.threads[t].pc.Fresh? || s.threads[t].pc.Second?)
  }

  ghost function HeldCells(s: State): map<nat, nat> {
    map t | t in Holders(s) :: s.threads[t].pc.cell
  }

  ghost predicate Injective<K>(m: map<K, nat>) {
    forall x, y :: x in m && y in m && m[x] == m[y] ==> x == y
  }

  lemma {:induction false} ValuesSize<K>(m: map<K, nat>)
    requires Injective(m)
    ensures |m.Values| == |m|
    decreases |m|
  {
    if m != map[] {
      var x :| x in m;
      var rest := m - {x};
      assert rest.Keys == m.Keys - {x} && m == rest[x := m[x]];
      ValuesSize(rest);
      assert m.Values == rest.Values + {m[x]};
      assert m[x] !in rest.Values;
    }
  }

  /** Every context ever allocated is exactly one of: linked in the table, held by one thread between
      its allocation and its second lookup, or freed once; so allocations = frees + linked + held. */
  lemma {:induction false} AllocationsAccountedFor(run: seq<State>, n: nat)
    requires Execution(run) && n < |run|
    ensures var s := run[n];
            && s.heap.Keys == s.table.Values + HeldCells(s).Values && s.table.Values !! HeldCells(s).Values
            && s.heap.Keys !! s.freed && (forall c :: c in s.heap.Keys + s.freed <==> 0 <= c < s.nextCell)
            && Injective(s.table) && Injective(HeldCells(s))
            && s.nextCell == |s.freed| + |s.table| + |Holders(s)|
  {
    ReachableIsOk(run, n);
    assert InvParts(run[n]);
    var s := run[n];
    HeldHaveHolders(s);
    LinkedAreDistinct(s);
    LiveOrFreed(s);
    ValuesSize(s.table);
    ValuesSize(HeldCells(s));
    Sizes(s.heap.Keys, s.freed, s.table.Values, HeldCells(s).Values, s.nextCell);
    assert |HeldCells(s)| == |Holders(s)| by {
      assert HeldCells(s).Keys == Holders(s);
    }
  }

  lemma Sizes(live: set<nat>, freed: set<nat>, linked: set<nat>, held: set<nat>, n: nat)
    requires live == linked + held && linked !! held && live !! freed
    requires forall c :: c in live + freed <==> 0 <= c < n
    ensures n == |freed| + |linked| + |held|
  {
    BoundedSet(live + freed, n);
  }

  lemma LiveOrFreed(s: State)
    requires forall c: nat :: CellOk(s, c)
    ensures s.heap.Keys !! s.freed && (forall c :: c in s.heap.Keys + s.freed <==> 0 <= c < s.nextCell)
  {
    forall c | c in s.heap.Keys + s.freed || 0 <= c < s.nextCell
      ensures c in s.heap.Keys + s.freed && c < s.nextCell && !(c in s.heap && c in s.freed)
    {
      assert CellOk(s, c);
    }
  }

  lemma HeldHaveHolders(s: State)
    requires forall t: nat :: ThreadOk(s, t)
    requires forall c: nat :: CellOk(s, c)
    requires forall pid :: PidOk(s, pid)
    ensures Injective(HeldCells(s))
    ensures s.heap.Keys == s.table.Values + HeldCells(s).Values && s.table.Values !! HeldCells(s).Values
  {
    var held := HeldCells(s);
    forall t | t in held ensures held[t] in s.heap && s.heap[held[t]].owner == HeldBy(t) {
      assert ThreadOk(s, t);
    }
    forall p | p in s.table ensures s.table[p] in s.heap && s.heap[s.table[p]].owner == Linked(p) {
      assert PidOk(s, p);
    }
    forall c | c in s.heap ensures c in s.table.Values + held.Values {
      assert CellOk(s, c);
      match s.heap[c].owner {
        case HeldBy(t) => assert t in held && held[t] == c;
        case Linked(p) => assert p in s.table && s.table[p] == c;
      }
    }
  }

  lemma LinkedAreDistinct(s: State)
    requires forall pid :: PidOk(s, pid)
    ensures Injective(s.table)
  {
    forall p, q | p in s.table && q in s.table && s.table[p] == s.table[q] ensures p == q {
      assert PidOk(s, p) && PidOk(s, q);
    }
  }

  // ---- Linearizability ---------------------------------------------------------------------------------

  /** The table, configuration, names and counter of any reachable state are what the history of atomic
      events, run one after the other, leads to. */
  lemma {:induction false} SharedStateReplays(run: seq<State>, n: nat)
    requires Execution(run) && n < |run|
    ensures Abs(run[n]) == Kernel.Run(Kernel.INITIAL, run[n].events)
  {
    ReachableIsOk(run, n);
    assert InvParts(run[n]);
  }

  /** A call that returned took effect exactly once, between its invocation and its return, with the
      answer of the sequential specification at that point; a call whose allocation failed, that was let
      through, or that has not acted yet, had no effect. */
  lemma {:induction false} CallsAreAtomic(run: seq<State>, n: nat, t: nat)
    requires Execution(run) && n < |run|
    requires t < |run[n].threads|
    ensures var s := run[n];
            var thread := s.threads[t];
            && |s.events| == |s.callers|
            && (thread.pc.Returned? ==>
                  && thread.actedAt.Some?
                  && thread.invokedAt <= thread.actedAt.value < thread.returnedAt <= |s.events|
                  && s.events[thread.actedAt.value] == EventOf(thread.op)
                  && thread.pc.answer == AnswerAt(s.events, thread.actedAt.value))
            && (thread.pc.Failed? ==> thread.actedAt == None && thread.numberedAt == None)
            && (thread.pc.Passed? ==> thread.actedAt == None && thread.numberedAt == None)
            && (forall k :: 0 <= k < |s.events| && s.callers[k].thread == t ==>
                  match s.callers[k].role
                  case Match => thread.matchedAt == Some(k)
                  case Main => thread.actedAt == Some(k)
                  case Number => thread.numberedAt == Some(k))
  {
    var s := run[n];
    ReachableIsOk(run, n);
    assert InvParts(run[n]);
    assert ThreadOk(s, t);
    forall k: nat | k < |s.events| && s.callers[k].thread == t
      ensures match s.callers[k].role
              case Match => s.threads[t].matchedAt == Some(k)
              case Main => s.threads[t].actedAt == Some(k)
              case Number => s.threads[t].numberedAt == Some(k)
    {
      assert EventOk(s, k);
    }
  }

  /** Real-time order: a call that returned before another was made acts before it in the history. */
  lemma {:induction false} RealTimeOrder(run: seq<State>, m: nat, n: nat, t: nat, u: nat)
    requires Execution(run) && m <= n < |run|
    requires t < |run[m].threads| <= u < |run[n].threads|
    requires run[m].threads[t].pc.Returned? && run[n].threads[u].actedAt.Some?
    ensures run[n].threads[t].actedAt.Some? && run[n].threads[t].actedAt.value < run[n].threads[u].actedAt.value
  {
    ReachableIsOk(run, m);
    assert InvParts(run[m]);
    ReachableIsOk(run, n);
    assert InvParts(run[n]);
    ReturnedStays(run, m, n, t);
    ActedInOrder(run[m], run[n], t, u);
  }

  lemma ActedInOrder(s: State, s': State, t: nat, u: nat)
    requires ThreadOk(s, t) && ThreadOk(s', u)
    requires t < |s.threads| <= u < |s'.threads| && s.threads[t].pc.Returned? && s'.threads[u].actedAt.Some?
    requires s'.threads[t] == s.threads[t] && s'.threads[u].invokedAt >= |s.events|
    ensures s'.threads[t].actedAt.Some? && s'.threads[t].actedAt.value < s'.threads[u].actedAt.value
  {
  }

  // ---- Notifications --------------------------------------------------------------------------------------

  ghost predicate Flips(events: seq<Kernel.Event>, k: nat, pid: ULong) {
    && k < |events|
    && !Kernel.IsBlocked(Kernel.Run(Kernel.INITIAL, events[..k]).table, pid)
    && Kernel.IsBlocked(Kernel.Run(Kernel.INITIAL, events[..k + 1]).table, pid)
  }

  ghost predicate SomeFlip(events: seq<Kernel.Event>, k: nat) {
    exists pid :: Flips(events, k, pid)
  }

  /** The positions of the history at which the table shows a PID turn from not blocked to blocked. */
  ghost function Transitions(events: seq<Kernel.Event>): set<nat> {
    set k: nat | k < |events| && SomeFlip(events, k)
  }

  /** Only a recording can block, and only its own PID; it does so exactly when it answers with a notice. */
  lemma {:induction false} OnlyRecordsFlip(events: seq<Kernel.Event>, k: nat)
    requires k < |events|
    ensures k in Transitions(events)
       <==> events[k].Record? && AnswerAt(events, k).notice.Some?
    ensures forall pid :: Flips(events, k, pid) ==> events[k].Record? && events[k].pid == pid
  {
    var s, e := Kernel.Run(Kernel.INITIAL, events[..k]), events[k];
    assert events[..k + 1] == events[..k] + [e];
    Kernel.RunSnoc(Kernel.INITIAL, events[..k], e);
    if e.Record? {
      Kernel.DeniedIffBlocked(s, e.pid, e.image, e.now);
      if AnswerAt(events, k).notice.Some? {
        assert Flips(events, k, e.pid);
      }
    }
  }

  /** The calls that still owe a notification, and those that have called for one. */
  predicate Owes(thread: Thread) {
    thread.pc.Owing? || (thread.pc.Leaving? && thread.pc.answer.Verdict? && thread.pc.answer.notice.Some?)
  }

  predicate Called(thread: Thread) {
    || thread.pc.Numbering? || thread.pc.NumberLocked? || thread.pc.NumberTaken? || thread.pc.Sending?
    || (thread.pc.Returned? && thread.pc.answer.Verdict? && thread.pc.answer.notice.Some?)
  }

  ghost function OwingThreads(s: State): set<nat> {
    set t: nat | t < |s.threads| && Owes(s.threads[t])
  }

  ghost function CallingThreads(s: State): set<nat> {
    set t: nat | t < |s.threads| && Called(s.threads[t])
  }

  ghost function ActPositions(s: State): map<nat, nat> {
    map t | t in OwingThreads(s) + CallingThreads(s) && s.threads[t].actedAt.Some? :: s.threads[t].actedAt.value
  }

  /** Conservation: notification calls made plus those still owed are exactly as many as the
      transitions to blocked, and match them one to one. */
  lemma {:induction false} NotificationsMatchTransitions(run: seq<State>, n: nat)
    requires Execution(run) && n < |run|
    ensures var s := run[n];
            && |s.events| == |s.callers|
            && ActPositions(s).Keys == OwingThreads(s) + CallingThreads(s) && ActPositions(s).Values == Transitions(s.events)
            && Injective(ActPositions(s)) && OwingThreads(s) !! CallingThreads(s)
            && |Transitions(s.events)| == |OwingThreads(s)| + |CallingThreads(s)|
  {
    ReachableIsOk(run, n);
    assert InvParts(run[n]);
    var s := run[n];
    var flips := Transitions(s.events);
    forall t: nat | t < |s.threads| ensures NoticeDue(s, t, flips) {
      assert ThreadOk(s, t);
      if s.threads[t].actedAt.Some? && s.threads[t].actedAt.value < |s.events| {
        OnlyRecordsFlip(s.events, s.threads[t].actedAt.value);
      }
      DueWhenFlipped(s, t);
    }
    forall k | k in flips ensures Performed(s, k) {
      OnlyRecordsFlip(s.events, k);
      assert EventOk(s, k);
    }
    Matching(s, flips);
  }

  lemma Matching(s: State, flips: set<nat>)
    requires |s.events| == |s.callers|
    requires forall t: nat :: t < |s.threads| ==> NoticeDue(s, t, flips)
    requires forall k :: k in flips ==> Performed(s, k)
    ensures ActPositions(s).Keys == OwingThreads(s) + CallingThreads(s) && ActPositions(s).Values == flips
    ensures Injective(ActPositions(s)) && OwingThreads(s) !! CallingThreads(s)
    ensures |flips| == |OwingThreads(s)| + |CallingThreads(s)|
  {
    PositionsCover(s, flips);
    PositionsDiffer(s, flips);
    ValuesSize(ActPositions(s));
    assert |ActPositions(s)| == |ActPositions(s).Keys|;
  }

  lemma PositionsCover(s: State, flips: set<nat>)
    requires |s.events| == |s.callers|
    requires forall t: nat :: t < |s.threads| ==> NoticeDue(s, t, flips)
    requires forall k :: k in flips ==> Performed(s, k)
    ensures ActPositions(s).Keys == OwingThreads(s) + CallingThreads(s) && ActPositions(s).Values == flips
  {
    var positions := ActPositions(s);
    forall t | t in OwingThreads(s) + CallingThreads(s) ensures t in positions && positions[t] in flips {
      assert NoticeDue(s, t, flips);
    }
    forall k | k in flips ensures k in positions.Values {
      var t := s.callers[k].thread;
      assert Performed(s, k) && NoticeDue(s, t, flips);
      assert t in positions && positions[t] == k;
    }
  }

  lemma PositionsDiffer(s: State, flips: set<nat>)
    requires |s.events| == |s.callers|
    requires forall t: nat :: t < |s.threads| ==> NoticeDue(s, t, flips)
    ensures Injective(ActPositions(s))
  {
    var positions := ActPositions(s);
    forall t, u | t in positions && u in positions && positions[t] == positions[u] ensures t == u {
      assert NoticeDue(s, t, flips) && NoticeDue(s, u, flips);
    }
  }

  ghost predicate Performed(s: State, k: nat) {
    && k < |s.events| == |s.callers| && s.callers[k].thread < |s.threads|
    && s.threads[s.callers[k].thread].actedAt == Some(k)
  }

  /** A call owes or has called for a notification exactly when its own event was a transition. */
  ghost predicate NoticeDue(s: State, t: nat, flips: set<nat>)
    requires t < |s.threads| && |s.events| == |s.callers|
  {
    var thread := s.threads[t];
    && (thread.actedAt.Some? ==> thread.actedAt.value < |s.events| && s.callers[thread.actedAt.value] == Caller(t, Main))
    && (Owes(thread) || Called(thread) <==> thread.actedAt.Some? && thread.actedAt.value in flips)
  }

  lemma DueWhenFlipped(s: State, t: nat)
    requires t < |s.threads| && |s.events| == |s.callers| && ThreadOk(s, t)
    requires var at := s.threads[t].actedAt;
             at.Some? && at.value < |s.events| ==>
               (at.value in Transitions(s.events) <==> s.events[at.value].Record? && AnswerAt(s.events, at.value).notice.Some?)
    ensures NoticeDue(s, t, Transitions(s.events))
  {
  }

  /** ...and carries the PID, the time and the count of that transition, whatever became of the context: with
      monitoring on, as many timestamps as the context then held, at least the threshold then in force. The
      name is that of the recording, at position j of the history, that created the context, with no unblock
      since. */
  lemma {:induction false} NoticeIsOfItsOwnTransition(run: seq<State>, n: nat, t: nat, notice: Kernel.Notice) returns (j: nat)
    requires Execution(run) && n < |run|
    requires t < |run[n].threads|
    requires var pc := run[n].threads[t].pc;
             || pc == Pc.Owing(notice) || pc == Numbering(notice) || pc == NumberLocked(notice)
             || (pc.NumberTaken? && pc.notice == notice) || (pc.Sending? && pc.notice == notice)
    ensures var s, thread := run[n], run[n].threads[t];
            && thread.op.FileOp? && thread.actedAt.Some? && thread.actedAt.value < |s.events|
            && var upTo := s.events[..thread.actedAt.value + 1];
            var before := Kernel.Run(Kernel.INITIAL, s.events[..thread.actedAt.value]);
            var after := Kernel.Run(Kernel.INITIAL, upTo);
            && !Kernel.IsBlocked(before.table, thread.op.pid) && Kernel.IsBlocked(after.table, thread.op.pid)
            && notice.pid == thread.op.pid && notice.at == thread.op.now
            && notice.count == |after.table[thread.op.pid].ring|
            && notice.count >= before.config.threshold && before.config.monitoring
            && notice.image == after.table[thread.op.pid].image
            && Kernel.Created(Kernel.INITIAL, upTo, j, thread.op.pid) && Kernel.IsCopyOf(notice.image, upTo[j].image)
  {
    ReachableIsOk(run, n);
    assert InvParts(run[n]);
    assert ThreadOk(run[n], t);
    var op := run[n].threads[t].op;
    j := NoticeOfRecording(run[n].events, run[n].threads[t].actedAt.value, op.pid, op.image, op.now, notice);
  }

  lemma {:induction false} NoticeOfRecording(events: seq<Kernel.Event>, at: nat, pid: ULong, image: Option<string>, now: Ticks,
                                             notice: Kernel.Notice) returns (j: nat)
    requires at < |events| && events[at] == Kernel.Record(pid, image, now)
    requires AnswerAt(events, at) == Kernel.Verdict(true, Some(notice))
    ensures var upTo := events[..at + 1];
            var before, after := Kernel.Run(Kernel.INITIAL, events[..at]), Kernel.Run(Kernel.INITIAL, upTo);
            && !Kernel.IsBlocked(before.table, pid) && Kernel.IsBlocked(after.table, pid)
            && notice == Kernel.Notice(pid, after.table[pid].image, now, |after.table[pid].ring|)
            && notice.count >= before.config.threshold && before.config.monitoring
            && Kernel.Created(Kernel.INITIAL, upTo, j, pid) && Kernel.IsCopyOf(notice.image, upTo[j].image)
  {
    assert events[..at + 1] == events[..at] + [events[at]];
    Kernel.RunSnoc(Kernel.INITIAL, events[..at], events[at]);
    Kernel.RecordingDecides(Kernel.Run(Kernel.INITIAL, events[..at]), pid, image, now);
    j := Kernel.NameHasSource(Kernel.INITIAL, events[..at + 1], pid);
  }

  // ---- Whole-run consequences ----------------------------------------------------------------------------

  /** Whatever the interleaving, a PID is blocked only because, at some point of the history, it had
      threshold-many recorded operations in the window while monitoring was on, and no unblock since. */
  lemma {:induction false} BlockedOnlyWithCause(run: seq<State>, n: nat, pid: ULong) returns (k: nat)
    requires Execution(run) && n < |run|
    requires Kernel.IsBlocked(TableOf(run[n]), pid)
    ensures var events := run[n].events;
            Kernel.Trip(Kernel.INITIAL, events, k, pid) && Kernel.Unblock(pid) !in events[k..]
  {
    SharedStateReplays(run, n);
    k := Kernel.BlockHasCause(Kernel.INITIAL, run[n].events, pid);
  }

  lemma AdmittedAs(s: State, t: nat, thread: Thread)
    requires Admitted(s, t, thread) && thread.actedAt.Some?
    ensures var op := thread.op;
            && op.operation in {Write(false), SetInformation(Rename), SetInformation(RenameEx), SetInformation(Disposition),
                                SetInformation(DispositionEx)}
            && (Named(op) ==>
                  && thread.matchedAt.Some? && thread.matchedAt.value < thread.actedAt.value && thread.matchedAt.value < |s.events|
                  && !Exempt(op.fold, op.image, Kernel.Run(Kernel.INITIAL, s.events[..thread.matchedAt.value]).names))
            && (!Named(op) ==> forall names :: !Exempt(op.fold, op.image, names))
  {
  }

  /** Callback safety: whatever the interleaving, an operation is completed with access denied only if
      - it is a write that is not paging I/O, a rename or a delete, from neither the idle nor the System process;
      - its image was not exempt in the state in which the callback itself searched the pushed names,
        before it recorded the operation, or there was no name to search for;
      - its PID was blocked once it was recorded, because operations of its own had filled a window while
        monitoring was on, with no unblock since. */
  lemma {:induction false} DenialIsJustified(run: seq<State>, n: nat, t: nat) returns (k: nat)
    requires Execution(run) && n < |run|
    requires t < |run[n].threads| && OutcomeOf(run[n].threads[t]) == Some(Complete)
    ensures var events, thread := run[n].events, run[n].threads[t];
            var op := thread.op;
            && op.operation in {Write(false), SetInformation(Rename), SetInformation(RenameEx), SetInformation(Disposition),
                                SetInformation(DispositionEx)}
            && op.pid != 0 && op.pid != 4
            && thread.actedAt.Some? && thread.actedAt.value < |events|
            && (Named(op) ==>
                  && thread.matchedAt.Some? && thread.matchedAt.value < thread.actedAt.value
                  && !Exempt(op.fold, op.image, Kernel.Run(Kernel.INITIAL, events[..thread.matchedAt.value]).names))
            && (!Named(op) ==> forall names :: !Exempt(op.fold, op.image, names))
            && var upTo := events[..thread.actedAt.value + 1];
            && Kernel.IsBlocked(Kernel.Run(Kernel.INITIAL, upTo).table, op.pid)
            && Kernel.Trip(Kernel.INITIAL, upTo, k, op.pid) && Kernel.Unblock(op.pid) !in upTo[k..]
  {
    CallsAreAtomic(run, n, t);
    ReachableAdmits(run, n);
    assert AdmitOk(run[n], t);
    AdmittedAs(run[n], t, run[n].threads[t]);
    var at, op := run[n].threads[t].actedAt.value, run[n].threads[t].op;
    k := CauseOfDenial(run[n].events, at, op.pid, op.image, op.now);
  }

  lemma PassedBecause(s: State, t: nat, thread: Thread)
    requires LetThrough(s, t, thread) && thread.op.FileOp?
    ensures || thread.op.operation == Write(true) || thread.op.operation == SetInformation(OtherClass)
            || thread.op.pid == 0 || thread.op.pid == 4
            || (forall names :: Exempt(thread.op.fold, thread.op.image, names))
            || (&& thread.matchedAt.Some? && thread.matchedAt.value < |s.events|
                && Exempt(thread.op.fold, thread.op.image,
                          Kernel.Run(Kernel.INITIAL, s.events[..thread.matchedAt.value]).names))
  {
  }

  /** A callback that let its operation through unrecorded denies nothing and has no recording in the
      history: either it looked no further, the operation, the PID or a built-in name being exempt, or
      its own search found the name in the list of that moment, or the pool had no memory. */
  lemma {:induction false} LetThroughUnrecorded(run: seq<State>, n: nat, t: nat)
    requires Execution(run) && n < |run|
    requires t < |run[n].threads| && (run[n].threads[t].pc.Passed? || run[n].threads[t].pc.Failed?)
    ensures var s, thread := run[n], run[n].threads[t];
            && OutcomeOf(thread) == Some(SuccessNoCallback) && |s.events| == |s.callers|
            && (forall k :: 0 <= k < |s.events| && s.callers[k].thread == t ==> s.events[k].MatchName?)
            && (thread.pc.Passed? ==>
                  || thread.op.operation == Write(true) || thread.op.operation == SetInformation(OtherClass)
                  || thread.op.pid == 0 || thread.op.pid == 4
                  || (forall names :: Exempt(thread.op.fold, thread.op.image, names))
                  || (&& thread.matchedAt.Some? && thread.matchedAt.value < |s.events|
                      && Exempt(thread.op.fold, thread.op.image,
                                Kernel.Run(Kernel.INITIAL, s.events[..thread.matchedAt.value]).names)))
  {
    var s := run[n];
    ReachableIsOk(run, n);
    assert InvParts(s);
    ReachableAdmits(run, n);
    assert AdmitOk(s, t) && ThreadOk(s, t);
    if s.threads[t].pc.Passed? {
      PassedBecause(s, t, s.threads[t]);
    }
    forall k: nat | k < |s.events| && s.callers[k].thread == t ensures s.events[k].MatchName? {
      assert EventOk(s, k);
    }
  }

  /** A callback that returned from its recording has its PID tracked there, and completes its operation with
      access denied exactly if the PID is blocked there; else a write goes on without, and a rename or a
      delete with, a post-operation callback. */
  lemma {:induction false} DeniedIffBlockedThere(run: seq<State>, n: nat, t: nat)
    requires Execution(run) && n < |run|
    requires t < |run[n].threads| && run[n].threads[t].op.FileOp? && run[n].threads[t].pc.Returned?
    ensures var events, thread := run[n].events, run[n].threads[t];
            var op := thread.op;
            && op.operation in {Write(false), SetInformation(Rename), SetInformation(RenameEx), SetInformation(Disposition),
                                SetInformation(DispositionEx)}
            && op.pid != 0 && op.pid != 4
            && thread.actedAt.Some? && thread.actedAt.value < |events|
            && events[thread.actedAt.value] == Kernel.Record(op.pid, op.image, op.now)
            && var after := Kernel.Run(Kernel.INITIAL, events[..thread.actedAt.value + 1]);
            && op.pid in after.table
            && OutcomeOf(thread) == Some(if after.table[op.pid].blocked then Complete
                                         else if op.operation == Write(false) then SuccessNoCallback else SuccessWithCallback)
  {
    CallsAreAtomic(run, n, t);
    ReachableAdmits(run, n);
    assert AdmitOk(run[n], t);
    var events, at := run[n].events, run[n].threads[t].actedAt.value;
    var op := run[n].threads[t].op;
    assert events[..at + 1] == events[..at] + [events[at]];
    Kernel.RunSnoc(Kernel.INITIAL, events[..at], events[at]);
    Kernel.RecordingDecides(Kernel.Run(Kernel.INITIAL, events[..at]), op.pid, op.image, op.now);
  }

  lemma CauseOfDenial(events: seq<Kernel.Event>, at: nat, pid: ULong, image: Option<string>, now: Ticks) returns (k: nat)
    requires at < |events| && events[at] == Kernel.Record(pid, image, now) && AnswerAt(events, at).block
    ensures var upTo := events[..at + 1];
            && Kernel.IsBlocked(Kernel.Run(Kernel.INITIAL, upTo).table, pid)
            && Kernel.Trip(Kernel.INITIAL, upTo, k, pid) && Kernel.Unblock(pid) !in upTo[k..]
  {
    assert events[..at + 1] == events[..at] + [events[at]];
    Kernel.RunSnoc(Kernel.INITIAL, events[..at], events[at]);
    Kernel.DeniedIffBlocked(Kernel.Run(Kernel.INITIAL, events[..at]), pid, image, now);
    k := Kernel.BlockHasCause(Kernel.INITIAL, events[..at + 1], pid);
  }

  // ---- Numbers ---------------------------------------------------------------------------------------------

  function NumberIn(answer: Kernel.Answer): Option<ULong> {
    match answer
    case Numbered(n) => Some(n)
    case ConfigRead(n, _) => Some(n)
    case NamesRead(n, _) => Some(n)
    case _ => None
  }

  /** The sequence number a thread was handed, for its reply or for its notification. */
  function NumberOf(thread: Thread): Option<ULong> {
    match thread.pc
    case NumberTaken(number, _) => Some(number)
    case Sending(number, _) => Some(number)
    case Leaving(answer) => NumberIn(answer)
    case Returned(answer, sent) => if sent.Some? then sent else NumberIn(answer)
    case _ => None
  }

  /** Where in the history it was handed that number. */
  function NumberPosition(thread: Thread): nat {
    if thread.numberedAt.Some? then thread.numberedAt.value
    else if thread.actedAt.Some? then thread.actedAt.value else 0
  }

  lemma NumberAnswers(events: seq<Kernel.Event>, k: nat)
    requires k < |events|
    ensures CommPort.TakesNumber(events[k]) <==> NumberIn(AnswerAt(events, k)).Some?
    ensures CommPort.TakesNumber(events[k])
        ==> NumberIn(AnswerAt(events, k)) == Some(Kernel.Run(Kernel.INITIAL, events[..k]).sequence)
  {
  }

  /** The number that a thread holds is the answer at its own position of the history. */
  lemma {:induction false} NumberIsFromHistory(run: seq<State>, n: nat, t: nat)
    requires Execution(run) && n < |run| && t < |run[n].threads| && NumberOf(run[n].threads[t]).Some?
    ensures var s, thread := run[n], run[n].threads[t];
            var k := NumberPosition(thread);
            && k < |s.events| == |s.callers| && s.callers[k].thread == t
            && (thread.actedAt == Some(k) || thread.numberedAt == Some(k))
            && CommPort.TakesNumber(s.events[k]) && NumberOf(thread) == NumberIn(AnswerAt(s.events, k))
  {
    ReachableIsOk(run, n);
    assert InvParts(run[n]);
    assert ThreadOk(run[n], t);
    NumberAnswers(run[n].events, NumberPosition(run[n].threads[t]));
  }

  /** Sequence numbers that interleaved threads were handed, for replies and for notifications, are
      distinct unless 2^32 or more were issued from the one to the other. */
  lemma {:induction false} IssuedNumbersAreDistinct(run: seq<State>, n: nat, t: nat, u: nat)
    requires Execution(run) && n < |run|
    requires t < |run[n].threads| && u < |run[n].threads| && t != u
    requires NumberOf(run[n].threads[t]).Some? && NumberOf(run[n].threads[u]).Some?
    ensures var events := run[n].events;
            var i, j := NumberPosition(run[n].threads[t]), NumberPosition(run[n].threads[u]);
            && i < |events| && j < |events|
            && (-ULONG_RANGE < CommPort.Issued(events[..j]) - CommPort.Issued(events[..i]) < ULONG_RANGE
                ==> NumberOf(run[n].threads[t]) != NumberOf(run[n].threads[u]))
  {
    var i, j := NumberPosition(run[n].threads[t]), NumberPosition(run[n].threads[u]);
    NumberIsFromHistory(run, n, t);
    NumberIsFromHistory(run, n, u);
    NumberAnswers(run[n].events, i);
    NumberAnswers(run[n].events, j);
    var events := run[n].events;
    if -ULONG_RANGE < CommPort.Issued(events[..j]) - CommPort.Issued(events[..i]) < ULONG_RANGE {
      if i < j {
        CommPort.NumbersAreDistinct(Kernel.INITIAL, events, i, j);
      } else {
        CommPort.NumbersAreDistinct(Kernel.INITIAL, events, j, i);
      }
    }
  }
}
