/** What holds in every reachable state of the thread model: the lock is held by the thread that is
    in a critical region, every allocated context has one owner, no thread ever touches a context
    that is gone, and the shared state is what the history of atomic events says it is. */
module ThreadInvariant {
  import opened Base
  import opened Names
  import opened Operations
  import opened Threads
  import Kernel

  // ---- The invariant ---------------------------------------------------------------------------

  /** The answer the sequential specification gives to the k-th event of a history. */
  function AnswerAt(events: seq<Kernel.Event>, k: nat): Kernel.Answer
    requires k < |events|
  {
    Kernel.AnswerTo(Kernel.Run(Kernel.INITIAL, events[..k]), events[k])
  }

  /** The call of thread `t` took effect, once, after it was made, and got the answer that the
      specification gives at that point of the history. */
  ghost predicate Acted(s: State, t: nat, thread: Thread, answer: Kernel.Answer) {
    && thread.actedAt.Some?
    && var k := thread.actedAt.value;
    && thread.invokedAt <= k < |s.events| == |s.callers|
    && s.events[k] == EventOf(thread.op) && s.callers[k] == Caller(t, Main)
    && answer == AnswerAt(s.events, k)
  }

  ghost predicate Notified(s: State, t: nat, thread: Thread, notice: Kernel.Notice) {
    thread.op.FileOp? && Acted(s, t, thread, Kernel.Verdict(true, Some(notice)))
  }

  ghost predicate Numbered(s: State, t: nat, thread: Thread, number: ULong) {
    && thread.numberedAt.Some?
    && var k := thread.numberedAt.value;
    && k < |s.events| == |s.callers|
    && s.events[k] == Kernel.TakeNumber && s.callers[k] == Caller(t, Number)
    && AnswerAt(s.events, k) == Kernel.Numbered(number)
  }

  predicate NotYet(thread: Thread) {
    thread.actedAt == None && thread.numberedAt == None
  }

  /** A callback that goes on to search the pushed names. */
  predicate Sought(op: Op) {
    && op.FileOp? && Monitored(op.operation) && op.pid != 0 && op.pid != 4
    && op.image.Some? && op.image.value != [] && !Listed(op.fold, FileName(op.image.value), BUILT_IN)
  }

  ghost predicate Holds(s: State, t: nat, thread: Thread, cell: nat) {
    && NotYet(thread) && thread.op.FileOp? && cell in s.heap
    && s.heap[cell] == Cell(Kernel.FreshContext(thread.op.image), HeldBy(t))
  }

  ghost predicate PcOk(s: State, t: nat, thread: Thread) {
    match thread.pc
    case Entered => NotYet(thread) && thread.op.FileOp? && thread.matchedAt == None
    case Matching => NotYet(thread) && Sought(thread.op) && thread.matchedAt == None
    case MatchLocked => NotYet(thread) && Sought(thread.op) && thread.matchedAt == None
    case NameMatched(_) => NotYet(thread) && Sought(thread.op)
    case Passed => NotYet(thread) && thread.op.FileOp?
    case Start => NotYet(thread)
    case First => NotYet(thread)
    case Missed => NotYet(thread) && thread.op.FileOp?
    case Allocating => NotYet(thread) && thread.op.FileOp?
    case Failed => NotYet(thread) && thread.op.FileOp?
    case Using(cell) =>
      && NotYet(thread) && thread.op.FileOp?
      && thread.op.pid in s.table && s.table[thread.op.pid] == cell
      && cell in s.heap && !s.heap[cell].context.blocked
    case Doomed(cell) =>
      && NotYet(thread) && thread.op.RegionOp? && thread.op.event.Unblock?
      && thread.op.event.pid in s.table && s.table[thread.op.event.pid] == cell
    case Fresh(cell) => Holds(s, t, thread, cell)
    case Second(cell) => Holds(s, t, thread, cell)
    case Leaving(answer) =>
      && Acted(s, t, thread, answer) && thread.numberedAt == None
      && (answer.Verdict? && answer.notice.Some? ==> thread.op.FileOp? && answer.block)
    case Owing(notice) => Notified(s, t, thread, notice) && thread.numberedAt == None
    case Numbering(notice) => Notified(s, t, thread, notice) && thread.numberedAt == None
    case NumberLocked(notice) => Notified(s, t, thread, notice) && thread.numberedAt == None
    case NumberTaken(number, notice) => Notified(s, t, thread, notice) && Numbered(s, t, thread, number)
    case Sending(number, notice) => Notified(s, t, thread, notice) && Numbered(s, t, thread, number)
    case Returned(answer, sent) =>
      && Acted(s, t, thread, answer) && thread.actedAt.value < thread.returnedAt <= |s.events|
      && if sent == None then thread.numberedAt == None else Numbered(s, t, thread, sent.value)
  }

  ghost predicate ThreadOk(s: State, t: nat) {
    t < |s.threads| ==>
      && WellFormed(s.threads[t].op) && s.threads[t].invokedAt <= |s.events|
      && (Critical(s.threads[t].pc) <==> s.lock == Some(t))
      && (s.threads[t].op.FileOp? && !Early(s.threads[t].pc) ==> s.threads[t].op.pid != 0 && s.threads[t].op.pid != 4)
      && PcOk(s, t, s.threads[t])
  }

  /** Every cell ever allocated is live or freed; a live one is linked under its PID, or held by a
      thread between its allocation and its second lookup. */
  ghost predicate CellOk(s: State, c: nat) {
    && (c in s.heap <==> c < s.nextCell && c !in s.freed)
    && (c in s.freed ==> c < s.nextCell)
    && (c in s.heap ==>
          match s.heap[c].owner
          case Linked(pid) => pid in s.table && s.table[pid] == c
          case HeldBy(t) => t < |s.threads| && (s.threads[t].pc == Fresh(c) || s.threads[t].pc == Second(c)))
  }

  ghost predicate PidOk(s: State, pid: ULong) {
    pid in s.table ==> s.table[pid] in s.heap && s.heap[s.table[pid]].owner == Linked(pid)
  }

  /** Every event of the history is the one effect, or the one number, of the call that made it. */
  ghost predicate EventOk(s: State, k: nat) {
    k < |s.events| == |s.callers| ==>
      && s.callers[k].thread < |s.threads|
      && var thread := s.threads[s.callers[k].thread];
      && match s.callers[k].role
         case Match => thread.matchedAt == Some(k) && s.events[k].MatchName?
         case Main => thread.actedAt == Some(k) && s.events[k] == EventOf(thread.op)
         case Number => thread.numberedAt == Some(k) && s.events[k] == Kernel.TakeNumber
  }

  ghost predicate SharedOk(s: State) {
    && !s.faulted
    && |s.events| == |s.callers|
    && (s.lock.Some? ==> s.lock.value < |s.threads|)
    && 0 !in s.table && 4 !in s.table
    && s.tracked == |s.table|
  }

  /** The shared state is what the history, run sequentially, leads to. */
  ghost predicate Replays(s: State) {
    Kernel.Run(Kernel.INITIAL, s.events) == Abs(s)
  }

  ghost predicate InvParts(s: State) {
    && SharedOk(s) && Replays(s)
    && (forall t: nat :: ThreadOk(s, t))
    && (forall c: nat :: CellOk(s, c))
    && (forall pid :: PidOk(s, pid))
    && (forall k: nat :: EventOk(s, k))
  }

  /** Quantified so that a lemma need not unfold what it only passes on. */
  ghost predicate Inv(s: State) {
    forall x {:trigger InvParts(x)} | x in {s} :: InvParts(x)
  }

  // ---- What a step of one thread leaves alone ------------------------------------------------------

  /** `t` moved: no other thread did, the history only grew, held cells of others are untouched, and
      if another thread holds the lock then everything linked is untouched too. */
  ghost predicate OnlyMoved(s: State, s': State, t: nat) {
    && t < |s.threads| == |s'.threads|
    && (forall u :: 0 <= u < |s.threads| && u != t ==> s'.threads[u] == s.threads[u])
    && s.events <= s'.events && s.callers <= s'.callers
    && (forall c :: c in s.heap && s.heap[c].owner != HeldBy(t) && (s.heap[c].owner.HeldBy? || s.lock != Some(t))
                    ==> c in s'.heap && s'.heap[c] == s.heap[c])
    && (s.lock != Some(t) ==> s'.table == s.table)
    && (s'.lock == s.lock || s.lock == Some(t) || (s.lock == None && s'.lock == Some(t)))
    && (s'.lock.Some? && s.lock == Some(t) ==> s'.lock == Some(t))
  }

  lemma AnswerKept(events: seq<Kernel.Event>, events': seq<Kernel.Event>, k: nat)
    requires k < |events| && events <= events'
    ensures AnswerAt(events', k) == AnswerAt(events, k)
  {
    assert events'[..k] == events[..k];
  }

  lemma OtherKept(s: State, s': State, t: nat, u: nat)
    requires Inv(s) && SharedOk(s') && OnlyMoved(s, s', t) && u != t
    ensures ThreadOk(s', u)
  {
    assert InvParts(s);
    if u < |s.threads| {
      assert ThreadOk(s, u);
      if s.threads[u].pc.Using? {
        assert PidOk(s, s.threads[u].op.pid);
      }
      OtherPcKept(s, s', t, u);
    }
  }

  lemma OtherPcKept(s: State, s': State, t: nat, u: nat)
    requires |s'.events| == |s'.callers| && OnlyMoved(s, s', t) && u != t && u < |s.threads| && ThreadOk(s, u)
    requires s.threads[u].pc.Using? ==> PidOk(s, s.threads[u].op.pid)
    ensures PcOk(s', u, s.threads[u])
  {
    ActedKept(s, s', u, s.threads[u]);
  }

  lemma ActedKept(s: State, s': State, u: nat, thread: Thread)
    requires |s'.events| == |s'.callers| && s.events <= s'.events && s.callers <= s'.callers
    ensures forall answer :: Acted(s, u, thread, answer) ==> Acted(s', u, thread, answer)
    ensures forall number :: Numbered(s, u, thread, number) ==> Numbered(s', u, thread, number)
  {
    if thread.actedAt.Some? && thread.actedAt.value < |s.events| {
      AnswerKept(s.events, s'.events, thread.actedAt.value);
    }
    if thread.numberedAt.Some? && thread.numberedAt.value < |s.events| {
      AnswerKept(s.events, s'.events, thread.numberedAt.value);
    }
  }

  /** To show the invariant after a step it is enough to look at what the step changed. */
  lemma Preserved(s: State, s': State, t: nat)
    requires Inv(s) && OnlyMoved(s, s', t)
    requires SharedOk(s') && Replays(s') && ThreadOk(s', t)
    requires forall c: nat :: CellOk(s', c)
    requires forall pid :: PidOk(s', pid)
    requires forall k: nat :: EventOk(s', k)
    ensures Inv(s')
  {
    assert InvParts(s);
    forall u: nat ensures ThreadOk(s', u) {
      if u != t {
        OtherKept(s, s', t, u);
      }
    }
  }
}
