/** Many threads inside the driver at once. Each call is a small program over the shared lock, hash
    table and pool; any thread may take its next step at any time. A pre-operation callback checks the
    operation, the PID and the built-in names, matches the pushed names under the lock, and then is in
    RsRecordOperation: acquire, look up, record or release, allocate, acquire again, look up again,
    insert or free, record, release, notify. */
module Threads {
  import opened Base
  import opened Names
  import opened Operations
  import Kernel

  // ---- State ---------------------------------------------------------------------------------

  /** A call: a callback for a file operation, or a pass through one other region under the lock. For a
      callback, `now` is the time that RsRecordOperation reads and `fold` the case table of the kernel. */
  datatype Op =
    | FileOp(operation: Operation, pid: ULong, image: Option<string>, now: Ticks, fold: Fold)
    | RegionOp(event: Kernel.Event)

  /** Where a call stands. */
  datatype Pc =
    | Entered                                           // in the callback, nothing checked yet
    | Matching                                          // operation, PID and built-in names checked
    | MatchLocked                                       // lock held, before the search of the pushed names
    | NameMatched(found: bool)                          // lock held, before the release
    | Passed                                            // let through without being recorded
    | Start                                             // time read, lock not yet taken
    | First                                             // lock held, before the lookup
    | Using(cell: nat)                                  // lock held, pointer to an unblocked context in hand
    | Doomed(cell: nat)                                 // lock held, pointer to the context to remove in hand
    | Missed                                            // lock held, no context found
    | Allocating                                        // lock released, before the pool is asked
    | Fresh(cell: nat)                                  // a context allocated, lock not yet taken again
    | Second(cell: nat)                                 // lock held again, before the second lookup
    | Leaving(answer: Kernel.Answer)                    // lock held, work done, before the release
    | Owing(notice: Kernel.Notice)                      // lock released, notification not yet called for
    | Numbering(notice: Kernel.Notice)                  // client present, waiting for the lock
    | NumberLocked(notice: Kernel.Notice)               // lock held, before taking a number
    | NumberTaken(number: ULong, notice: Kernel.Notice) // lock held, before the release
    | Sending(number: ULong, notice: Kernel.Notice)     // lock released, before FltSendMessage
    | Returned(answer: Kernel.Answer, sent: Option<ULong>) // with the number of the notification sent
    | Failed                                            // the pool had no memory

  /** `invokedAt` and `returnedAt` are lengths of the history; `matchedAt`, `actedAt` and `numberedAt`
      positions in it. */
  datatype Thread = Thread(op: Op, pc: Pc, invokedAt: nat, matchedAt: Option<nat>, actedAt: Option<nat>,
                           numberedAt: Option<nat>, returnedAt: nat)

  datatype Owner = Linked(pid: ULong) | HeldBy(thread: nat)

  /** An allocated context and who is responsible for it. */
  datatype Cell = Cell(context: Kernel.Context, owner: Owner)

  /** Whose step an event of the history was: its match of the names, its effect, or its number. */
  datatype Role = Match | Main | Number

  datatype Caller = Caller(thread: nat, role: Role)

  datatype State = State(
    lock: Option<nat>,
    config: Kernel.Config, names: seq<string>, sequence: ULong, connected: bool,
    table: map<ULong, nat>, tracked: ULong,
    heap: map<nat, Cell>, freed: set<nat>, nextCell: nat,
    threads: seq<Thread>,
    events: seq<Kernel.Event>, callers: seq<Caller>,
    faulted: bool)

  const INITIAL := State(None, Kernel.INITIAL.config, [], 0, false, map[], 0, map[], {}, 0, [], [], [], false)

  datatype Action = Call(op: Op) | Connect(on: bool) | Step(thread: nat, poolHasMemory: bool)

  predicate Critical(pc: Pc) {
    || pc.MatchLocked? || pc.NameMatched? || pc.First? || pc.Using? || pc.Doomed? || pc.Missed? || pc.Second?
    || pc.Leaving? || pc.NumberLocked? || pc.NumberTaken?
  }

  /** The callback has not got to RsRecordOperation, and may never. */
  predicate Early(pc: Pc) {
    pc.Entered? || pc.Matching? || pc.MatchLocked? || pc.NameMatched? || pc.Passed?
  }

  /** What a callback that is over tells the filter manager: an operation that was not recorded, or could
      not be for lack of memory, goes on, and a recorded one is completed with STATUS_ACCESS_DENIED if
      the recorder said to block. */
  function OutcomeOf(thread: Thread): Option<Outcome> {
    if !thread.op.FileOp? then None
    else
      match thread.pc
      case Passed => Some(SuccessNoCallback)
      case Failed => Some(SuccessNoCallback)
      case Returned(answer, _) =>
        Some(if answer.Verdict? && answer.block then Complete else Allowed(thread.op.operation, true))
      case _ => None
  }

  function EventOf(op: Op): Kernel.Event {
    match op
    case FileOp(_, pid, image, now, _) => Kernel.Record(pid, image, now)
    case RegionOp(event) => event
  }

  predicate WellFormed(op: Op) {
    match op
    case FileOp(_, _, _, _, _) => true
    case RegionOp(event) => !event.Record?
  }

  /** The map the table and the heap stand for. */
  function TableOf(s: State): Kernel.Table {
    map p | p in s.table && s.table[p] in s.heap :: s.heap[s.table[p]].context
  }

  function Abs(s: State): Kernel.State {
    Kernel.State(s.config, TableOf(s), s.names, s.sequence)
  }

  // ---- Steps -----------------------------------------------------------------------------------

  function Fault(s: State): State {
    s.(faulted := true)
  }

  function Goto(s: State, t: nat, pc: Pc): State
    requires t < |s.threads|
  {
    s.(threads := s.threads[t := s.threads[t].(pc := pc)])
  }

  /** KeAcquireSpinLock: spin while another thread holds it; a holder that asks again is stuck. */
  function Acquire(s: State, t: nat, pc: Pc): State
    requires t < |s.threads|
  {
    if s.lock == None then Goto(s.(lock := Some(t)), t, pc)
    else if s.lock == Some(t) then Fault(s)
    else s
  }

  function Release(s: State, t: nat, pc: Pc): State
    requires t < |s.threads|
  {
    if s.lock != Some(t) then Fault(s) else Goto(s.(lock := None), t, pc)
  }

  /** The step at which a call takes effect: it enters the history. */
  function Act(s: State, t: nat, answer: Kernel.Answer): State
    requires t < |s.threads|
  {
    var thread := s.threads[t].(pc := Leaving(answer), actedAt := Some(|s.events|));
    s.(threads := s.threads[t := thread],
       events := s.events + [EventOf(s.threads[t].op)],
       callers := s.callers + [Caller(t, Main)])
  }

  function Free(s: State, cell: nat): State {
    if cell !in s.heap then Fault(s) else s.(heap := s.heap - {cell}, freed := s.freed + {cell})
  }

  /** With a pointer to a tracked context: deny if it is blocked, else go on to record into it. */
  function Found(s: State, t: nat, cell: nat): State
    requires t < |s.threads|
  {
    if cell !in s.heap then Fault(s)
    else if s.heap[cell].context.blocked then Act(s, t, Kernel.Verdict(true, None))
    else Goto(s, t, Using(cell))
  }

  function RecordInto(s: State, t: nat, cell: nat, pid: ULong, now: Ticks): State
    requires t < |s.threads|
  {
    if cell !in s.heap then Fault(s)
    else
      var context := s.heap[cell].context;
      var notice := Kernel.NoticeOf(pid, context, s.config, now);
      Act(s.(heap := s.heap[cell := s.heap[cell].(context := Kernel.Absorb(context, s.config, now))]), t,
          Kernel.Verdict(notice.Some?, notice))
  }

  function Insert(s: State, cell: nat, pid: ULong): State {
    if cell !in s.heap then Fault(s)
    else s.(table := s.table[pid := cell], tracked := (s.tracked + 1) % ULONG_RANGE,
            heap := s.heap[cell := s.heap[cell].(owner := Linked(pid))])
  }

  function Unlink(s: State, pid: ULong): State {
    s.(table := s.table - {pid}, tracked := (s.tracked + ULONG_RANGE - 1) % ULONG_RANGE)
  }

  /** The table leads to a context that is gone: a walk over it is then a fault. */
  predicate Dangling(s: State) {
    exists p :: p in s.table && s.table[p] !in s.heap
  }

  /** A region that changes no context. */
  function Region(s: State, t: nat, e: Kernel.Event): State
    requires t < |s.threads|
  {
    if (e.CountPids? || e.ListBlocked?) && Dangling(s) then Fault(s)
    else RegionAct(s, t, e)
  }

  function RegionAct(s: State, t: nat, e: Kernel.Event): State
    requires t < |s.threads|
  {
    var after := Kernel.After(Kernel.State(s.config, map[], s.names, s.sequence), e);
    var answer := if e.CountPids? then Kernel.Counted(s.tracked, |Kernel.BlockedPids(TableOf(s))|)
                  else if e.ListBlocked? then Kernel.Snapshot(Kernel.BlockedPart(TableOf(s)))
                  else Kernel.AnswerTo(Kernel.State(s.config, map[], s.names, s.sequence), e);
    Act(s.(config := after.config, names := after.names, sequence := after.sequence), t, answer)
  }

  function FirstLookup(s: State, t: nat): State
    requires t < |s.threads|
  {
    match s.threads[t].op
    case FileOp(_, pid, _, _, _) => if pid in s.table then Found(s, t, s.table[pid]) else Goto(s, t, Missed)
    case RegionOp(e) =>
      if !e.Unblock? then Region(s, t, e)
      else if e.pid in s.table then Goto(s, t, Doomed(s.table[e.pid]))
      else Act(s, t, Kernel.Acknowledged)
  }

  /** Another thread may have been faster; then the fresh context is freed, else it is inserted and
      recorded into, the lock being held throughout. */
  function SecondLookup(s: State, t: nat, cell: nat): State
    requires t < |s.threads| && s.threads[t].op.FileOp?
  {
    var FileOp(_, pid, image, now, _) := s.threads[t].op;
    if pid in s.table then Found(Free(s, cell), t, s.table[pid])
    else RecordInto(Insert(s, cell, pid), t, cell, pid, now)
  }

  /** What a callback checks without the lock. */
  function Enter(s: State, t: nat): State
    requires t < |s.threads| && s.threads[t].op.FileOp?
  {
    var FileOp(operation, pid, image, _, fold) := s.threads[t].op;
    if !Monitored(operation) || pid == 0 || pid == 4 then Return(Goto(s, t, Passed), t)
    else if image == None || image.value == [] then Goto(s, t, Start)
    else if Listed(fold, FileName(image.value), BUILT_IN) then Return(Goto(s, t, Passed), t)
    else Goto(s, t, Matching)
  }

  /** The search of the pushed names: it enters the history, too. */
  function MatchNames(s: State, t: nat, fold: Fold, file: string): State
    requires t < |s.threads|
  {
    var thread := s.threads[t].(pc := NameMatched(Listed(fold, file, s.names)), matchedAt := Some(|s.events|));
    s.(threads := s.threads[t := thread],
       events := s.events + [Kernel.MatchName(fold, file)],
       callers := s.callers + [Caller(t, Match)])
  }

  function Move(s: State, t: nat, poolHasMemory: bool): State
    requires t < |s.threads|
  {
    var thread := s.threads[t];
    match thread.pc
    case Entered => if thread.op.FileOp? then Enter(s, t) else Fault(s)
    case Matching => Acquire(s, t, MatchLocked)
    case MatchLocked =>
      if thread.op.FileOp? && thread.op.image.Some?
      then MatchNames(s, t, thread.op.fold, FileName(thread.op.image.value)) else Fault(s)
    case NameMatched(found) => if found then Return(Release(s, t, Passed), t) else Release(s, t, Start)
    case Passed => s
    case Start => Acquire(s, t, First)
    case First => FirstLookup(s, t)
    case Using(cell) => if thread.op.FileOp? then RecordInto(s, t, cell, thread.op.pid, thread.op.now) else Fault(s)
    case Doomed(cell) =>
      if thread.op.RegionOp? && thread.op.event.Unblock?
      then Act(Free(Unlink(s, thread.op.event.pid), cell), t, Kernel.Acknowledged) else Fault(s)
    case Missed => Release(s, t, Allocating)
    case Allocating =>
      if s.lock == Some(t) || !thread.op.FileOp? then Fault(s)
      else if poolHasMemory then
        Goto(s.(heap := s.heap[s.nextCell := Cell(Kernel.FreshContext(thread.op.image), HeldBy(t))],
                nextCell := s.nextCell + 1), t, Fresh(s.nextCell))
      else Goto(s, t, Failed)
    case Fresh(cell) => Acquire(s, t, Second(cell))
    case Second(cell) => if thread.op.FileOp? then SecondLookup(s, t, cell) else Fault(s)
    case Leaving(answer) =>
      if answer.Verdict? && answer.notice.Some? then Release(s, t, Owing(answer.notice.value))
      else Return(Release(s, t, Returned(answer, None)), t)
    case Owing(notice) =>
      if s.connected then Goto(s, t, Numbering(notice))
      else Return(Goto(s, t, Returned(Kernel.Verdict(true, Some(notice)), None)), t)
    case Numbering(notice) => Acquire(s, t, NumberLocked(notice))
    case NumberLocked(notice) => TakeNumber(s, t, notice)
    case NumberTaken(number, notice) => Release(s, t, Sending(number, notice))
    case Sending(number, notice) =>
      if s.lock == Some(t) then Fault(s)
      else Return(Goto(s, t, Returned(Kernel.Verdict(true, Some(notice)), Some(number))), t)
    case Returned(_, _) => s
    case Failed => s
  }

  function Return(s: State, t: nat): State
    requires t < |s.threads|
  {
    s.(threads := s.threads[t := s.threads[t].(returnedAt := |s.events|)])
  }

  function TakeNumber(s: State, t: nat, notice: Kernel.Notice): State
    requires t < |s.threads|
  {
    var thread := s.threads[t].(pc := NumberTaken(s.sequence, notice), numberedAt := Some(|s.events|));
    s.(sequence := Kernel.NextNumber(s.sequence),
       threads := s.threads[t := thread],
       events := s.events + [Kernel.TakeNumber],
       callers := s.callers + [Caller(t, Number)])
  }

  function Next(s: State, a: Action): State {
    match a
    case Call(op) =>
      if WellFormed(op)
      then s.(threads := s.threads + [Thread(op, if op.FileOp? then Entered else Start, |s.events|, None, None, None, 0)])
      else s
    case Connect(on) => s.(connected := on)
    case Step(t, poolHasMemory) => if t < |s.threads| then Move(s, t, poolHasMemory) else s
  }

  /** A run of the system, state by state: any interleaving of calls, steps, connects and disconnects. */
  ghost predicate Execution(run: seq<State>) {
    run != [] && run[0] == INITIAL && forall n: nat :: Follows(run, n)
  }

  ghost predicate Follows(run: seq<State>, n: nat) {
    n + 1 < |run| ==> exists a :: run[n + 1] == Next(run[n], a)
  }
}
