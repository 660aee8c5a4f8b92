/** The driver's globals (kernel/RsContext.c, kernel/RsCommPort.c) and the routines that use them.
    Each routine takes g_ContextLock for the region it needs and gives it back on every path. */
module Drivers {
  import opened Base
  import opened LinkedList
  import opened ProcessContexts
  import opened Trackers
  import opened Allowlist
  import opened Names
  import Kernel

  datatype Status = Success | InsufficientResources

  /** RS_NOTIFICATION_BLOCKED_PID as handed to FltSendMessage. */
  datatype Notification = Notification(number: ULong, notice: Kernel.Notice)

  /** The state after a recording and, if it blocked the PID and a client is connected, after the
      notification has taken its number. */
  function Recorded(s: Kernel.State, connected: bool, pid: ULong, image: Option<string>, now: Ticks): Kernel.State {
    var e := Kernel.Record(pid, image, now);
    if Kernel.AnswerTo(s, e).notice.Some? && connected
    then Kernel.After(Kernel.After(s, e), Kernel.TakeNumber) else Kernel.After(s, e)
  }

  /** ...field by field. */
  lemma RecordedFields(s: Kernel.State, connected: bool, pid: ULong, image: Option<string>, now: Ticks)
    ensures var t, answer := Recorded(s, connected, pid, image, now), Kernel.AnswerTo(s, Kernel.Record(pid, image, now));
            && t.config == s.config && t.names == s.names
            && pid in t.table && t.table - {pid} == s.table - {pid}
            && (if pid in s.table then t.table[pid].image == s.table[pid].image else Kernel.IsCopyOf(t.table[pid].image, image))
            && answer.block == t.table[pid].blocked
            && var sends := connected && t.table[pid].blocked && !Kernel.IsBlocked(s.table, pid);
            && (answer.notice.Some? && connected <==> sends)
            && (sends ==> answer.notice == Some(Kernel.Notice(pid, t.table[pid].image, now, |t.table[pid].ring|)))
            && t.sequence == if sends then (s.sequence + 1) % 0x1_0000_0000 else s.sequence
  {
    Kernel.RecordingDecides(s, pid, image, now);
    Kernel.CopiedNameIsCopy(image);
  }

  class Driver {
    const tracker: Tracker
    const names: DynamicAllowlist
    /** g_ContextLock: not recursive, so acquiring it twice or releasing it unheld is an error. */
    var lockHeld: bool
    var fileCountThreshold: ULong
    var timeWindowSeconds: ULong
    var timeWindowTicks: Ticks
    var monitoringEnabled: bool
    var messageSequence: ULong
    /** Whether g_ClientPort is set. */
    var clientConnected: bool

    ghost function Objects(): set<object>
      reads this, tracker, tracker.table
    {
      {this, names, names.rows} + tracker.Repr()
    }

    ghost predicate Apart()
      reads this, tracker, tracker.table
    {
      this !in tracker.Repr() && names !in tracker.Repr() && names.rows !in tracker.Repr()
    }

    ghost predicate Parts()
      reads this, tracker, tracker.table, tracker.table.links, tracker.payload, names, names.rows
    {
      !lockHeld && tracker.Valid() && names.Valid() && Apart()
    }

    /** Quantified so that callers need not unfold it. */
    ghost predicate Valid()
      reads this, tracker, tracker.table, tracker.table.links, tracker.payload, names, names.rows
    {
      forall d {:trigger d.Parts()} | d in {this} :: d.Parts()
    }

    function Config(): Kernel.Config
      reads this
    {
      Kernel.Config(fileCountThreshold, timeWindowSeconds, timeWindowTicks, monitoringEnabled)
    }

    /** The sequential state this driver stands for. */
    ghost function State(): Kernel.State
      reads this, tracker, names
    {
      Kernel.State(Config(), tracker.contents, names.contents, messageSequence)
    }

    /** Driver load: RsInitializeContextTracking over the compile-time defaults. */
    constructor ()
      ensures Valid() && State() == Kernel.INITIAL && !clientConnected && fresh(Objects())
    {
      tracker := new Tracker();
      names := new DynamicAllowlist();
      lockHeld := false;
      fileCountThreshold, timeWindowSeconds := 50, 10;
      timeWindowTicks := 10 * TICKS_PER_SECOND;
      monitoringEnabled := true;
      messageSequence := 0;
      clientConnected := false;
    }

    method AcquireLock()
      requires !lockHeld
      modifies this`lockHeld
      ensures lockHeld
    {
      lockHeld := true;
    }

    method ReleaseLock()
      requires lockHeld
      modifies this`lockHeld
      ensures !lockHeld
    {
      lockHeld := false;
    }

    /** RsApplyConfig */
    method ApplyConfig(threshold: ULong, seconds: ULong, monitoring: bool)
      requires Valid()
      modifies this`lockHeld, this`fileCountThreshold, this`timeWindowSeconds, this`timeWindowTicks, this`monitoringEnabled
      ensures Valid() && State() == Kernel.After(old(State()), Kernel.Configure(threshold, seconds, monitoring))
    {
      assert Parts();
      AcquireLock();
      if threshold > 0 {
        fileCountThreshold := threshold;
      }
      if seconds > 0 {
        timeWindowSeconds := seconds;
        timeWindowTicks := seconds * TICKS_PER_SECOND;
      }
      monitoringEnabled := monitoring;
      ReleaseLock();
    }

    /** RsUnblockProcess, which is RsRemoveProcessContext. */
    method UnblockProcess(pid: ULong)
      requires Valid()
      modifies this`lockHeld, tracker.Repr()
      ensures Valid() && State() == Kernel.After(old(State()), Kernel.Unblock(pid))
      ensures Objects() == old(Objects()) && clientConnected == old(clientConnected)
    {
      assert Parts();
      AcquireLock();
      tracker.Forget(pid);
      assert tracker.contents == old(tracker.contents) - {pid} && tracker.Repr() == old(tracker.Repr());
      ReleaseLock();
    }

    // ---- Recording an operation -----------------------------------------------------------------

    /** ExAllocatePool2 and RsCreateProcessContext: never under the lock. */
    method CreateProcessContext(pid: ULong, image: Option<string>, poolHasMemory: bool)
      returns (created: ListEntry?<ProcessContext>)
      requires !lockHeld
      ensures !poolHasMemory <==> created == null
      ensures created != null ==> fresh(created) && created.record.Some?
      ensures created != null ==>
                var context := created.record.value;
                && fresh(context) && fresh(context.operations)
                && context.Valid() && context.processId == pid && context.View() == Kernel.FreshContext(image)
    {
      created := null;
      if poolHasMemory {
        var context := new ProcessContext(pid, image);
        created := new ListEntry<ProcessContext>(Some(context));
      }
    }

    /** First lookup: record into a context that exists. */
    method FirstRegion(pid: ULong, now: Ticks) returns (tracked: bool, block: bool, notice: Option<Kernel.Notice>)
      requires Valid()
      modifies this`lockHeld, tracker.Repr()
      ensures Valid() && tracker.table.links == old(tracker.table.links) && tracker.payload == old(tracker.payload)
      ensures tracked == (pid in old(tracker.contents))
      ensures !tracked ==> tracker.contents == old(tracker.contents)
      ensures tracked ==>
                && tracker.contents == Kernel.RecordTable(old(tracker.contents), Config(), pid, None, now)
                && Kernel.Verdict(block, notice) == Kernel.RecordVerdict(old(tracker.contents), Config(), pid, None, now)
    {
      assert Parts();
      AcquireLock();
      tracked, block, notice := tracker.RecordIfTracked(pid, now, Config());
      ReleaseLock();
    }

    /** Second lookup, holding a fresh context: insert it, or free it if another thread was faster. */
    method SecondRegion(created: ListEntry<ProcessContext>, context: ProcessContext, ghost image: Option<string>, now: Ticks)
      returns (block: bool, notice: Option<Kernel.Notice>)
      requires Valid() && created.record == Some(context) && context.processId != 0 && context.processId != 4
      requires {created, context, context.operations} !! Objects()
      requires context.Valid() && context.View() == Kernel.FreshContext(image)
      modifies this`lockHeld, tracker.Repr(), created, context, context.operations
      ensures Valid() && tracker.Repr() <= old(tracker.Repr()) + {created, context, context.operations}
      ensures tracker.contents == Kernel.RecordTable(old(tracker.contents), Config(), context.processId, image, now)
      ensures Kernel.Verdict(block, notice)
           == Kernel.RecordVerdict(old(tracker.contents), Config(), context.processId, image, now)
    {
      assert Parts();
      AcquireLock();
      block, notice := tracker.RecordWith(created, context, image, now, Config());
      ReleaseLock();
    }

    /** RsRecordOperation up to the last release of the lock: double-checked creation. */
    method RecordUnderLock(pid: ULong, image: Option<string>, now: Ticks, poolHasMemory: bool)
      returns (status: Status, block: bool, notice: Option<Kernel.Notice>)
      requires Valid() && pid != 0 && pid != 4
      modifies this`lockHeld, tracker.Repr()
      ensures Valid() && fresh(tracker.Repr() - old(tracker.Repr()))
      ensures status == if pid in old(tracker.contents) || poolHasMemory then Success else InsufficientResources
      ensures status == InsufficientResources ==> tracker.contents == old(tracker.contents) && !block && notice == None
      ensures status == Success ==>
                && tracker.contents == Kernel.RecordTable(old(tracker.contents), Config(), pid, image, now)
                && Kernel.Verdict(block, notice) == Kernel.RecordVerdict(old(tracker.contents), Config(), pid, image, now)
    {
      assert Parts();
      var tracked;
      tracked, block, notice := FirstRegion(pid, now);
      if tracked {
        return Success, block, notice;
      }
      assert Parts();
      var created := CreateProcessContext(pid, image, poolHasMemory);
      if created == null {
        return InsufficientResources, false, None;
      }
      block, notice := SecondRegion(created, created.record.value, image, now);
      status := Success;
    }

    /** RsSendBlockNotification: with no client there is nothing to do, not even a number to take. */
    method SendBlockNotification(notice: Kernel.Notice) returns (sent: Option<Notification>)
      requires Valid()
      modifies this`lockHeld, this`messageSequence
      ensures Valid()
      ensures State() == if clientConnected then Kernel.After(old(State()), Kernel.TakeNumber) else old(State())
      ensures sent == if clientConnected then Some(Notification(old(messageSequence), notice)) else None
    {
      assert Parts();
      if !clientConnected {
        return None;
      }
      var number := NextNumber();
      sent := Some(Notification(number, notice));
    }

    /** The region that takes a sequence number: g_MessageSequence++. */
    method NextNumber() returns (number: ULong)
      requires Valid()
      modifies this`lockHeld, this`messageSequence
      ensures Valid() && number == old(messageSequence)
      ensures State() == Kernel.After(old(State()), Kernel.TakeNumber)
    {
      assert Parts();
      AcquireLock();
      number := messageSequence;
      messageSequence := (messageSequence + 1) % ULONG_RANGE;
      ReleaseLock();
    }

    /** RsRecordOperation */
    method RecordOperation(pid: ULong, image: Option<string>, now: Ticks, poolHasMemory: bool)
      returns (status: Status, shouldBlock: bool, sent: Option<Notification>)
      requires Valid() && pid != 0 && pid != 4
      modifies this`lockHeld, this`messageSequence, tracker.Repr()
      ensures Valid() && fresh(Objects() - old(Objects()))
      ensures status == if pid in old(tracker.contents) || poolHasMemory then Success else InsufficientResources
      ensures status == InsufficientResources ==> State() == old(State()) && !shouldBlock && sent == None
      ensures status == Success ==>
                var verdict := Kernel.AnswerTo(old(State()), Kernel.Record(pid, image, now));
                && State() == Recorded(old(State()), old(clientConnected), pid, image, now)
                && shouldBlock == verdict.block
                && sent == if verdict.notice.Some? && old(clientConnected)
                           then Some(Notification(old(messageSequence), verdict.notice.value)) else None
      ensures State().config == old(State()).config && State().names == old(State()).names
      ensures status == Success ==>
                && pid in State().table && State().table - {pid} == old(State()).table - {pid}
                && shouldBlock == State().table[pid].blocked
                && (if pid in old(State()).table then State().table[pid].image == old(State()).table[pid].image
                    else Kernel.IsCopyOf(State().table[pid].image, image))
      ensures sent.Some? <==> status == Success && old(clientConnected) && State().table[pid].blocked
                              && !Kernel.IsBlocked(old(State()).table, pid)
      ensures sent.Some? ==>
                var context := State().table[pid];
                sent.value == Notification(old(messageSequence), Kernel.Notice(pid, context.image, now, |context.ring|))
      ensures State().sequence
           == if sent.Some? then (old(State()).sequence + 1) % 0x1_0000_0000 else old(State()).sequence
    {
      assert Parts();
      RecordedFields(State(), clientConnected, pid, image, now);
      var notice;
      status, shouldBlock, notice := RecordUnderLock(pid, image, now, poolHasMemory);
      sent := None;
      if notice.Some? {
        sent := SendBlockNotification(notice.value);
      }
    }

    // ---- Regions the message dispatcher uses ----------------------------------------------------

    /** g_MonitoringEnabled := on, for pause and resume. */
    method SetMonitoring(on: bool)
      requires Valid()
      modifies this`lockHeld, this`monitoringEnabled
      ensures Valid() && State() == Kernel.After(old(State()), Kernel.SetMonitoring(on))
    {
      assert Parts();
      AcquireLock();
      monitoringEnabled := on;
      ReleaseLock();
    }

    method ClearNames()
      requires Valid()
      modifies this`lockHeld, names, names.rows
      ensures Valid() && State() == Kernel.After(old(State()), Kernel.ClearNames)
    {
      assert Parts();
      AcquireLock();
      names.Clear();
      ReleaseLock();
    }

    method AddName(entry: string)
      requires Valid()
      modifies this`lockHeld, names, names.rows
      ensures Valid() && State() == Kernel.After(old(State()), Kernel.AddName(entry))
    {
      assert Parts();
      AcquireLock();
      names.Add(entry);
      ReleaseLock();
    }

    method ReadConfig() returns (number: ULong, config: Kernel.Config)
      requires Valid()
      modifies this`lockHeld, this`messageSequence
      ensures Valid() && State() == Kernel.After(old(State()), Kernel.ReadConfig)
      ensures Kernel.ConfigRead(number, config) == Kernel.AnswerTo(old(State()), Kernel.ReadConfig)
    {
      assert Parts();
      AcquireLock();
      number := messageSequence;
      messageSequence := (messageSequence + 1) % ULONG_RANGE;
      config := Config();
      ReleaseLock();
    }

    method ReadNames() returns (number: ULong, list: seq<string>)
      requires Valid()
      modifies this`lockHeld, this`messageSequence
      ensures Valid() && State() == Kernel.After(old(State()), Kernel.ReadNames)
      ensures Kernel.NamesRead(number, list) == Kernel.AnswerTo(old(State()), Kernel.ReadNames)
    {
      assert Parts();
      AcquireLock();
      number := messageSequence;
      messageSequence := (messageSequence + 1) % ULONG_RANGE;
      list := names.CopyOut();
      ReleaseLock();
    }

    method GetPidCounts() returns (tracked: ULong, blocked: nat)
      requires Valid()
      modifies this`lockHeld
      ensures Valid() && State() == old(State())
      ensures Kernel.Counted(tracked, blocked) == Kernel.AnswerTo(old(State()), Kernel.CountPids)
    {
      assert Parts();
      AcquireLock();
      tracked, blocked := tracker.GetPidCounts();
      ReleaseLock();
    }

    method GetBlockedPids(maxEntries: nat) returns (report: seq<BlockedEntry>)
      requires Valid()
      modifies this`lockHeld
      ensures Valid() && State() == Kernel.After(old(State()), Kernel.ListBlocked)
      ensures Reports(report, Kernel.AnswerTo(old(State()), Kernel.ListBlocked).contexts, maxEntries)
      ensures TellsBlocked(report, State().table, maxEntries)
    {
      assert Parts();
      AcquireLock();
      report := tracker.GetBlockedPids(maxEntries);
      ReleaseLock();
      ReportIsFaithful(report, tracker.contents, maxEntries);
    }

    /** RsIsProcessAllowlisted */
    method IsProcessAllowlisted(fold: Fold, image: Option<string>) returns (exempt: bool)
      requires Valid()
      modifies this`lockHeld
      ensures Valid() && State() == old(State()) && exempt == Exempt(fold, image, State().names)
      ensures fold == map[] ==>
                (exempt <==> && image.Some? && image.value != []
                             && (FileName(image.value) in BUILT_IN || FileName(image.value) in State().names))
    {
      assert Parts();
      ExemptPlain(image, names.contents);
      if image == None || image.value == [] {
        return false;
      }
      var name := FindFileName(image.value);
      exempt := SearchNames(fold, name, BUILT_IN);
      if !exempt {
        AcquireLock();
        exempt := names.Search(fold, name);
        ReleaseLock();
      }
    }

    /** RsDestroyContextTracking */
    method DestroyContextTracking()
      requires Valid()
      modifies this`lockHeld, tracker.Repr()
      ensures Valid() && State() == old(State()).(table := map[])
    {
      assert Parts();
      AcquireLock();
      tracker.Destroy();
      ReleaseLock();
    }
  }
}
