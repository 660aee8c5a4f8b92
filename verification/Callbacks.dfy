/** RsPreOperationWrite and RsPreOperationSetInformation: who is let through, who is recorded, and
    who is denied. */
module Callbacks {
  import opened Base
  import opened Names
  import opened Operations
  import opened Drivers
  import Kernel

  datatype IoStatus = Untouched | AccessDenied

  /** FLT_CALLBACK_DATA, as far as the callbacks look at it: the operation, the requestor's PID, and
      its image name if the process is still there, the IRQL allows asking and the lookup succeeds. */
  class CallbackData {
    const operation: Operation
    const requestorPid: ULong
    const image: Option<string>
    var ioStatus: IoStatus

    constructor (operation: Operation, pid: ULong, image: Option<string>)
      ensures this.operation == operation && requestorPid == pid && this.image == image && ioStatus == Untouched
    {
      this.operation, requestorPid, this.image, ioStatus := operation, pid, image, Untouched;
    }
  }

  /** Passed through without being recorded. */
  predicate PassedOver(s: Kernel.State, fold: Fold, operation: Operation, pid: ULong, image: Option<string>) {
    !Monitored(operation) || pid == 0 || pid == 4 || Exempt(fold, image, s.names)
  }

  /** The driver state once the operation has been looked at. */
  function StateAfter(s: Kernel.State, connected: bool, fold: Fold, operation: Operation, pid: ULong,
                      image: Option<string>, now: Ticks, poolHasMemory: bool): Kernel.State {
    if PassedOver(s, fold, operation, pid, image) || (pid !in s.table && !poolHasMemory) then s
    else Recorded(s, connected, pid, image, now)
  }

  /** Writes that are not paging I/O, renames and deletes of a process that is not exempt are recorded, if
      there is a context or memory for one, and the verdict is to deny them exactly if that leaves the
      process blocked. */
  lemma LookedAt(s: Kernel.State, connected: bool, fold: Fold, operation: Operation, pid: ULong,
                 image: Option<string>, now: Ticks, poolHasMemory: bool)
    requires operation in {Write(false), SetInformation(Rename), SetInformation(RenameEx), SetInformation(Disposition),
                           SetInformation(DispositionEx)}
    requires pid != 0 && pid != 4 && !Exempt(fold, image, s.names) && (pid in s.table || poolHasMemory)
    ensures var e := Kernel.Record(pid, image, now);
            var t := StateAfter(s, connected, fold, operation, pid, image, now, poolHasMemory);
            && !PassedOver(s, fold, operation, pid, image) && pid in t.table && t.table == Kernel.After(s, e).table
            && Kernel.AnswerTo(s, e).block == t.table[pid].blocked
  {
    RecordedFields(s, connected, pid, image, now);
  }

  /** What both callbacks do once they have decided to look at the operation. */
  method Judge(driver: Driver, data: CallbackData, fold: Fold, now: Ticks, poolHasMemory: bool) returns (outcome: Outcome)
    requires driver.Valid() && data !in driver.Objects()
    requires Monitored(data.operation) && data.requestorPid != 0 && data.requestorPid != 4
    modifies driver.Objects(), data
    ensures driver.Valid() && fresh(driver.Objects() - old(driver.Objects()))
    ensures driver.State() == StateAfter(old(driver.State()), old(driver.clientConnected), fold, data.operation,
                                         data.requestorPid, data.image, now, poolHasMemory)
    ensures Verdict(outcome, data, old(driver.State()), fold, now, poolHasMemory)
    ensures outcome != Complete ==> data.ioStatus == old(data.ioStatus)
  {
    var exempt := driver.IsProcessAllowlisted(fold, data.image);
    if exempt {
      return SuccessNoCallback;
    }
    var status, shouldBlock, sent := driver.RecordOperation(data.requestorPid, data.image, now, poolHasMemory);
    if status != Success {
      return SuccessNoCallback;
    }
    if shouldBlock {
      data.ioStatus := AccessDenied;
      return Complete;
    }
    outcome := Allowed(data.operation, true);
  }

  /** Denied if and only if the operation is recorded, or answered by an existing block, and the
      verdict is to block; a tracking failure always allows. */
  ghost predicate Verdict(outcome: Outcome, data: CallbackData, s: Kernel.State, fold: Fold, now: Ticks, poolHasMemory: bool)
    reads data
  {
    var looked := !PassedOver(s, fold, data.operation, data.requestorPid, data.image)
                  && (data.requestorPid in s.table || poolHasMemory);
    var denied := looked && Kernel.AnswerTo(s, Kernel.Record(data.requestorPid, data.image, now)).block;
    && outcome == (if denied then Complete else Allowed(data.operation, looked))
    && (denied ==> data.ioStatus == AccessDenied)
  }

  method PreOperationWrite(driver: Driver, data: CallbackData, fold: Fold, now: Ticks, poolHasMemory: bool)
    returns (outcome: Outcome)
    requires driver.Valid() && data !in driver.Objects() && data.operation.Write?
    modifies driver.Objects(), data
    ensures driver.Valid() && fresh(driver.Objects() - old(driver.Objects()))
    ensures driver.State() == StateAfter(old(driver.State()), old(driver.clientConnected), fold, data.operation,
                                         data.requestorPid, data.image, now, poolHasMemory)
    ensures Verdict(outcome, data, old(driver.State()), fold, now, poolHasMemory)
    ensures outcome != Complete ==> data.ioStatus == old(data.ioStatus)
    ensures data.operation == Write(true) || data.requestorPid == 0 || data.requestorPid == 4
            || Exempt(fold, data.image, old(driver.State()).names)
            || (data.requestorPid !in old(driver.State()).table && !poolHasMemory)
        ==> driver.State() == old(driver.State()) && outcome == SuccessNoCallback
    ensures data.operation == Write(false) && data.requestorPid != 0 && data.requestorPid != 4
            && !Exempt(fold, data.image, old(driver.State()).names)
            && (data.requestorPid in old(driver.State()).table || poolHasMemory)
        ==> && data.requestorPid in driver.State().table
            && driver.State().table == Kernel.After(old(driver.State()), Kernel.Record(data.requestorPid, data.image, now)).table
            && (if driver.State().table[data.requestorPid].blocked
                then outcome == Complete && data.ioStatus == AccessDenied else outcome == SuccessNoCallback)
  {
    ghost var s := driver.State();
    if data.operation == Write(false) && data.requestorPid != 0 && data.requestorPid != 4
       && !Exempt(fold, data.image, s.names) && (data.requestorPid in s.table || poolHasMemory) {
      LookedAt(s, driver.clientConnected, fold, data.operation, data.requestorPid, data.image, now, poolHasMemory);
    }
    if data.operation.pagingIo {
      return SuccessNoCallback;
    }
    if data.requestorPid == 0 || data.requestorPid == 4 {
      return SuccessNoCallback;
    }
    outcome := Judge(driver, data, fold, now, poolHasMemory);
  }

  method PreOperationSetInformation(driver: Driver, data: CallbackData, fold: Fold, now: Ticks, poolHasMemory: bool)
    returns (outcome: Outcome)
    requires driver.Valid() && data !in driver.Objects() && data.operation.SetInformation?
    modifies driver.Objects(), data
    ensures driver.Valid() && fresh(driver.Objects() - old(driver.Objects()))
    ensures driver.State() == StateAfter(old(driver.State()), old(driver.clientConnected), fold, data.operation,
                                         data.requestorPid, data.image, now, poolHasMemory)
    ensures Verdict(outcome, data, old(driver.State()), fold, now, poolHasMemory)
    ensures outcome != Complete ==> data.ioStatus == old(data.ioStatus)
    ensures data.operation == SetInformation(OtherClass) || data.requestorPid == 0 || data.requestorPid == 4
            || Exempt(fold, data.image, old(driver.State()).names)
            || (data.requestorPid !in old(driver.State()).table && !poolHasMemory)
        ==> driver.State() == old(driver.State()) && outcome == SuccessNoCallback
    ensures data.operation.class_ in {Rename, RenameEx, Disposition, DispositionEx}
            && data.requestorPid != 0 && data.requestorPid != 4
            && !Exempt(fold, data.image, old(driver.State()).names)
            && (data.requestorPid in old(driver.State()).table || poolHasMemory)
        ==> && data.requestorPid in driver.State().table
            && driver.State().table == Kernel.After(old(driver.State()), Kernel.Record(data.requestorPid, data.image, now)).table
            && (if driver.State().table[data.requestorPid].blocked
                then outcome == Complete && data.ioStatus == AccessDenied else outcome == SuccessWithCallback)
  {
    ghost var s := driver.State();
    if data.operation.class_ in {Rename, RenameEx, Disposition, DispositionEx} && data.requestorPid != 0 && data.requestorPid != 4
       && !Exempt(fold, data.image, s.names) && (data.requestorPid in s.table || poolHasMemory) {
      LookedAt(s, driver.clientConnected, fold, data.operation, data.requestorPid, data.image, now, poolHasMemory);
    }
    if data.operation.class_ == OtherClass {
      return SuccessNoCallback;
    }
    if data.requestorPid == 0 || data.requestorPid == 4 {
      return SuccessNoCallback;
    }
    outcome := Judge(driver, data, fold, now, poolHasMemory);
  }
}
