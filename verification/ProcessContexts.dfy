/** RS_PROCESS_CONTEXT: one tracked process with its in-place ring buffer of timestamps
    (its Link field is modelled by LinkedList.ListEntry). */
module ProcessContexts {
  import opened Base
  import opened SlidingWindow
  import Kernel

  /** An index that has run at most once around the ring, brought back into it. */
  function Wrap(i: nat): nat {
    if i < RING_CAPACITY then i else i - RING_CAPACITY
  }

  /** The slot of the oldest entry, for `head` the next slot to write. */
  function Start(head: nat, count: nat): nat
    requires count <= RING_CAPACITY
  {
    Wrap(head + RING_CAPACITY - count)
  }

  /** The valid entries of a circular buffer, oldest first. */
  ghost function RingOf(slots: seq<Ticks>, head: nat, count: nat): (ring: seq<Ticks>)
    requires |slots| == RING_CAPACITY && head < RING_CAPACITY && count <= RING_CAPACITY
    ensures |ring| == count
    ensures forall k :: 0 <= k < count ==> ring[k] == slots[Wrap(Start(head, count) + k)]
  {
    seq(count, k requires 0 <= k < count => slots[Wrap(Start(head, count) + k)])
  }

  /** Writing at `head` and advancing it appends... */
  lemma WriteAppends(slots: seq<Ticks>, head: nat, count: nat, t: Ticks)
    requires |slots| == RING_CAPACITY && head < RING_CAPACITY && count < RING_CAPACITY
    ensures RingOf(slots[head := t], Wrap(head + 1), count + 1) == RingOf(slots, head, count) + [t]
  {
    var was, now := RingOf(slots, head, count), RingOf(slots[head := t], Wrap(head + 1), count + 1);
    assert forall k :: 0 <= k < count ==> now[k] == was[k];
    assert now[count] == t;
  }

  /** ...and drops the oldest entry of a full ring. */
  lemma WriteOverwrites(slots: seq<Ticks>, head: nat, t: Ticks)
    requires |slots| == RING_CAPACITY && head < RING_CAPACITY
    ensures RingOf(slots[head := t], Wrap(head + 1), RING_CAPACITY) == RingOf(slots, head, RING_CAPACITY)[1..] + [t]
  {
    var was, now := RingOf(slots, head, RING_CAPACITY), RingOf(slots[head := t], Wrap(head + 1), RING_CAPACITY);
    assert forall k :: 0 <= k < RING_CAPACITY - 1 ==> now[k] == was[1..][k];
    assert now[RING_CAPACITY - 1] == t;
  }

  class ProcessContext {
    const processId: ULong
    const imageName: string
    const operations: array<Ticks>
    var operationHead: nat
    var operationCount: nat
    var isBlocked: bool
    var blockedTimestamp: Ticks
    var lastActivityTime: Ticks

    ghost predicate Valid()
      reads this
    {
      operations.Length == RING_CAPACITY && operationHead < RING_CAPACITY && operationCount <= RING_CAPACITY
    }

    /** The valid timestamps, oldest first. */
    ghost function Ring(): seq<Ticks>
      reads this, operations
      requires Valid()
    {
      RingOf(operations[..], operationHead, operationCount)
    }

    /** The slot the C code reads for the k-th oldest entry. */
    function Slot(k: nat): (slot: nat)
      reads this
      requires Valid() && k <= operationCount
      ensures slot < operations.Length
      ensures slot == (operationHead + RING_CAPACITY - operationCount + k) % RING_CAPACITY
    {
      Wrap(Start(operationHead, operationCount) + k)
    }

    lemma SlotHolds(k: nat)
      requires Valid() && k < operationCount
      ensures k < |Ring()| && operations[Slot(k)] == Ring()[k]
      ensures Slot(k + 1) == (Slot(k) + 1) % RING_CAPACITY
    {
    }

    ghost function View(): Kernel.Context
      reads this, operations
      requires Valid()
    {
      Kernel.Context(imageName, Ring(), isBlocked, blockedTimestamp, lastActivityTime)
    }

    /** RsCreateProcessContext, when the pool has memory. */
    constructor (pid: ULong, image: Option<string>)
      ensures Valid() && processId == pid && View() == Kernel.FreshContext(image)
      ensures fresh(operations)
      ensures image == None ==> imageName == []
      ensures image.Some? ==> imageName <= image.value && |imageName| == Min(|image.value|, 259)
    {
      processId := pid;
      imageName := if image == None then [] else if |image.value| >= MAX_NAME + 1 then image.value[..MAX_NAME] else image.value;
      operations := new Ticks[RING_CAPACITY](_ => 0);
      operationHead, operationCount := 0, 0;
      isBlocked, blockedTimestamp, lastActivityTime := false, 0, 0;
    }

    /** RsPruneOldOperations: filter into a linear buffer, then copy back to the front. */
    method PruneOldOperations(currentTime: Ticks, windowTicks: Ticks)
      requires Valid()
      modifies this`operationHead, this`operationCount, operations
      ensures Valid() && Ring() == Within(old(Ring()), currentTime, windowTicks)
    {
      if operationCount == 0 {
        return;
      }
      var temp := new Ticks[RING_CAPACITY];
      var newCount := CollectRecent(temp, currentTime, windowTicks);
      CopyBack(temp, newCount);
    }

    /** The scanning loop of RsPruneOldOperations, oldest entry first. */
    method CollectRecent(temp: array<Ticks>, currentTime: Ticks, windowTicks: Ticks) returns (newCount: nat)
      requires Valid() && temp.Length == RING_CAPACITY && temp != operations
      modifies temp
      ensures newCount <= operationCount && temp[..newCount] == Within(Ring(), currentTime, windowTicks)
    {
      ghost var ring := Ring();
      var readIdx := Slot(0);
      newCount := 0;
      for i := 0 to operationCount
        invariant newCount <= i && i <= |ring| && readIdx == Slot(i)
        invariant temp[..newCount] == Scan(ring, i, currentTime, windowTicks)
      {
        SlotHolds(i);
        var entry := operations[readIdx];
        if currentTime - entry <= windowTicks {
          temp[newCount] := entry;
          newCount := newCount + 1;
        }
        readIdx := (readIdx + 1) % RING_CAPACITY;
      }
    }

    /** The compacted entries become slots 0, 1, ... of the ring. */
    method CopyBack(temp: array<Ticks>, newCount: nat)
      requires Valid() && newCount <= RING_CAPACITY == temp.Length && temp != operations
      modifies this`operationHead, this`operationCount, operations
      ensures Valid() && Ring() == temp[..newCount]
    {
      forall i | 0 <= i < newCount {
        operations[i] := temp[i];
      }
      operationCount := newCount;
      operationHead := newCount % RING_CAPACITY;
      assert Start(operationHead, newCount) == 0;
      assert forall k :: 0 <= k < newCount ==> Ring()[k] == operations[k] == temp[..newCount][k];
    }

    /** Append the current time, overwriting the oldest entry when the ring is full. */
    method Append(currentTime: Ticks)
      requires Valid()
      modifies this`operationHead, this`operationCount, operations
      ensures Valid() && Ring() == Last(old(Ring()) + [currentTime], RING_CAPACITY)
    {
      if operationCount < RING_CAPACITY {
        WriteAppends(operations[..], operationHead, operationCount, currentTime);
      } else {
        WriteOverwrites(operations[..], operationHead, currentTime);
      }
      operations[operationHead] := currentTime;
      operationHead := (operationHead + 1) % RING_CAPACITY;
      if operationCount < RING_CAPACITY {
        operationCount := operationCount + 1;
      }
    }

    /** The precise recount of entries inside the window. */
    method CountRecent(currentTime: Ticks, windowTicks: Ticks) returns (recentCount: nat)
      requires Valid()
      ensures recentCount == |Within(Ring(), currentTime, windowTicks)|
    {
      ghost var ring := Ring();
      recentCount := 0;
      var idx := Slot(0);
      for i := 0 to operationCount
        invariant i <= |ring| && idx == Slot(i)
        invariant recentCount == |Scan(ring, i, currentTime, windowTicks)|
      {
        SlotHolds(i);
        if currentTime - operations[idx] <= windowTicks {
          recentCount := recentCount + 1;
        }
        idx := (idx + 1) % RING_CAPACITY;
      }
    }

    /** The threshold check; what the notification needs is copied out while the lock is held. */
    method Evaluate(recentCount: nat, currentTime: Ticks, config: Kernel.Config)
      returns (notice: Option<Kernel.Notice>)
      requires Valid() && !isBlocked
      modifies this`isBlocked, this`blockedTimestamp, this`lastActivityTime
      ensures Valid() && View() == Kernel.Evaluated(old(View()), Kernel.Trips(recentCount, config), currentTime)
      ensures notice == if Kernel.Trips(recentCount, config)
                        then Some(Kernel.Notice(processId, imageName, currentTime, recentCount)) else None
    {
      lastActivityTime := currentTime;
      notice := None;
      if recentCount >= config.threshold && !isBlocked && config.monitoring {
        isBlocked := true;
        blockedTimestamp := currentTime;
        notice := Some(Kernel.Notice(processId, imageName, blockedTimestamp, recentCount));
      }
    }

    /** RecordAndEvaluate in RsRecordOperation. */
    method RecordAndEvaluate(currentTime: Ticks, config: Kernel.Config) returns (notice: Option<Kernel.Notice>)
      requires Valid() && !isBlocked
      modifies this, operations
      ensures Valid() && View() == Kernel.Absorb(old(View()), config, currentTime)
      ensures notice == Kernel.NoticeOf(processId, old(View()), config, currentTime)
    {
      PruneOldOperations(currentTime, config.ticks);
      Append(currentTime);
      var recentCount := CountRecent(currentTime, config.ticks);
      notice := Evaluate(recentCount, currentTime, config);
    }
  }
}
