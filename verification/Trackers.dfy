/** The contexts in the hash table, as the map from PID to context that the rest of the driver
    thinks in. Each method here is what one region under g_ContextLock does to the table. */
module Trackers {
  import opened Base
  import opened LinkedList
  import opened ProcessContexts
  import opened ContextTables
  import Kernel

  // ---- Walking the table -------------------------------------------------------------------

  /** RS_BLOCKED_PID_ENTRY */
  datatype BlockedEntry = BlockedEntry(pid: ULong, image: string, at: Ticks, count: nat)

  ghost function EntryFor(table: Kernel.Table, pid: ULong): BlockedEntry
    requires pid in table
  {
    BlockedEntry(pid, table[pid].image, table[pid].blockedAt, |table[pid].ring|)
  }

  ghost function BlockedAmong(table: Kernel.Table, seen: set<ULong>): set<ULong> {
    set pid | pid in seen && Kernel.IsBlocked(table, pid)
  }

  lemma OneMoreSeen(table: Kernel.Table, seen: set<ULong>, pid: ULong)
    requires pid !in seen
    ensures BlockedAmong(table, seen + {pid})
         == BlockedAmong(table, seen) + if Kernel.IsBlocked(table, pid) then {pid} else {}
    ensures pid !in BlockedAmong(table, seen)
  {
  }

  /** The PIDs a walk has passed when it stands before the k-th entry of bucket `b`. */
  ghost function Seen(chains: seq<seq<Entry>>, entries: map<ULong, Entry>, b: nat, k: nat): set<ULong> {
    set pid | pid in entries && (HashProcessId(pid) < b
                                 || (HashProcessId(pid) == b < |chains| && k <= |chains[b]| && entries[pid] in chains[b][..k]))
  }

  lemma SeenStep(chains: seq<seq<Entry>>, entries: map<ULong, Entry>, b: nat, k: nat)
    requires Located(chains, entries) && b < BUCKET_COUNT && k < |chains[b]|
    requires forall i, j :: 0 <= i < j < |chains[b]| ==> chains[b][i] != chains[b][j]
    ensures Holds(entries, b, chains[b][k])
    ensures var pid := chains[b][k].record.value.processId;
            pid !in Seen(chains, entries, b, k) && Seen(chains, entries, b, k + 1) == Seen(chains, entries, b, k) + {pid}
  {
    var entry := chains[b][k];
    assert BucketHolds(chains, entries, b) && entry in chains[b];
    var pid := entry.record.value.processId;
    assert chains[b][..k + 1] == chains[b][..k] + [entry];
    forall p | p in entries && entries[p] == entry ensures p == pid {
      assert Placed(chains, entries, p);
    }
  }

  lemma SeenBucket(chains: seq<seq<Entry>>, entries: map<ULong, Entry>, b: nat)
    requires Located(chains, entries)
    ensures Seen(chains, entries, 0, 0) == {}
    ensures b < BUCKET_COUNT ==> Seen(chains, entries, b, |chains[b]|) == Seen(chains, entries, b + 1, 0)
    ensures Seen(chains, entries, BUCKET_COUNT, 0) == entries.Keys
  {
    if b < BUCKET_COUNT {
      assert chains[b][..|chains[b]|] == chains[b];
      assert forall pid :: pid in entries ==> Placed(chains, entries, pid);
    }
  }

  /** `report` lists the blocked PIDs among `seen`, once each, with their data. */
  ghost predicate Lists(report: seq<BlockedEntry>, table: Kernel.Table, seen: set<ULong>) {
    && (forall i :: 0 <= i < |report| ==> report[i].pid in table && report[i] == EntryFor(table, report[i].pid))
    && (forall i, j :: 0 <= i < j < |report| ==> report[i].pid != report[j].pid)
    && ReportedPids(report) == BlockedAmong(table, seen)
  }

  ghost function ReportedPids(report: seq<BlockedEntry>): set<ULong> {
    set i | 0 <= i < |report| :: report[i].pid
  }

  lemma {:induction false} ReportSize(report: seq<BlockedEntry>)
    requires forall i, j :: 0 <= i < j < |report| ==> report[i].pid != report[j].pid
    ensures |ReportedPids(report)| == |report|
  {
    if report != [] {
      var front, last := report[..|report| - 1], report[|report| - 1];
      ReportSize(front);
      OneMoreReported(front, last);
      assert report == front + [last];
    }
  }

  lemma OneMoreReported(report: seq<BlockedEntry>, last: BlockedEntry)
    ensures ReportedPids(report + [last]) == ReportedPids(report) + {last.pid}
  {
    var longer := report + [last];
    assert longer[|report|] == last;
    forall pid | pid in ReportedPids(report) ensures pid in ReportedPids(longer) {
      var i :| 0 <= i < |report| && report[i].pid == pid;
      assert longer[i].pid == pid;
    }
  }

  lemma ReportGrows(report: seq<BlockedEntry>, table: Kernel.Table, seen: set<ULong>, pid: ULong)
    requires Lists(report, table, seen) && pid !in seen && Kernel.IsBlocked(table, pid)
    ensures Lists(report + [EntryFor(table, pid)], table, seen + {pid})
  {
    assert forall i :: 0 <= i < |report| ==> report[i].pid in ReportedPids(report);
    OneMoreReported(report, EntryFor(table, pid));
    OneMoreSeen(table, seen, pid);
  }

  /** A correct answer to "which PIDs are blocked?" for a buffer of maxEntries, given a snapshot of the
      blocked contexts: distinct blocked PIDs with their data, as many as there are or as fit, hence all
      of them when they fit. */
  ghost predicate Reports(report: seq<BlockedEntry>, blocked: Kernel.Table, maxEntries: nat) {
    && |report| == Min(maxEntries, |blocked|)
    && (forall i :: 0 <= i < |report| ==> report[i].pid in blocked && report[i] == EntryFor(blocked, report[i].pid))
    && (forall i, j :: 0 <= i < j < |report| ==> report[i].pid != report[j].pid)
    && (|blocked| <= maxEntries ==> ReportedPids(report) == blocked.Keys)
  }

  /** The size of a report that fits is the blocked count a client is told in the same state. */
  lemma SnapshotCount(table: Kernel.Table)
    ensures Kernel.BlockedPart(table).Keys == Kernel.BlockedPids(table)
    ensures |Kernel.BlockedPart(table)| == |Kernel.BlockedPids(table)|
  {
    assert |Kernel.BlockedPart(table)| == |Kernel.BlockedPart(table).Keys|;
  }

  /** At most maxEntries blocked PIDs, once each, with the name, the time of the block and the number of
      timestamps of their contexts; if there are fewer, it is all that are blocked. */
  ghost predicate TellsBlocked(report: seq<BlockedEntry>, table: Kernel.Table, maxEntries: nat) {
    && |report| <= maxEntries
    && (forall i :: 0 <= i < |report| ==>
          && report[i].pid in table
          && var context := table[report[i].pid];
          && context.blocked && report[i].image == context.image && report[i].at == context.blockedAt
          && report[i].count == |context.ring|)
    && (forall i, j :: 0 <= i < j < |report| ==> report[i].pid != report[j].pid)
    && (|report| < maxEntries ==>
          forall pid :: pid in table && table[pid].blocked ==> exists i :: 0 <= i < |report| && report[i].pid == pid)
  }

  /** What a report says of the whole table. */
  lemma ReportIsFaithful(report: seq<BlockedEntry>, table: Kernel.Table, maxEntries: nat)
    requires Reports(report, Kernel.BlockedPart(table), maxEntries)
    ensures TellsBlocked(report, table, maxEntries)
  {
    if |report| < maxEntries {
      forall pid | pid in table && table[pid].blocked ensures exists i :: 0 <= i < |report| && report[i].pid == pid {
        assert pid in ReportedPids(report);
      }
    }
  }

  /** In a report made after any run, every entry has the time of the operation that tripped, and the name
      that came with the operation that created the context. */
  lemma {:induction false} ReportHasCause(es: seq<Kernel.Event>, report: seq<BlockedEntry>, maxEntries: nat, i: nat)
    returns (j: nat, k: nat)
    requires Reports(report, Kernel.BlockedPart(Kernel.Run(Kernel.INITIAL, es).table), maxEntries) && i < |report|
    ensures Kernel.Created(Kernel.INITIAL, es, j, report[i].pid) && Kernel.IsCopyOf(report[i].image, es[j].image)
    ensures Kernel.Trip(Kernel.INITIAL, es, k, report[i].pid) && Kernel.Unblock(report[i].pid) !in es[k..]
    ensures report[i].at == es[k].now
  {
    ReportIsFaithful(report, Kernel.Run(Kernel.INITIAL, es).table, maxEntries);
    j := Kernel.NameHasSource(Kernel.INITIAL, es, report[i].pid);
    k := Kernel.BlockHasCause(Kernel.INITIAL, es, report[i].pid);
  }

  /** A walk that ended early filled the buffer; one that did not saw every tracked PID. */
  lemma WholeReport(report: seq<BlockedEntry>, table: Kernel.Table, seen: set<ULong>, maxEntries: nat)
    requires Lists(report, table, seen) && |report| <= maxEntries
    requires |report| < maxEntries ==> seen == table.Keys
    ensures Reports(report, Kernel.BlockedPart(table), maxEntries)
  {
    ReportSize(report);
    SnapshotCount(table);
    assert BlockedAmong(table, seen) <= Kernel.BlockedPids(table);
    Subset(BlockedAmong(table, seen), Kernel.BlockedPids(table));
    assert forall i :: 0 <= i < |report| ==> report[i].pid in ReportedPids(report);
    if |report| < maxEntries {
      assert BlockedAmong(table, table.Keys) == Kernel.BlockedPids(table);
    } else if |Kernel.BlockedPids(table)| <= maxEntries {
      Subset(BlockedAmong(table, seen), Kernel.BlockedPids(table));
    }
  }

  class Tracker {
    const table: ContextTable
    /** The contexts and ring buffers in use, whose ring buffer is whose, and the map itself. */
    ghost var payload: set<object>
    ghost var owner: map<array<Ticks>, ULong>
    ghost var contents: Kernel.Table

    ghost predicate Sane(pid: ULong)
      reads this, table, payload
    {
      pid in table.entries ==>
        && table.entries[pid].record.Some?
        && var context := table.entries[pid].record.value;
        && context in payload && context.operations in payload
        && context.operations in owner && owner[context.operations] == pid
        && context.processId == pid && context.Valid()
        && pid in contents && contents[pid] == context.View()
    }

    ghost predicate Parts()
      reads this, table, table.links, payload
    {
      && table.Valid()
      && contents.Keys == table.entries.Keys
      && forall pid :: Sane(pid)
    }

    /** Quantified so that callers need not unfold it. */
    ghost predicate Valid()
      reads this, table, table.links, payload
    {
      forall t {:trigger t.Parts()} | t in {this} :: t.Parts()
    }

    ghost function Repr(): set<object>
      reads this, table
    {
      {this, table} + table.links + payload
    }

    constructor ()
      ensures Valid() && contents == map[] && fresh(Repr())
    {
      table := new ContextTable();
      payload := {};
      owner := map[];
      contents := map[];
      new;
      EmptyIsSound();
    }

    lemma EmptyIsSound()
      requires table.Valid() && table.entries == map[] && contents == map[]
      ensures Valid()
    {
      assert forall pid :: Sane(pid);
      assert Parts();
    }

    /** RsRemoveProcessContext */
    method Forget(pid: ULong)
      requires Valid()
      modifies Repr()
      ensures Valid() && table.links == old(table.links) && payload == old(payload)
      ensures contents == old(contents) - {pid}
    {
      assert Parts();
      var found := table.Lookup(pid);
      if found != null {
        Drop(found, pid);
      }
    }

    method Drop(entry: Entry, ghost pid: ULong)
      requires Valid() && pid in table.entries && table.entries[pid] == entry
      modifies this`contents, table, table.links
      ensures Valid() && table.links == old(table.links) && contents == old(contents) - {pid}
    {
      assert Parts();
      assert Sane(pid);
      table.Remove(entry);
      contents := contents - {pid};
      forall p ensures Sane(p) {
        assert old(Sane(p));
      }
    }

    /** RecordAndEvaluate on the context of a tracked, unblocked PID. */
    method RecordInto(context: ProcessContext, now: Ticks, config: Kernel.Config)
      returns (notice: Option<Kernel.Notice>)
      requires Valid() && !context.isBlocked
      requires var pid := context.processId;
               pid in table.entries && table.entries[pid].record == Some(context)
      modifies this`contents, context, context.operations
      ensures Valid() && context.processId in old(contents)
      ensures var pid := context.processId;
              && contents == old(contents)[pid := Kernel.Absorb(old(contents)[pid], config, now)]
              && notice == Kernel.NoticeOf(pid, old(contents)[pid], config, now)
    {
      assert Parts();
      assert Sane(context.processId);
      notice := context.RecordAndEvaluate(now, config);
      contents := contents[context.processId := context.View()];
      forall p ensures Sane(p) {
        assert old(Sane(p));
      }
    }

    /** Put a fresh context into the table. */
    method Track(entry: Entry, context: ProcessContext)
      requires Valid() && entry !in table.links && entry.record == Some(context)
      requires context.processId !in contents && context.processId != 0 && context.processId != 4
      requires context.Valid() && context !in payload && context.operations !in payload
      modifies this, table, table.links, entry
      ensures Valid() && table.links == old(table.links) + {entry}
      ensures payload == old(payload) + {context, context.operations}
      ensures contents == old(contents)[context.processId := context.View()]
      ensures table.entries == old(table.entries)[context.processId := entry]
    {
      assert Parts();
      table.Insert(entry);
      forall p | p != context.processId ensures Sane(p) {
        assert old(Sane(p));
      }
      Adopt(entry, context);
    }

    /** Account for a context that the table holds already. */
    ghost method Adopt(entry: Entry, context: ProcessContext)
      requires table.Valid() && table.entries.Keys == contents.Keys + {context.processId}
      requires table.entries[context.processId] == entry && entry.record == Some(context)
      requires context.Valid() && context !in payload && context.operations !in payload
      requires forall p :: p != context.processId ==> Sane(p)
      modifies this
      ensures Valid()
      ensures payload == old(payload) + {context, context.operations}
      ensures contents == old(contents)[context.processId := context.View()]
    {
      payload := payload + {context, context.operations};
      owner := owner[context.operations := context.processId];
      contents := contents[context.processId := context.View()];
      forall p ensures Sane(p) {
        assert p != context.processId ==> old(Sane(p));
      }
    }

    /** The first region of RsRecordOperation: record if the PID is tracked, else report a miss. */
    method RecordIfTracked(pid: ULong, now: Ticks, config: Kernel.Config)
      returns (tracked: bool, block: bool, notice: Option<Kernel.Notice>)
      requires Valid()
      modifies Repr()
      ensures Valid() && table.links == old(table.links) && payload == old(payload)
      ensures tracked == (pid in old(contents))
      ensures tracked ==>
                && contents == Kernel.RecordTable(old(contents), config, pid, None, now)
                && Kernel.Verdict(block, notice) == Kernel.RecordVerdict(old(contents), config, pid, None, now)
      ensures !tracked ==> contents == old(contents)
    {
      assert Parts();
      var found := table.Lookup(pid);
      assert Sane(pid);
      if found == null {
        return false, false, None;
      }
      tracked := true;
      var context := found.record.value;
      if context.isBlocked {
        block, notice := true, None;
      } else {
        notice := RecordInto(context, now, config);
        block := notice.Some?;
      }
    }

    /** The second region: another thread may have created the context meanwhile; if so the fresh one
        is freed, and otherwise it is inserted. Then record. */
    method RecordWith(entry: Entry, context: ProcessContext, ghost image: Option<string>, now: Ticks, config: Kernel.Config)
      returns (block: bool, notice: Option<Kernel.Notice>)
      requires Valid() && entry !in table.links && entry.record == Some(context)
      requires context.processId != 0 && context.processId != 4
      requires context.Valid() && context !in payload && context.operations !in payload
      requires context.View() == Kernel.FreshContext(image)
      modifies Repr(), entry, context, context.operations
      ensures Valid() && table.links <= old(table.links) + {entry}
      ensures payload <= old(payload) + {context, context.operations}
      ensures var pid := context.processId;
              && contents == Kernel.RecordTable(old(contents), config, pid, image, now)
              && Kernel.Verdict(block, notice) == Kernel.RecordVerdict(old(contents), config, pid, image, now)
    {
      assert Parts();
      var tracked;
      tracked, block, notice := RecordIfTracked(context.processId, now, config);
      if !tracked {
        block, notice := Admit(entry, context, image, now, config);
      }
    }

    /** The branch of RsRecordOperation in which its own allocation wins. */
    method Admit(entry: Entry, context: ProcessContext, ghost image: Option<string>, now: Ticks, config: Kernel.Config)
      returns (block: bool, notice: Option<Kernel.Notice>)
      requires Valid() && entry !in table.links && entry.record == Some(context)
      requires context.processId !in contents && context.processId != 0 && context.processId != 4
      requires context.Valid() && context !in payload && context.operations !in payload
      requires context.View() == Kernel.FreshContext(image)
      modifies this, table, table.links, entry, context, context.operations
      ensures Valid() && table.links == old(table.links) + {entry}
      ensures payload == old(payload) + {context, context.operations}
      ensures var pid := context.processId;
              && contents == old(contents)[pid := Kernel.Absorb(Kernel.FreshContext(image), config, now)]
              && notice == Kernel.NoticeOf(pid, Kernel.FreshContext(image), config, now)
              && block == notice.Some?
    {
      Track(entry, context);
      notice := RecordInto(context, now, config);
      block := notice.Some?;
    }

    // ---- Queries --------------------------------------------------------------------------------

    /** The first entry a walk of bucket `b` looks at. */
    function FirstOf(b: nat): (entry: Entry)
      reads this, table, table.links
      requires table.Shape() && b < BUCKET_COUNT
      ensures entry == At(table.buckets[b], table.chains[b], 1)
    {
      assert table.Chained(b);
      assert LinkAt(table.buckets[b], table.chains[b], 0);
      table.buckets[b].flink
    }

    /** What a walk knows when it stands at the k-th entry of bucket `b`. */
    lemma Visit(b: nat, k: nat)
      requires Parts() && b < BUCKET_COUNT && k < |table.chains[b]|
      ensures var entry := table.chains[b][k];
              && entry.record.Some?
              && entry.flink == At(table.buckets[b], table.chains[b], k + 2)
              && var context, seen := entry.record.value, Seen(table.chains, table.entries, b, k);
              && context.Valid() && context.processId in contents
              && contents[context.processId] == context.View()
              && |context.Ring()| == context.operationCount
              && context.processId !in seen
              && Seen(table.chains, table.entries, b, k + 1) == seen + {context.processId}
    {
      var entry := table.chains[b][k];
      assert table.Chained(b);
      assert LinkAt(table.buckets[b], table.chains[b], k + 1);
      SeenStep(table.chains, table.entries, b, k);
      assert Sane(entry.record.value.processId);
    }

    lemma EndOfBucket(b: nat, k: nat)
      requires Parts() && b < BUCKET_COUNT && k <= |table.chains[b]|
      requires At(table.buckets[b], table.chains[b], k + 1) == table.buckets[b]
      ensures Seen(table.chains, table.entries, b, k) == Seen(table.chains, table.entries, b + 1, 0)
    {
      assert table.Chained(b);
      SeenBucket(table.chains, table.entries, b);
    }

    /** RsGetPidCounts */
    method GetPidCounts() returns (tracked: ULong, blocked: nat)
      requires Valid()
      ensures tracked == |contents| && blocked == |Kernel.BlockedPids(contents)|
    {
      assert Parts();
      blocked := 0;
      var b := 0;
      SeenBucket(table.chains, table.entries, 0);
      while b < BUCKET_COUNT
        invariant Parts() && b <= BUCKET_COUNT
        invariant blocked == |BlockedAmong(contents, Seen(table.chains, table.entries, b, 0))|
      {
        blocked := CountBucket(b, blocked);
        b := b + 1;
      }
      SeenBucket(table.chains, table.entries, BUCKET_COUNT);
      assert BlockedAmong(contents, contents.Keys) == Kernel.BlockedPids(contents);
      assert |contents| == |contents.Keys| && |table.entries| == |table.entries.Keys|;
      tracked := table.trackedCount;
    }

    method CountBucket(b: nat, sofar: nat) returns (blocked: nat)
      requires Parts() && b < BUCKET_COUNT
      requires sofar == |BlockedAmong(contents, Seen(table.chains, table.entries, b, 0))|
      ensures blocked == |BlockedAmong(contents, Seen(table.chains, table.entries, b + 1, 0))|
    {
      var listHead := table.buckets[b];
      var entry := FirstOf(b);
      blocked := sofar;
      ghost var k: nat := 0;
      while entry != listHead
        invariant Parts() && k <= |table.chains[b]| && entry == At(listHead, table.chains[b], k + 1)
        invariant blocked == |BlockedAmong(contents, Seen(table.chains, table.entries, b, k))|
        decreases |table.chains[b]| - k
      {
        Visit(b, k);
        OneMoreSeen(contents, Seen(table.chains, table.entries, b, k), entry.record.value.processId);
        if entry.record.value.isBlocked {
          blocked := blocked + 1;
        }
        entry := entry.flink;
        k := k + 1;
      }
      EndOfBucket(b, k);
    }

    /** RsGetBlockedPids: report at most maxEntries blocked PIDs, bucket by bucket. */
    method GetBlockedPids(maxEntries: nat) returns (report: seq<BlockedEntry>)
      requires Valid()
      ensures Reports(report, Kernel.BlockedPart(contents), maxEntries)
    {
      assert Parts();
      report := [];
      var b := 0;
      ghost var seen := {};
      SeenBucket(table.chains, table.entries, 0);
      while b < BUCKET_COUNT && |report| < maxEntries
        invariant Parts() && b <= BUCKET_COUNT
        invariant |report| <= maxEntries && Lists(report, contents, seen)
        invariant |report| < maxEntries ==> seen == Seen(table.chains, table.entries, b, 0)
      {
        report, seen := ReportBucket(b, maxEntries, report);
        b := b + 1;
      }
      SeenBucket(table.chains, table.entries, BUCKET_COUNT);
      WholeReport(report, contents, seen, maxEntries);
    }

    method ReportBucket(b: nat, maxEntries: nat, sofar: seq<BlockedEntry>)
      returns (report: seq<BlockedEntry>, ghost seen: set<ULong>)
      requires Parts() && b < BUCKET_COUNT && |sofar| < maxEntries
      requires Lists(sofar, contents, Seen(table.chains, table.entries, b, 0))
      ensures |report| <= maxEntries && Lists(report, contents, seen)
      ensures |report| < maxEntries ==> seen == Seen(table.chains, table.entries, b + 1, 0)
    {
      var listHead := table.buckets[b];
      var entry := FirstOf(b);
      report := sofar;
      ghost var k: nat := 0;
      while entry != listHead && |report| < maxEntries
        invariant Parts() && k <= |table.chains[b]| && entry == At(listHead, table.chains[b], k + 1)
        invariant |report| <= maxEntries && Lists(report, contents, Seen(table.chains, table.entries, b, k))
        decreases |table.chains[b]| - k
      {
        Visit(b, k);
        var context := entry.record.value;
        OneMoreSeen(contents, Seen(table.chains, table.entries, b, k), context.processId);
        if context.isBlocked {
          ReportGrows(report, contents, Seen(table.chains, table.entries, b, k), context.processId);
          report := report + [BlockedEntry(context.processId, context.imageName, context.blockedTimestamp,
                                           context.operationCount)];
        }
        entry := entry.flink;
        k := k + 1;
      }
      seen := Seen(table.chains, table.entries, b, k);
      if entry == listHead {
        EndOfBucket(b, k);
      }
    }

    /** RsDestroyContextTracking, with no call in flight. */
    method Destroy()
      requires Valid()
      modifies this, table, table.links
      ensures Valid() && contents == map[] && table.links == old(table.links) && payload == old(payload)
    {
      assert Parts();
      ghost var freed := table.Destroy();
      contents := map[];
      assert forall pid :: Sane(pid);
    }
  }
}
