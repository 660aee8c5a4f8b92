/** g_ContextHashTable: 1021 buckets of LIST_ENTRY chains that together stand for a map from PID
    to context. */
module ContextTables {
  import opened Base
  import opened LinkedList
  import opened ProcessContexts

  type Entry = ListEntry<ProcessContext>

  /** RsHashProcessId */
  function HashProcessId(pid: ULong): (bucket: nat)
    ensures bucket < BUCKET_COUNT
  {
    pid % BUCKET_COUNT
  }

  /** PIDs are multiples of 4. Of any 1021 of them in a row no two share a bucket. */
  lemma {:induction false} HashSpreads(m: nat, n: nat)
    requires m < n < m + 1021 && 4 * n < ULONG_RANGE
    ensures HashProcessId(4 * m) != HashProcessId(4 * n)
  {
  }

  // ---- Placement of the contexts: facts that no pointer update can change ----------------

  ghost predicate IsHead(buckets: seq<Entry>, i: nat) {
    i < |buckets| ==> buckets[i].record == None && forall j :: 0 <= j < i ==> buckets[j] != buckets[i]
  }

  ghost predicate Heads(buckets: seq<Entry>) {
    |buckets| == BUCKET_COUNT && forall i: nat :: IsHead(buckets, i)
  }

  /** `entry` is the tracked context of a PID that hashes to bucket `i`. */
  ghost predicate Holds(entries: map<ULong, Entry>, i: nat, entry: Entry) {
    && entry.record.Some?
    && var pid := entry.record.value.processId;
    && HashProcessId(pid) == i && pid in entries && entries[pid] == entry
  }

  ghost predicate BucketHolds(chains: seq<seq<Entry>>, entries: map<ULong, Entry>, i: nat) {
    i < |chains| ==> forall e :: e in chains[i] ==> Holds(entries, i, e)
  }

  ghost predicate Placed(chains: seq<seq<Entry>>, entries: map<ULong, Entry>, pid: ULong) {
    pid in entries ==>
      && entries[pid].record.Some?
      && entries[pid].record.value.processId == pid
      && |chains| == BUCKET_COUNT
      && entries[pid] in chains[HashProcessId(pid)]
  }

  /** Each context sits in the bucket its PID hashes to, and nothing else does. */
  ghost predicate Located(chains: seq<seq<Entry>>, entries: map<ULong, Entry>) {
    && |chains| == BUCKET_COUNT
    && (forall i: nat :: BucketHolds(chains, entries, i))
    && (forall pid :: Placed(chains, entries, pid))
    && 0 !in entries && 4 !in entries
  }

  lemma LocatedAfterInsert(chains: seq<seq<Entry>>, entries: map<ULong, Entry>, pid: ULong, entry: Entry)
    requires Located(chains, entries) && pid !in entries && pid != 0 && pid != 4
    requires entry.record.Some? && entry.record.value.processId == pid
    ensures var b := HashProcessId(pid);
            Located(chains[b := [entry] + chains[b]], entries[pid := entry])
  {
    var b := HashProcessId(pid);
    var chains', entries' := chains[b := [entry] + chains[b]], entries[pid := entry];
    forall i: nat ensures BucketHolds(chains', entries', i) {
      assert BucketHolds(chains, entries, i);
    }
    forall p ensures Placed(chains', entries', p) {
      assert Placed(chains, entries, p);
    }
  }

  lemma LocatedAfterRemove(chains: seq<seq<Entry>>, entries: map<ULong, Entry>, pid: ULong, k: nat)
    requires Located(chains, entries) && pid in entries
    requires var chain := chains[HashProcessId(pid)];
             k < |chain| && chain[k] == entries[pid] && forall i, j :: 0 <= i < j < |chain| ==> chain[i] != chain[j]
    ensures var b := HashProcessId(pid);
            Located(chains[b := chains[b][..k] + chains[b][k + 1..]], entries - {pid})
  {
    var b := HashProcessId(pid);
    var chain := chains[b];
    var shorter := chain[..k] + chain[k + 1..];
    var chains', entries' := chains[b := shorter], entries - {pid};
    assert forall e :: e in shorter <==> e in chain && e != chain[k] by {
      assert chain == chain[..k] + [chain[k]] + chain[k + 1..];
    }
    forall i: nat ensures BucketHolds(chains', entries', i) {
      assert BucketHolds(chains, entries, i);
      assert Placed(chains, entries, pid);
    }
    forall p ensures Placed(chains', entries', p) {
      assert Placed(chains, entries, p) && Placed(chains, entries, pid);
    }
  }

  /** Contexts in different buckets are different because their PIDs hash differently. */
  lemma BucketsApart(buckets: seq<Entry>, chains: seq<seq<Entry>>, entries: map<ULong, Entry>, b: nat, j: nat)
    requires Heads(buckets) && Located(chains, entries) && b < BUCKET_COUNT && j < BUCKET_COUNT && b != j
    ensures buckets[j] != buckets[b] && buckets[j] !in chains[b]
    ensures forall e :: e in chains[j] ==> e !in chains[b] && e != buckets[b]
  {
    assert IsHead(buckets, b) && IsHead(buckets, j);
    assert BucketHolds(chains, entries, b) && BucketHolds(chains, entries, j);
  }

  /** Of all the entries, those in `freed` were freed, once each, and the others are kept. */
  ghost predicate FreedOrKept(freed: seq<Entry>, kept: set<Entry>, all: set<Entry>) {
    && (forall i, j :: 0 <= i < j < |freed| ==> freed[i] != freed[j])
    && (forall e :: e in freed ==> e !in kept)
    && (set e | e in freed) + kept == all
  }

  lemma FreeOne(freed: seq<Entry>, kept: set<Entry>, all: set<Entry>, entry: Entry)
    requires FreedOrKept(freed, kept + {entry}, all) && entry !in kept
    ensures FreedOrKept(freed + [entry], kept, all)
  {
    assert (set e | e in freed + [entry]) == (set e | e in freed) + {entry};
  }

  lemma OneEntryLess(chains: seq<seq<Entry>>, entries: map<ULong, Entry>, pid: ULong)
    requires Located(chains, entries) && pid in entries
    ensures entries[pid] !in (entries - {pid}).Values
    ensures entries.Values == (entries - {pid}).Values + {entries[pid]}
  {
    assert forall p :: p in entries ==> Placed(chains, entries, p);
    forall e | e in entries.Values && e != entries[pid] ensures e in (entries - {pid}).Values {
      var p :| p in entries && entries[p] == e;
      assert p in entries - {pid} && (entries - {pid})[p] == e;
    }
  }

  class ContextTable {
    const buckets: seq<Entry>
    var trackedCount: ULong
    /** The entries of each bucket in list order, and the map they stand for. */
    ghost var chains: seq<seq<Entry>>
    ghost var entries: map<ULong, Entry>
    /** Every link object the table has ever been made of. */
    ghost var links: set<Entry>

    ghost predicate Chained(i: nat)
      reads this, links
    {
      i < |buckets| && i < |chains| ==>
        && buckets[i] in links && (forall e :: e in chains[i] ==> e in links)
        && Linked(buckets[i], chains[i])
    }

    ghost predicate Shape()
      reads this, links
    {
      Heads(buckets) && Located(chains, entries) && forall i: nat :: Chained(i)
    }

    ghost predicate Valid()
      reads this, links
    {
      Shape() && trackedCount == |entries|
    }

    /** RsInitializeContextTracking */
    constructor ()
      ensures Valid() && entries == map[] && fresh(links)
    {
      var heads: seq<Entry> := [];
      while |heads| < BUCKET_COUNT
        invariant |heads| <= BUCKET_COUNT
        invariant forall i :: 0 <= i < |heads| ==> fresh(heads[i]) && heads[i].flink == heads[i] == heads[i].blink
        invariant forall i: nat :: IsHead(heads, i)
      {
        var head := new ListEntry<ProcessContext>(None);
        ghost var was := heads;
        heads := heads + [head];
        assert forall i: nat :: IsHead(was, i) ==> IsHead(heads, i);
      }
      buckets := heads;
      trackedCount := 0;
      chains := seq(BUCKET_COUNT, _ => []);
      entries := map[];
      links := set e | e in heads;
      new;
      forall i: nat ensures Chained(i) {
        if i < BUCKET_COUNT {
          assert LinkAt(buckets[i], chains[i], 0);
        }
      }
    }

    /** RsLookupProcessContext */
    method Lookup(pid: ULong) returns (found: ListEntry?<ProcessContext>)
      requires Shape()
      ensures found == if pid in entries then entries[pid] else null
    {
      var b := HashProcessId(pid);
      var listHead := buckets[b];
      ghost var chain := chains[b];
      assert Chained(b) && BucketHolds(chains, entries, b);
      assert LinkAt(listHead, chain, 0);
      var entry := listHead.flink;
      ghost var k: nat := 0;
      while entry != listHead
        invariant k <= |chain| && entry == At(listHead, chain, k + 1)
        invariant pid in entries ==> entries[pid] !in chain[..k]
        decreases |chain| - k
      {
        assert Holds(entries, b, chain[k]);
        if entry.record.value.processId == pid {
          return entry;
        }
        assert LinkAt(listHead, chain, k + 1);
        entry := entry.flink;
        k := k + 1;
      }
      assert Placed(chains, entries, pid);
      assert chain[..k] == chain;
      found := null;
    }

    // ---- Insertion and removal ---------------------------------------------------------------

    /** A change confined to bucket `b` and to entries outside the table leaves the other chains. */
    twostate lemma OthersStillChained(b: nat)
      requires old(Shape()) && unchanged(this) && b < BUCKET_COUNT
      requires forall e :: e in links && e != buckets[b] && e !in chains[b] ==> unchanged(e)
      ensures forall j: nat :: j != b ==> Chained(j)
    {
      forall j: nat | j != b ensures Chained(j) {
        assert old(Chained(j));
        if j < BUCKET_COUNT {
          BucketsApart(buckets, chains, entries, b, j);
          var head, chain := buckets[j], chains[j];
          forall k: nat | k <= |chain| ensures LinkAt(head, chain, k) {
            assert old(LinkAt(head, chain, k));
            assert At(head, chain, k) in chain + [head] && At(head, chain, k + 1) in chain + [head];
          }
        }
      }
    }

    method InsertIntoBucket(b: nat, entry: Entry)
      requires Shape() && b < BUCKET_COUNT && entry !in links
      modifies links, entry
      ensures Linked(buckets[b], [entry] + chains[b])
      ensures forall j: nat :: j != b ==> Chained(j)
    {
      assert Chained(b);
      InsertHeadList(buckets[b], entry, chains[b]);
      OthersStillChained(b);
    }

    method RemoveFromBucket(ghost b: nat, entry: Entry, ghost k: nat)
      requires Shape() && b < BUCKET_COUNT && k < |chains[b]| && chains[b][k] == entry
      modifies links
      ensures Linked(buckets[b], chains[b][..k] + chains[b][k + 1..])
      ensures forall j: nat :: j != b ==> Chained(j)
    {
      assert Chained(b);
      RemoveEntryList(entry, buckets[b], chains[b], k);
      OthersStillChained(b);
    }

    /** InsertHeadList on the bucket of a context that is not tracked yet, and count it. */
    method Insert(entry: Entry)
      requires Valid() && entry !in links
      requires entry.record.Some?
      requires var pid := entry.record.value.processId; pid !in entries && pid != 0 && pid != 4
      modifies this, links, entry
      ensures Valid() && entries == old(entries)[entry.record.value.processId := entry]
      ensures links == old(links) + {entry}
    {
      var pid := entry.record.value.processId;
      var b := HashProcessId(pid);
      CountFits();
      assert Chained(b);
      LocatedAfterInsert(chains, entries, pid, entry);
      InsertIntoBucket(b, entry);
      label linked:
      chains := chains[b := [entry] + chains[b]];
      entries := entries[pid := entry];
      links := links + {entry};
      trackedCount := (trackedCount + 1) % ULONG_RANGE;
      forall j: nat ensures Chained(j) {
        assert j != b ==> old@linked(Chained(j));
      }
    }

    /** RemoveEntryList on a tracked context; the map forgets its PID. */
    method Unlink(entry: Entry)
      requires Shape() && entry in entries.Values
      modifies this`chains, this`entries, links
      ensures Shape() && links == old(links)
      ensures entry.record.Some?
      ensures var pid := entry.record.value.processId;
              pid in old(entries) && old(entries)[pid] == entry && entries == old(entries) - {pid}
    {
      ghost var pid :| pid in entries && entries[pid] == entry;
      assert Placed(chains, entries, pid);
      ghost var b := HashProcessId(pid);
      ghost var k :| 0 <= k < |chains[b]| && chains[b][k] == entry;
      assert Chained(b);
      LocatedAfterRemove(chains, entries, pid, k);
      RemoveFromBucket(b, entry, k);
      label linked:
      chains := chains[b := chains[b][..k] + chains[b][k + 1..]];
      entries := entries - {pid};
      forall j: nat ensures Chained(j) {
        assert j != b ==> old@linked(Chained(j));
      }
    }

    /** RsRemoveProcessContext, its context being tracked. */
    method Remove(entry: Entry)
      requires Valid() && entry in entries.Values
      modifies this, links
      ensures Valid() && links == old(links)
      ensures entry.record.Some? && entries == old(entries) - {entry.record.value.processId}
    {
      CountFits();
      Unlink(entry);
      assert old(entries) == entries[entry.record.value.processId := entry];
      label unlinked:
      trackedCount := (trackedCount + ULONG_RANGE - 1) % ULONG_RANGE;
      forall j: nat ensures Chained(j) {
        assert old@unlinked(Chained(j));
      }
    }

    // ---- Teardown ------------------------------------------------------------------------------

    /** RemoveHeadList on a non-empty bucket. */
    method TakeFirst(b: nat) returns (entry: Entry)
      requires Shape() && b < BUCKET_COUNT && chains[b] != []
      modifies this`chains, this`entries, links
      ensures Shape() && links == old(links) && chains == old(chains)[b := old(chains)[b][1..]]
      ensures entry !in entries.Values && old(entries).Values == entries.Values + {entry}
    {
      ghost var chain := chains[b];
      assert Chained(b) && BucketHolds(chains, entries, b);
      assert chain[0] in chain && Holds(entries, b, chain[0]);
      ghost var pid := chain[0].record.value.processId;
      LocatedAfterRemove(chains, entries, pid, 0);
      OneEntryLess(chains, entries, pid);
      assert chain[..0] + chain[1..] == chain[1..];
      entry := RemoveHeadList(buckets[b], chains[b]);
      assert entry == chain[0];
      OthersStillChained(b);
      label unlinked:
      chains := chains[b := chain[1..]];
      entries := entries - {pid};
      forall j: nat ensures Chained(j) {
        assert j != b ==> old@unlinked(Chained(j));
      }
    }

    /** IsListEmpty: the head points to itself. */
    lemma EmptyIffSelfLinked(b: nat)
      requires Shape() && b < BUCKET_COUNT
      ensures buckets[b].flink == buckets[b] <==> chains[b] == []
    {
      assert Chained(b);
      assert LinkAt(buckets[b], chains[b], 0);
    }

    /** Free every context of bucket `b`; `freed` has those of the buckets before it. */
    method EmptyBucket(b: nat, ghost freed: seq<Entry>, ghost all: set<Entry>) returns (ghost freed': seq<Entry>)
      requires Shape() && b < BUCKET_COUNT && FreedOrKept(freed, entries.Values, all)
      modifies this`chains, this`entries, links
      ensures Shape() && links == old(links) && FreedOrKept(freed', entries.Values, all)
      ensures chains == old(chains)[b := []]
    {
      freed' := freed;
      EmptyIffSelfLinked(b);
      while buckets[b].flink != buckets[b]
        invariant Shape() && links == old(links) && FreedOrKept(freed', entries.Values, all)
        invariant chains == old(chains)[b := chains[b]]
        invariant buckets[b].flink == buckets[b] <==> chains[b] == []
        decreases |chains[b]|
      {
        var entry := TakeFirst(b);
        FreeOne(freed', entries.Values, all, entry);
        freed' := freed' + [entry];
        EmptyIffSelfLinked(b);
      }
    }

    /** RsDestroyContextTracking: free every context, once, and leave every bucket empty. */
    method Destroy() returns (ghost freed: seq<Entry>)
      requires Valid()
      modifies this, links
      ensures Valid() && links == old(links) && entries == map[]
      ensures FreedOrKept(freed, {}, old(entries).Values)
    {
      freed := [];
      ghost var all := entries.Values;
      for b := 0 to BUCKET_COUNT
        invariant Shape() && links == old(links) && FreedOrKept(freed, entries.Values, all)
        invariant forall j :: 0 <= j < b ==> chains[j] == []
      {
        freed := EmptyBucket(b, freed, all);
      }
      label emptied:
      trackedCount := 0;
      forall j: nat ensures Chained(j) {
        assert old@emptied(Chained(j));
      }
      forall pid ensures pid !in entries {
        assert Placed(chains, entries, pid);
      }
    }

    lemma CountFits()
      requires Located(chains, entries)
      ensures |entries| <= ULONG_RANGE - 2
    {
      assert |entries| == |entries.Keys|;
      BoundedSet(entries.Keys + {0, 4}, ULONG_RANGE);
    }
  }
}
