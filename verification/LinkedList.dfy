/** LIST_ENTRY chains: intrusive circular doubly linked lists, with the list they stand for as
    a ghost sequence. Every list operation here is the pointer surgery of the Windows macro. */
module LinkedList {
  import opened Base

  /** A LIST_ENTRY: a bare list head, or the first field of a record. Being the first field it has
      the record's own address, so an entry with a record stands for the pointer to that record. */
  class ListEntry<T> {
    var flink: ListEntry<T>
    var blink: ListEntry<T>
    /** What CONTAINING_RECORD recovers from the address of the entry. */
    const record: Option<T>

    /** InitializeListHead */
    constructor (record: Option<T>)
      ensures flink == this && blink == this && this.record == record
    {
      flink := this;
      blink := this;
      this.record := record;
    }
  }

  /** Position 0 and position |list| + 1 of the ring are both the head. */
  ghost function At<T>(head: ListEntry<T>, list: seq<ListEntry<T>>, k: nat): ListEntry<T> {
    if 1 <= k <= |list| then list[k - 1] else head
  }

  ghost predicate LinkAt<T>(head: ListEntry<T>, list: seq<ListEntry<T>>, k: nat)
    reads head, list
  {
    At(head, list, k).flink == At(head, list, k + 1) && At(head, list, k + 1).blink == At(head, list, k)
  }

  /** The entries reachable from `head` are exactly `list`, once each, and both directions agree. */
  ghost predicate Linked<T>(head: ListEntry<T>, list: seq<ListEntry<T>>)
    reads head, list
  {
    && head !in list
    && (forall i, j :: 0 <= i < j < |list| ==> list[i] != list[j])
    && (forall k: nat :: k <= |list| ==> LinkAt(head, list, k))
  }

  method InsertHeadList<T>(head: ListEntry<T>, entry: ListEntry<T>, ghost list: seq<ListEntry<T>>)
    requires Linked(head, list) && entry != head && entry !in list
    modifies head, list, entry
    ensures Linked(head, [entry] + list)
  {
    assert LinkAt(head, list, 0);
    var first := head.flink;
    entry.flink := first;
    entry.blink := head;
    first.blink := entry;
    head.flink := entry;
    ghost var longer := [entry] + list;
    forall k: nat | k <= |longer| ensures LinkAt(head, longer, k) {
      if k >= 2 {
        assert old(LinkAt(head, list, k - 1));
      }
    }
  }

  method RemoveEntryList<T>(entry: ListEntry<T>, ghost head: ListEntry<T>, ghost list: seq<ListEntry<T>>, ghost i: nat)
    requires Linked(head, list) && i < |list| && list[i] == entry
    modifies head, list
    ensures Linked(head, list[..i] + list[i + 1..])
  {
    assert LinkAt(head, list, i) && LinkAt(head, list, i + 1);
    var next, previous := entry.flink, entry.blink;
    previous.flink := next;
    next.blink := previous;
    ghost var shorter := list[..i] + list[i + 1..];
    forall k: nat | k <= |shorter| ensures LinkAt(head, shorter, k) {
      if k < i {
        assert old(LinkAt(head, list, k));
      } else if k > i {
        assert old(LinkAt(head, list, k + 1));
      }
    }
  }

  method RemoveHeadList<T>(head: ListEntry<T>, ghost list: seq<ListEntry<T>>) returns (entry: ListEntry<T>)
    requires Linked(head, list) && list != []
    modifies head, list
    ensures entry == list[0] && Linked(head, list[1..])
  {
    assert LinkAt(head, list, 0) && LinkAt(head, list, 1);
    entry := head.flink;
    var next := entry.flink;
    head.flink := next;
    next.blink := head;
    ghost var rest := list[1..];
    forall k: nat | k <= |rest| ensures LinkAt(head, rest, k) {
      assert old(LinkAt(head, list, k + 1));
    }
  }
}
