/** The client side of the port (usermode/common/CommManager.cpp): filling request buffers, sending
    them, and replacing the driver's allowlist by a clear followed by one full upload or by chunks. */
module CommManagers {
  import opened Base
  import opened Allowlist
  import opened CommPort
  import Dispatcher
  import Drivers
  import Kernel

  // ---- What a push means --------------------------------------------------------------------

  /** What survives wcsncpy_s(..., _TRUNCATE): the text before the first NUL, at most 259 characters. */
  function Truncated(entry: string): string {
    First(CString(entry), MAX_NAME)
  }

  function AllTruncated(entries: seq<string>): seq<string> {
    seq(|entries|, i requires 0 <= i < |entries| => Truncated(entries[i]))
  }

  /** The allowlist a push of `entries` asks for: the first 128 non-empty truncated names, in order. */
  function Pushed(entries: seq<string>): seq<string> {
    First(NonEmpty(AllTruncated(entries)), MAX_ALLOWLIST_ENTRIES)
  }

  /** wcsncpy_s into a zeroed row. */
  function FilledRow(entry: string): (row: NameBuffer)
    ensures Scanned(row) == Truncated(entry)
  {
    var text := Truncated(entry);
    var row: NameBuffer := text + seq(MAX_NAME + 1 - |text|, _ => NUL);
    CStringIsNulFreePrefix(entry);
    TruncatedIsNulFree(entry);
    ScanOfPadded(text, row);
    row
  }

  lemma TruncatedIsNulFree(entry: string)
    ensures NUL !in Truncated(entry) && |Truncated(entry)| <= MAX_NAME
  {
    CStringIsNulFreePrefix(entry);
  }

  /** It is the longest prefix of at most 259 characters without a NUL. */
  lemma TruncatedIsPrefix(entry: string)
    ensures Truncated(entry) <= entry && NUL !in Truncated(entry) && |Truncated(entry)| <= 259
    ensures |Truncated(entry)| == 259 || Truncated(entry) == entry || entry[|Truncated(entry)|] == NUL
  {
    CStringIsNulFreePrefix(entry);
    TruncatedIsNulFree(entry);
  }

  lemma ScanOfPadded(text: string, row: NameBuffer)
    requires |text| <= MAX_NAME && NUL !in text && row == text + seq(MAX_NAME + 1 - |text|, _ => NUL)
    ensures Scanned(row) == text
  {
    var scanned := row[..MAX_NAME];
    if |text| == MAX_NAME {
      assert scanned == text;
      CStringOfNulFree(text, []);
    } else {
      assert scanned == text + [NUL] + scanned[|text| + 1..];
      CStringOfNulFree(text, scanned[|text| + 1..]);
    }
  }

  lemma NonEmptySnoc(names: seq<string>, last: string)
    ensures NonEmpty(names + [last]) == NonEmpty(names) + if last == [] then [] else [last]
  {
    assert (names + [last])[..|names|] == names;
  }

  lemma {:induction false} NonEmptyConcat(a: seq<string>, b: seq<string>)
    ensures NonEmpty(a + b) == NonEmpty(a) + NonEmpty(b)
  {
    if b == [] {
      assert a + b == a;
    } else {
      var front, last := b[..|b| - 1], b[|b| - 1];
      NonEmptyConcat(a, front);
      NonEmptySnoc(a + front, last);
      NonEmptySnoc(front, last);
      assert a + b == a + front + [last] && b == front + [last];
    }
  }

  /** Pushing one more stretch of entries continues where the earlier stretches stopped. */
  lemma PushedContinues(entries: seq<string>, from: nat, to: nat)
    requires from <= to <= |entries|
    ensures First(Pushed(entries[..from]) + NonEmpty(AllTruncated(entries[from..to])), MAX_ALLOWLIST_ENTRIES)
         == Pushed(entries[..to])
  {
    assert AllTruncated(entries[..to]) == AllTruncated(entries[..from]) + AllTruncated(entries[from..to]);
    NonEmptyConcat(AllTruncated(entries[..from]), AllTruncated(entries[from..to]));
    var a, b := NonEmpty(AllTruncated(entries[..from])), NonEmpty(AllTruncated(entries[from..to]));
    if |a| > MAX_ALLOWLIST_ENTRIES {
      assert First(First(a, MAX_ALLOWLIST_ENTRIES) + b, MAX_ALLOWLIST_ENTRIES) == a[..MAX_ALLOWLIST_ENTRIES];
      assert First(a + b, MAX_ALLOWLIST_ENTRIES) == a[..MAX_ALLOWLIST_ENTRIES];
    }
  }

  lemma NothingPushed(entries: seq<string>)
    ensures Pushed(entries[..0]) == [] && Pushed(entries[..|entries|]) == Pushed(entries)
  {
    assert entries[..|entries|] == entries;
    assert AllTruncated(entries[..0]) == [];
  }

  /** The list an interrupted push leaves behind. */
  ghost predicate PushedPrefix(names: seq<string>, entries: seq<string>) {
    exists k :: 0 <= k <= |entries| && names == Pushed(entries[..k])
  }

  // ---- Serving an upload ----------------------------------------------------------------------

  ghost predicate OnlyNamesDiffer(s: Kernel.State, t: Kernel.State) {
    t.config == s.config && t.table == s.table
  }

  const BLANK_CHUNK: seq<NameBuffer> := seq(MAX_ALLOWLIST_CHUNK, _ => BLANK)
  const BLANK_FULL: seq<NameBuffer> := seq(MAX_ALLOWLIST_ENTRIES, _ => BLANK)

  /** What becomes of a message: it may not arrive, or arrive and its reply be lost. */
  datatype Fate = Arrives | NeverArrives | ReplyLost

  const ZERO_REQUEST := Request(HEADER_SIZE, ClearAllowlist, HEADER_SIZE, 0, 0, 0, false, Upload(0, BLANK_CHUNK), Upload(0, BLANK_FULL))

  class CommManager {
    var sequenceNumber: ULong
    const driver: Drivers.Driver

    constructor (driver: Drivers.Driver)
      ensures this.driver == driver && sequenceNumber == 0
    {
      this.driver := driver;
      sequenceNumber := 0;
    }

    /** SendRequest: FilterSendMessage succeeds iff the message arrives, is accepted and answered. */
    method SendRequest(request: Request, output: ULong, fate: Fate) returns (succeeded: bool, reply: Reply)
      requires driver.Valid() && this !in driver.Objects() && WellTyped(request)
      modifies this, driver.Objects()
      ensures driver.Valid() && driver.Objects() == old(driver.Objects())
      ensures succeeded <==> fate == Arrives && Validate(Some(request), Some(output)) == Ok
      ensures succeeded ==> Answers(reply, old(driver.State()), request)
      ensures driver.State() == if fate == NeverArrives then old(driver.State())
                                else Served(old(driver.State()), Some(request), Some(output))
      ensures sequenceNumber == (old(sequenceNumber) + 1) % ULONG_RANGE
    {
      sequenceNumber := (sequenceNumber + 1) % ULONG_RANGE;
      reply := NoReply;
      if fate == NeverArrives {
        return false, reply;
      }
      var response := Dispatcher.MessageNotify(driver, Some(request), Some(output));
      reply := response.reply;
      succeeded := fate == Arrives && response.status == Ok;
    }

    /** CommManager::UpdateConfig */
    method UpdateConfig(threshold: ULong, seconds: ULong, monitoring: bool, fate: Fate) returns (succeeded: bool)
      requires driver.Valid() && this !in driver.Objects()
      modifies this, driver.Objects()
      ensures driver.Valid() && driver.Objects() == old(driver.Objects())
      ensures succeeded <==> fate == Arrives
      ensures driver.State().names == old(driver.State().names) && driver.State().table == old(driver.State().table)
      ensures driver.State().config == if fate == NeverArrives then old(driver.State().config)
                                       else Kernel.Configured(old(driver.State().config), threshold, seconds, monitoring)
    {
      RunTwo(driver.State(), Kernel.Configure(threshold, seconds, monitoring), Kernel.TakeNumber);
      var size := PayloadSize(MessageType.UpdateConfig);
      var request := ZERO_REQUEST.(kind := MessageType.UpdateConfig, length := size, messageSize := size, threshold := threshold,
                                   seconds := seconds, monitoring := monitoring);
      var reply;
      succeeded, reply := SendRequest(request, ReplySize(MessageType.UpdateConfig), fate);
    }

    /** CommManager::QueryAllowlist */
    method QueryAllowlist(fate: Fate) returns (succeeded: bool, names: seq<string>)
      requires driver.Valid() && this !in driver.Objects()
      modifies this, driver.Objects()
      ensures driver.Valid() && driver.Objects() == old(driver.Objects())
      ensures succeeded <==> fate == Arrives
      ensures succeeded ==> names == old(driver.State().names)
      ensures driver.State().names == old(driver.State().names) && OnlyNamesDiffer(old(driver.State()), driver.State())
    {
      RunOne(driver.State(), Kernel.ReadNames);
      var reply;
      succeeded, reply := SendRequest(ZERO_REQUEST.(kind := MessageType.QueryAllowlist), ReplySize(MessageType.QueryAllowlist), fate);
      names := if succeeded then reply.names else [];
    }

    /** Step 1 of PushAllowlist. */
    method SendClear(fate: Fate) returns (succeeded: bool)
      requires driver.Valid() && this !in driver.Objects()
      modifies this, driver.Objects()
      ensures driver.Valid() && driver.Objects() == old(driver.Objects())
      ensures succeeded <==> fate == Arrives
      ensures OnlyNamesDiffer(old(driver.State()), driver.State())
      ensures driver.State().names == if fate == NeverArrives then old(driver.State().names) else []
    {
      ghost var s := driver.State();
      RunTwo(s, Kernel.ClearNames, Kernel.TakeNumber);
      var reply;
      succeeded, reply := SendRequest(ZERO_REQUEST, ReplySize(ClearAllowlist), fate);
    }

    /** Send the first n of the filled rows, as a full upload or as a chunk. */
    method SendUpload(kind: MessageType, rows: seq<NameBuffer>, n: nat, fate: Fate) returns (succeeded: bool)
      requires driver.Valid() && this !in driver.Objects() && |driver.State().names| <= MAX_ALLOWLIST_ENTRIES
      requires (kind == UpdateAllowlistFull && |rows| == MAX_ALLOWLIST_ENTRIES)
            || (kind == UpdateAllowlistChunk && |rows| == MAX_ALLOWLIST_CHUNK)
      requires n <= |rows|
      modifies this, driver.Objects()
      ensures driver.Valid() && driver.Objects() == old(driver.Objects())
      ensures succeeded <==> fate == Arrives
      ensures OnlyNamesDiffer(old(driver.State()), driver.State())
      ensures var was := old(driver.State().names);
              driver.State().names == if fate == NeverArrives then was
                                      else First(was + NonEmpty(ScannedRows(rows, n)), MAX_ALLOWLIST_ENTRIES)
    {
      ghost var s := driver.State();
      UploadServed(s, rows, n);
      var upload := Upload(n, rows);
      var size := PayloadSize(kind);
      var request := if kind == UpdateAllowlistFull
                     then ZERO_REQUEST.(kind := kind, length := size, messageSize := size, full := upload)
                     else ZERO_REQUEST.(kind := kind, length := size, messageSize := size, chunk := upload);
      var reply;
      succeeded, reply := SendRequest(request, ReplySize(kind), fate);
    }

    /** The filling loop: copy entries[from..to] into the rows of a zeroed request. */
    static method FillRows(blank: seq<NameBuffer>, entries: seq<string>, from: nat, to: nat) returns (rows: seq<NameBuffer>)
      requires from <= to <= |entries| && to - from <= |blank|
      ensures |rows| == |blank| && ScannedRows(rows, to - from) == AllTruncated(entries[from..to])
    {
      rows := blank;
      for i := from to to
        invariant |rows| == |blank|
        invariant forall j :: from <= j < i ==> Scanned(rows[j - from]) == Truncated(entries[j])
      {
        rows := rows[i - from := FilledRow(entries[i])];
      }
    }

    /** CommManager::PushAllowlist, each message meeting the fate that `fates` gives it. On success the
        driver lists exactly the pushed names; on failure it has its old list or that of a prefix. */
    method PushAllowlist(entries: seq<string>, fates: nat -> Fate) returns (succeeded: bool)
      requires driver.Valid() && this !in driver.Objects()
      modifies this, driver.Objects()
      ensures driver.Valid() && driver.Objects() == old(driver.Objects())
      ensures OnlyNamesDiffer(old(driver.State()), driver.State())
      ensures succeeded ==> driver.State().names == Pushed(entries)
      ensures driver.State().names == old(driver.State().names) || PushedPrefix(driver.State().names, entries)
      ensures (forall i :: fates(i) == Arrives) ==> succeeded
    {
      NothingPushed(entries);
      succeeded := SendClear(fates(0));
      if succeeded {
        succeeded := PushEntries(entries, fates);
      }
    }

    /** Step 2: one full upload if the list fits, chunks otherwise. */
    method PushEntries(entries: seq<string>, fates: nat -> Fate) returns (succeeded: bool)
      requires driver.Valid() && this !in driver.Objects() && driver.State().names == []
      modifies this, driver.Objects()
      ensures driver.Valid() && driver.Objects() == old(driver.Objects())
      ensures OnlyNamesDiffer(old(driver.State()), driver.State())
      ensures succeeded ==> driver.State().names == Pushed(entries)
      ensures PushedPrefix(driver.State().names, entries)
      ensures (forall i :: fates(i) == Arrives) ==> succeeded
    {
      if |entries| <= MAX_ALLOWLIST_ENTRIES {
        NothingPushed(entries);
        var rows := FillRows(BLANK_FULL, entries, 0, |entries|);
        PushedContinues(entries, 0, |entries|);
        succeeded := SendUpload(UpdateAllowlistFull, rows, |entries|, fates(1));
      } else {
        succeeded := PushChunks(entries, fates);
      }
    }

    /** The chunked branch: ceiling division into chunks of 32. */
    method PushChunks(entries: seq<string>, fates: nat -> Fate) returns (succeeded: bool)
      requires driver.Valid() && this !in driver.Objects() && driver.State().names == []
      modifies this, driver.Objects()
      ensures driver.Valid() && driver.Objects() == old(driver.Objects())
      ensures OnlyNamesDiffer(old(driver.State()), driver.State())
      ensures succeeded ==> driver.State().names == Pushed(entries)
      ensures PushedPrefix(driver.State().names, entries)
      ensures (forall i :: fates(i) == Arrives) ==> succeeded
    {
      var totalChunks := (|entries| + MAX_ALLOWLIST_CHUNK - 1) / MAX_ALLOWLIST_CHUNK;
      var chunkIdx := 0;
      ghost var done := 0;
      NothingPushed(entries);
      while chunkIdx < totalChunks
        invariant chunkIdx <= totalChunks && done == Min(chunkIdx * MAX_ALLOWLIST_CHUNK, |entries|)
        invariant driver.Valid() && driver.Objects() == old(driver.Objects())
        invariant OnlyNamesDiffer(old(driver.State()), driver.State())
        invariant driver.State().names == Pushed(entries[..done])
      {
        var startIdx := chunkIdx * MAX_ALLOWLIST_CHUNK;
        var endIdx := Min(startIdx + MAX_ALLOWLIST_CHUNK, |entries|);
        var rows := FillRows(BLANK_CHUNK, entries, startIdx, endIdx);
        PushedContinues(entries, startIdx, endIdx);
        succeeded := SendUpload(UpdateAllowlistChunk, rows, endIdx - startIdx, fates(chunkIdx + 1));
        if !succeeded {
          return;
        }
        done := endIdx;
        chunkIdx := chunkIdx + 1;
      }
      succeeded := true;
    }
  }
}
