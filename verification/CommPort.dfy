/** RsMessageNotifyCallback: ten request types over the driver's state. A rejected request touches
    nothing; an accepted one is a fixed sequence of locked regions. */
module CommPort {
  import opened Base
  import opened Allowlist
  import opened Drivers
  import Trackers
  import Kernel

  // ---- Messages ------------------------------------------------------------------------------

  datatype MessageType =
    | QueryBlockedPids | RequestUnblockPid | QueryConfig | QueryAllowlist | RequestPause | RequestResume
    | UpdateConfig | ClearAllowlist | UpdateAllowlistChunk | UpdateAllowlistFull | Other(code: int)

  /** EntryCount and Entries[] of an allowlist upload. */
  datatype Upload = Upload(entryCount: ULong, rows: seq<NameBuffer>)

  /** An input buffer: its length, its header, and its payload as each request struct overlays it.
      A field beyond `length` is never looked at. */
  datatype Request = Request(length: ULong, kind: MessageType, messageSize: ULong, pid: ULong, threshold: ULong,
                             seconds: ULong, monitoring: bool, chunk: Upload, full: Upload)

  /** The Entries[] arrays have their declared sizes. */
  predicate WellTyped(r: Request) {
    |r.chunk.rows| == MAX_ALLOWLIST_CHUNK && |r.full.rows| == MAX_ALLOWLIST_ENTRIES
  }

  datatype MessageStatus = Ok | InvalidParameter | BufferTooSmall

  datatype Reply =
    | NoReply
    | BlockedPids(number: ULong, entries: seq<Trackers.BlockedEntry>)
    | Unblocked(number: ULong, pid: ULong)
    | ConfigIs(number: ULong, threshold: ULong, seconds: ULong, monitoring: bool, tracked: nat, blocked: nat)
    | AllowlistIs(number: ULong, names: seq<string>)
    | Generic(number: ULong, kind: MessageType)

  datatype Response = Response(status: MessageStatus, returnedLength: ULong, reply: Reply)

  // sizeof of each structure, with natural alignment
  const HEADER_SIZE: ULong := 16
  const NAME_ROW_SIZE: ULong := 520
  const BLOCKED_ENTRY_SIZE: ULong := 544

  /** sizeof the request structure a case of the switch insists on; 0 where it insists on none. */
  function PayloadSize(kind: MessageType): ULong {
    match kind
    case RequestUnblockPid => HEADER_SIZE + 4
    case UpdateConfig => HEADER_SIZE + 12
    case UpdateAllowlistChunk => HEADER_SIZE + 12 + MAX_ALLOWLIST_CHUNK * NAME_ROW_SIZE
    case UpdateAllowlistFull => HEADER_SIZE + 4 + MAX_ALLOWLIST_ENTRIES * NAME_ROW_SIZE
    case _ => 0
  }

  /** sizeof the reply structure. */
  function ReplySize(kind: MessageType): ULong {
    match kind
    case QueryBlockedPids => HEADER_SIZE + 8 + MAX_REPORT_BLOCKED * BLOCKED_ENTRY_SIZE
    case QueryConfig => HEADER_SIZE + 20
    case QueryAllowlist => HEADER_SIZE + 4 + MAX_ALLOWLIST_ENTRIES * NAME_ROW_SIZE
    case _ => HEADER_SIZE + 8
  }

  predicate TooManyEntries(r: Request) {
    || (r.kind == UpdateAllowlistChunk && r.chunk.entryCount > MAX_ALLOWLIST_CHUNK)
    || (r.kind == UpdateAllowlistFull && r.full.entryCount > MAX_ALLOWLIST_ENTRIES)
  }

  /** The checks, in the order the callback makes them; `output` is the length of the reply buffer. */
  function Validate(input: Option<Request>, output: Option<ULong>): MessageStatus {
    match input
    case None => InvalidParameter
    case Some(r) =>
      if r.length < HEADER_SIZE || r.messageSize > r.length then InvalidParameter
      else if r.kind.Other? || r.length < PayloadSize(r.kind) then InvalidParameter
      else if output == None || output.value < ReplySize(r.kind) then BufferTooSmall
      else if TooManyEntries(r) then InvalidParameter
      else Ok
  }

  // ---- What an accepted request does ------------------------------------------------------------

  /** The characters the upload loop hands to RsAddDynamicAllowlistEntry. */
  function Scanned(row: NameBuffer): string {
    CString(row[..MAX_NAME])
  }

  function AddEvents(rows: seq<NameBuffer>, n: nat): seq<Kernel.Event>
    requires n <= |rows|
  {
    if n == 0 then [] else AddEvents(rows, n - 1) + [Kernel.AddName(Scanned(rows[n - 1]))]
  }

  /** The locked regions an accepted request passes through, in order. */
  function Regions(r: Request): seq<Kernel.Event>
    requires WellTyped(r) && !TooManyEntries(r)
  {
    match r.kind
    case QueryBlockedPids => [Kernel.TakeNumber, Kernel.ListBlocked]
    case RequestUnblockPid => [Kernel.TakeNumber, Kernel.Unblock(r.pid)]
    case QueryConfig => [Kernel.ReadConfig, Kernel.CountPids]
    case QueryAllowlist => [Kernel.ReadNames]
    case RequestPause => [Kernel.SetMonitoring(false), Kernel.TakeNumber]
    case RequestResume => [Kernel.SetMonitoring(true), Kernel.TakeNumber]
    case UpdateConfig => [Kernel.Configure(r.threshold, r.seconds, r.monitoring), Kernel.TakeNumber]
    case ClearAllowlist => [Kernel.ClearNames, Kernel.TakeNumber]
    case UpdateAllowlistChunk => AddEvents(r.chunk.rows, r.chunk.entryCount) + [Kernel.TakeNumber]
    case UpdateAllowlistFull => AddEvents(r.full.rows, r.full.entryCount) + [Kernel.TakeNumber]
    case Other(_) => []
  }

  function Served(s: Kernel.State, input: Option<Request>, output: Option<ULong>): Kernel.State
    requires input.Some? ==> WellTyped(input.value)
  {
    if Validate(input, output) == Ok then Kernel.Run(s, Regions(input.value)) else s
  }

  /** The reply of an accepted request, from the state it found. */
  ghost predicate Answers(reply: Reply, s: Kernel.State, r: Request) {
    match r.kind
    case QueryBlockedPids =>
      reply.BlockedPids? && reply.number == s.sequence && Trackers.Reports(reply.entries, Kernel.BlockedPart(s.table), MAX_REPORT_BLOCKED)
    case RequestUnblockPid => reply == Unblocked(s.sequence, r.pid)
    case QueryConfig =>
      reply == ConfigIs(s.sequence, s.config.threshold, s.config.seconds, s.config.monitoring,
                        |s.table|, |Kernel.BlockedPids(s.table)|)
    case QueryAllowlist => reply == AllowlistIs(s.sequence, s.names)
    case _ => reply == Generic(s.sequence, r.kind)
  }

  /** The value left in *ReturnOutputBufferLength. */
  function ReturnedLength(input: Option<Request>, output: Option<ULong>): ULong {
    if Validate(input, output) == InvalidParameter then 0 else ReplySize(input.value.kind)
  }

  /** What a client may rely on: the state, the status, the length and the reply that follow a request. */
  ghost predicate Handled(response: Response, s: Kernel.State, s': Kernel.State, input: Option<Request>, output: Option<ULong>)
    requires input.Some? ==> WellTyped(input.value)
  {
    && response.status == Validate(input, output)
    && s' == Served(s, input, output)
    && response.returnedLength == ReturnedLength(input, output)
    && (response.status == Ok ==> Answers(response.reply, s, input.value))
  }

  // ---- Properties of the protocol ----------------------------------------------------------------

  lemma RunOne(s: Kernel.State, a: Kernel.Event)
    ensures Kernel.Run(s, [a]) == Kernel.After(s, a)
  {
    Kernel.RunSnoc(s, [], a);
    assert [] + [a] == [a];
  }

  lemma RunTwo(s: Kernel.State, a: Kernel.Event, b: Kernel.Event)
    ensures Kernel.Run(s, [a, b]) == Kernel.After(Kernel.After(s, a), b)
  {
    RunOne(s, a);
    Kernel.RunSnoc(s, [a], b);
    assert [a] + [b] == [a, b];
  }

  /** The checks in bytes: which requests are served, and which are told that their buffer is too small. */
  lemma AcceptedIff(r: Request, output: Option<ULong>)
    ensures var payload := match r.kind
                           case RequestUnblockPid => 20
                           case UpdateConfig => 28
                           case UpdateAllowlistChunk => 16_668
                           case UpdateAllowlistFull => 66_580
                           case _ => 16;
            var reply := match r.kind
                         case QueryBlockedPids => 139_288
                         case QueryConfig => 36
                         case QueryAllowlist => 66_580
                         case _ => 24;
            var complete := r.length >= payload && r.messageSize <= r.length && !r.kind.Other?;
            var fits := output.Some? && output.value >= reply;
            && (Validate(Some(r), output) == Ok
                <==> && complete && fits && (r.kind.UpdateAllowlistChunk? ==> r.chunk.entryCount <= 32)
                     && (r.kind.UpdateAllowlistFull? ==> r.full.entryCount <= 128))
            && (Validate(Some(r), output) == BufferTooSmall <==> complete && !fits)
            && (complete ==> ReturnedLength(Some(r), output) == if fits && TooManyEntries(r) then 0 else reply)
            && (!complete ==> ReturnedLength(Some(r), output) == 0)
  {
  }

  /** What an accepted request does, field by field. */
  lemma Effects(s: Kernel.State, r: Request)
    requires WellTyped(r) && !TooManyEntries(r) && |s.names| <= MAX_ALLOWLIST_ENTRIES
    ensures var t := Kernel.Run(s, Regions(r));
            match r.kind
            case RequestUnblockPid => t.table == s.table - {r.pid} && t.config == s.config && t.names == s.names
            case RequestPause => t.config == s.config.(monitoring := false) && t.table == s.table && t.names == s.names
            case RequestResume => t.config == s.config.(monitoring := true) && t.table == s.table && t.names == s.names
            case UpdateConfig =>
              && t.config.threshold == (if r.threshold > 0 then r.threshold else s.config.threshold)
              && t.config.seconds == (if r.seconds > 0 then r.seconds else s.config.seconds)
              && t.config.ticks == (if r.seconds > 0 then r.seconds * 10_000_000 else s.config.ticks)
              && t.config.monitoring == r.monitoring
              && t.table == s.table && t.names == s.names
            case ClearAllowlist => t.names == [] && t.config == s.config && t.table == s.table
            case UpdateAllowlistChunk =>
              && t.names == First(s.names + NonEmpty(ScannedRows(r.chunk.rows, r.chunk.entryCount)), 128)
              && t.config == s.config && t.table == s.table
            case UpdateAllowlistFull =>
              && t.names == First(s.names + NonEmpty(ScannedRows(r.full.rows, r.full.entryCount)), 128)
              && t.config == s.config && t.table == s.table
            case _ => t.config == s.config && t.table == s.table && t.names == s.names
  {
    match r.kind {
      case UpdateAllowlistChunk => UploadServed(s, r.chunk.rows, r.chunk.entryCount);
      case UpdateAllowlistFull => UploadServed(s, r.full.rows, r.full.entryCount);
      case QueryAllowlist => RunOne(s, Kernel.ReadNames);
      case Other(_) =>
      case QueryBlockedPids => RunTwo(s, Kernel.TakeNumber, Kernel.ListBlocked);
      case RequestUnblockPid => RunTwo(s, Kernel.TakeNumber, Kernel.Unblock(r.pid));
      case QueryConfig => RunTwo(s, Kernel.ReadConfig, Kernel.CountPids);
      case RequestPause => RunTwo(s, Kernel.SetMonitoring(false), Kernel.TakeNumber);
      case RequestResume => RunTwo(s, Kernel.SetMonitoring(true), Kernel.TakeNumber);
      case UpdateConfig => RunTwo(s, Kernel.Configure(r.threshold, r.seconds, r.monitoring), Kernel.TakeNumber);
      case ClearAllowlist => RunTwo(s, Kernel.ClearNames, Kernel.TakeNumber);
    }
  }

  /** What the reply of an accepted request says, field by field. */
  lemma RepliesInFull(reply: Reply, s: Kernel.State, r: Request)
    requires Answers(reply, s, r)
    ensures match r.kind
            case QueryBlockedPids =>
              reply.BlockedPids? && reply.number == s.sequence && Trackers.TellsBlocked(reply.entries, s.table, 256)
            case QueryConfig =>
              && reply.ConfigIs? && reply.number == s.sequence && reply.threshold == s.config.threshold
              && reply.seconds == s.config.seconds && reply.monitoring == s.config.monitoring
              && reply.tracked == |s.table| && reply.blocked == |set pid | pid in s.table && s.table[pid].blocked|
            case QueryAllowlist => reply.AllowlistIs? && reply.number == s.sequence && reply.names == s.names
            case RequestUnblockPid => reply.Unblocked? && reply.number == s.sequence && reply.pid == r.pid
            case _ => reply.Generic? && reply.number == s.sequence && reply.kind == r.kind
  {
    match r.kind {
      case QueryBlockedPids => Trackers.ReportIsFaithful(reply.entries, s.table, MAX_REPORT_BLOCKED);
      case QueryConfig => assert (set pid | pid in s.table && s.table[pid].blocked) == Kernel.BlockedPids(s.table);
      case _ =>
    }
  }

  lemma UploadServed(s: Kernel.State, rows: seq<NameBuffer>, n: nat)
    requires n <= |rows| && |s.names| <= MAX_ALLOWLIST_ENTRIES
    ensures var t := Kernel.Run(s, AddEvents(rows, n) + [Kernel.TakeNumber]);
            && t.config == s.config && t.table == s.table
            && t.names == First(s.names + NonEmpty(ScannedRows(rows, n)), MAX_ALLOWLIST_ENTRIES)
  {
    UploadAppends(s, rows, n);
    Kernel.RunSnoc(s, AddEvents(rows, n), Kernel.TakeNumber);
  }

  /** Uploading rows appends the non-empty scanned names, in order, until the list has 128. */
  function NonEmpty(names: seq<string>): seq<string> {
    if names == [] then []
    else NonEmpty(names[..|names| - 1]) + if names[|names| - 1] == [] then [] else [names[|names| - 1]]
  }

  function ScannedRows(rows: seq<NameBuffer>, n: nat): seq<string>
    requires n <= |rows|
  {
    seq(n, i requires 0 <= i < n => Scanned(rows[i]))
  }

  lemma {:induction false} UploadAppends(s: Kernel.State, rows: seq<NameBuffer>, n: nat)
    requires n <= |rows| && |s.names| <= MAX_ALLOWLIST_ENTRIES
    ensures Kernel.Run(s, AddEvents(rows, n))
         == s.(names := First(s.names + NonEmpty(ScannedRows(rows, n)), MAX_ALLOWLIST_ENTRIES))
  {
    if n == 0 {
      assert ScannedRows(rows, 0) == [];
      assert s.names + [] == s.names;
    } else {
      var name, more := Scanned(rows[n - 1]), NonEmpty(ScannedRows(rows, n - 1));
      UploadAppends(s, rows, n - 1);
      Kernel.RunSnoc(s, AddEvents(rows, n - 1), Kernel.AddName(name));
      ScannedSnoc(rows, n);
      ScannedFits(rows[n - 1]);
      AppendOne(s.names, more, name);
    }
  }

  lemma ScannedSnoc(rows: seq<NameBuffer>, n: nat)
    requires 0 < n <= |rows|
    ensures var name := Scanned(rows[n - 1]);
            NonEmpty(ScannedRows(rows, n)) == NonEmpty(ScannedRows(rows, n - 1)) + if name == [] then [] else [name]
  {
    var all := ScannedRows(rows, n);
    assert all[..n - 1] == ScannedRows(rows, n - 1);
    assert all[n - 1] == Scanned(rows[n - 1]);
  }

  lemma AppendOne(names: seq<string>, more: seq<string>, name: string)
    requires |name| <= MAX_NAME && NUL !in name
    ensures Kernel.NameAdded(First(names + more, MAX_ALLOWLIST_ENTRIES), name)
         == First(names + (more + if name == [] then [] else [name]), MAX_ALLOWLIST_ENTRIES)
  {
    CStringOfNulFree(name, []);
    assert names + (more + [name]) == (names + more) + [name];
    assert more + [] == more;
  }

  lemma ScannedFits(row: NameBuffer)
    ensures |Scanned(row)| <= MAX_NAME && NUL !in Scanned(row)
  {
    CStringIsNulFreePrefix(row[..MAX_NAME]);
  }

  /** Numbering: every accepted request issues exactly one sequence number. */
  lemma OneNumberPerSuccess(s: Kernel.State, input: Option<Request>, output: Option<ULong>)
    requires input.Some? ==> WellTyped(input.value)
    ensures Validate(input, output) == Ok ==> Served(s, input, output).sequence == Kernel.NextNumber(s.sequence)
    ensures Validate(input, output) == Ok ==> Issued(Regions(input.value)) == 1
  {
    if Validate(input, output) == Ok {
      var r := input.value;
      match r.kind {
        case UpdateAllowlistChunk => UploadTakesOneNumber(s, r.chunk.rows, r.chunk.entryCount);
        case UpdateAllowlistFull => UploadTakesOneNumber(s, r.full.rows, r.full.entryCount);
        case QueryAllowlist =>
          RunOne(s, Kernel.ReadNames);
          NumberOfOne(Kernel.ReadNames);
        case Other(_) =>
        case QueryBlockedPids | RequestUnblockPid | QueryConfig | RequestPause | RequestResume | UpdateConfig | ClearAllowlist =>
          RunTwo(s, Regions(r)[0], Regions(r)[1]);
          NumberOfTwo(Regions(r)[0], Regions(r)[1]);
      }
    }
  }

  /** How many sequence numbers a run of events hands out. */
  function Issued(es: seq<Kernel.Event>): nat {
    if es == [] then 0 else Issued(es[..|es| - 1]) + if TakesNumber(es[|es| - 1]) then 1 else 0
  }

  predicate TakesNumber(e: Kernel.Event) {
    e.TakeNumber? || e.ReadConfig? || e.ReadNames?
  }

  lemma NumberOfOne(a: Kernel.Event)
    ensures Issued([a]) == if TakesNumber(a) then 1 else 0
  {
    assert [a][..0] == [];
  }

  lemma NumberOfTwo(a: Kernel.Event, b: Kernel.Event)
    ensures Issued([a, b]) == (if TakesNumber(a) then 1 else 0) + if TakesNumber(b) then 1 else 0
  {
    NumberOfOne(a);
    assert [a, b][..1] == [a];
  }

  lemma IssuedSnoc(es: seq<Kernel.Event>, e: Kernel.Event)
    ensures Issued(es + [e]) == Issued(es) + if TakesNumber(e) then 1 else 0
  {
    assert (es + [e])[..|es|] == es;
  }

  lemma {:induction false} UploadTakesNone(s: Kernel.State, rows: seq<NameBuffer>, n: nat)
    requires n <= |rows|
    ensures Issued(AddEvents(rows, n)) == 0 && Kernel.Run(s, AddEvents(rows, n)).sequence == s.sequence
  {
    if n > 0 {
      var e := Kernel.AddName(Scanned(rows[n - 1]));
      UploadTakesNone(s, rows, n - 1);
      IssuedSnoc(AddEvents(rows, n - 1), e);
      Kernel.RunSnoc(s, AddEvents(rows, n - 1), e);
    }
  }

  lemma UploadTakesOneNumber(s: Kernel.State, rows: seq<NameBuffer>, n: nat)
    requires n <= |rows|
    ensures Issued(AddEvents(rows, n) + [Kernel.TakeNumber]) == 1
    ensures Kernel.Run(s, AddEvents(rows, n) + [Kernel.TakeNumber]).sequence == Kernel.NextNumber(s.sequence)
  {
    UploadTakesNone(s, rows, n);
    IssuedSnoc(AddEvents(rows, n), Kernel.TakeNumber);
    Kernel.RunSnoc(s, AddEvents(rows, n), Kernel.TakeNumber);
  }

  lemma NextOfRemainder(x: nat)
    ensures Kernel.NextNumber(x % ULONG_RANGE) == (x + 1) % ULONG_RANGE
  {
    var q, r := x / ULONG_RANGE, x % ULONG_RANGE;
    if r + 1 < ULONG_RANGE {
      assert x + 1 == q * ULONG_RANGE + (r + 1);
    } else {
      assert x + 1 == (q + 1) * ULONG_RANGE;
    }
  }

  /** The number an event at position k of a run hands out: they count up, modulo 2^32. */
  lemma {:induction false} NumbersCountUp(s: Kernel.State, es: seq<Kernel.Event>)
    ensures Kernel.Run(s, es).sequence == (s.sequence + Issued(es)) % ULONG_RANGE
  {
    if es != [] {
      var front := es[..|es| - 1];
      NumbersCountUp(s, front);
      NextOfRemainder(s.sequence + Issued(front));
      SequenceStep(Kernel.Run(s, front), es[|es| - 1]);
    }
  }

  lemma SequenceStep(s: Kernel.State, e: Kernel.Event)
    ensures Kernel.After(s, e).sequence == if TakesNumber(e) then Kernel.NextNumber(s.sequence) else s.sequence
  {
  }

  lemma {:induction false} IssuedIsMonotone(es: seq<Kernel.Event>, i: nat)
    requires i <= |es|
    ensures Issued(es[..i]) <= Issued(es)
    ensures i < |es| && TakesNumber(es[i]) ==> Issued(es[..i]) < Issued(es)
    decreases |es|
  {
    if i < |es| {
      IssuedIsMonotone(es[..|es| - 1], i);
      assert es[..|es| - 1][..i] == es[..i];
    } else {
      assert es[..i] == es;
    }
  }

  /** Of any two numbers handed out in one run, to replies or to notifications, by whatever threads,
      with fewer than 2^32 issues from the one to the other, no two are equal. */
  lemma NumbersAreDistinct(s: Kernel.State, es: seq<Kernel.Event>, i: nat, j: nat)
    requires i < j < |es| && TakesNumber(es[i]) && TakesNumber(es[j])
    requires Issued(es[..j]) - Issued(es[..i]) < ULONG_RANGE
    ensures Kernel.Run(s, es[..i]).sequence != Kernel.Run(s, es[..j]).sequence
  {
    NumbersCountUp(s, es[..i]);
    NumbersCountUp(s, es[..j]);
    IssuedIsMonotone(es[..j], i);
    assert es[..j][..i] == es[..i];
  }
}
