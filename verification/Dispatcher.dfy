/** The message callback at work on the driver object, case by case. */
module Dispatcher {
  import opened Base
  import opened Allowlist
  import opened Drivers
  import opened CommPort
  import Kernel
  import Trackers

  /** The `while (len < 259 && p[len] != 0)` loop. */
  method ScanName(row: NameBuffer) returns (name: string)
    ensures name == Scanned(row)
  {
    var len := 0;
    while len < MAX_NAME && row[len] != NUL
      invariant len <= MAX_NAME && NUL !in row[..len]
    {
      len := len + 1;
    }
    name := row[..len];
    ghost var text := row[..MAX_NAME];
    if len < MAX_NAME {
      CStringOfNulFree(name, text[len + 1..]);
      assert text == name + [NUL] + text[len + 1..];
    } else {
      CStringOfNulFree(name, []);
    }
  }

  /** One turn of the upload loop. */
  method AddRow(driver: Driver, row: NameBuffer)
    requires driver.Valid()
    modifies driver, driver.names, driver.names.rows
    ensures driver.Valid() && driver.State() == Kernel.After(old(driver.State()), Kernel.AddName(Scanned(row)))
    ensures driver.clientConnected == old(driver.clientConnected)
  {
    var name := ScanName(row);
    driver.AddName(name);
  }

  /** The upload loop: hand the first n rows to RsAddDynamicAllowlistEntry. */
  method AddRows(driver: Driver, rows: seq<NameBuffer>, n: nat)
    requires driver.Valid() && n <= |rows|
    modifies driver, driver.names, driver.names.rows
    ensures driver.Valid() && driver.State() == Kernel.Run(old(driver.State()), AddEvents(rows, n))
    ensures driver.clientConnected == old(driver.clientConnected)
  {
    for i := 0 to n
      invariant driver.Valid() && driver.State() == Kernel.Run(old(driver.State()), AddEvents(rows, i))
      invariant driver.clientConnected == old(driver.clientConnected)
    {
      Kernel.RunSnoc(old(driver.State()), AddEvents(rows, i), Kernel.AddName(Scanned(rows[i])));
      AddRow(driver, rows[i]);
    }
  }

  // ---- The ten cases, each with its own checks in front of its own effects ------------------------------

  predicate TooSmall(output: Option<ULong>, required: ULong) {
    output == None || output.value < required
  }

  /** What the callback has checked before the switch. */
  predicate HeaderFits(r: Request) {
    r.length >= HEADER_SIZE && r.messageSize <= r.length
  }

  method ServeBlockedPids(driver: Driver, r: Request, output: Option<ULong>) returns (response: Response)
    requires driver.Valid() && WellTyped(r) && HeaderFits(r) && r.kind.QueryBlockedPids?
    modifies driver
    ensures driver.Valid() && driver.Objects() == old(driver.Objects()) && driver.clientConnected == old(driver.clientConnected)
    ensures Handled(response, old(driver.State()), driver.State(), Some(r), output)
  {
    var required: ULong := HEADER_SIZE + 8 + MAX_REPORT_BLOCKED * BLOCKED_ENTRY_SIZE;
    if TooSmall(output, required) {
      return Response(BufferTooSmall, required, NoReply);
    }
    RunTwo(driver.State(), Kernel.TakeNumber, Kernel.ListBlocked);
    var number := driver.NextNumber();
    var entries := driver.GetBlockedPids(MAX_REPORT_BLOCKED);
    response := Response(Ok, required, BlockedPids(number, entries));
  }

  method ServeUnblock(driver: Driver, r: Request, output: Option<ULong>) returns (response: Response)
    requires driver.Valid() && WellTyped(r) && HeaderFits(r) && r.kind.RequestUnblockPid?
    modifies driver.Objects()
    ensures driver.Valid() && driver.Objects() == old(driver.Objects()) && driver.clientConnected == old(driver.clientConnected)
    ensures Handled(response, old(driver.State()), driver.State(), Some(r), output)
  {
    if r.length < HEADER_SIZE + 4 {
      return Response(InvalidParameter, 0, NoReply);
    }
    var required: ULong := HEADER_SIZE + 8;
    if TooSmall(output, required) {
      return Response(BufferTooSmall, required, NoReply);
    }
    RunTwo(driver.State(), Kernel.TakeNumber, Kernel.Unblock(r.pid));
    var number := driver.NextNumber();
    driver.UnblockProcess(r.pid);
    response := Response(Ok, required, Unblocked(number, r.pid));
  }

  method ServeConfig(driver: Driver, r: Request, output: Option<ULong>) returns (response: Response)
    requires driver.Valid() && WellTyped(r) && HeaderFits(r) && r.kind.QueryConfig?
    modifies driver
    ensures driver.Valid() && driver.Objects() == old(driver.Objects()) && driver.clientConnected == old(driver.clientConnected)
    ensures Handled(response, old(driver.State()), driver.State(), Some(r), output)
  {
    var required: ULong := HEADER_SIZE + 20;
    if TooSmall(output, required) {
      return Response(BufferTooSmall, required, NoReply);
    }
    RunTwo(driver.State(), Kernel.ReadConfig, Kernel.CountPids);
    var number, config := driver.ReadConfig();
    var tracked, blocked := driver.GetPidCounts();
    response := Response(Ok, required,
                         ConfigIs(number, config.threshold, config.seconds, config.monitoring, tracked, blocked));
  }

  method ServeNames(driver: Driver, r: Request, output: Option<ULong>) returns (response: Response)
    requires driver.Valid() && WellTyped(r) && HeaderFits(r) && r.kind.QueryAllowlist?
    modifies driver
    ensures driver.Valid() && driver.Objects() == old(driver.Objects()) && driver.clientConnected == old(driver.clientConnected)
    ensures Handled(response, old(driver.State()), driver.State(), Some(r), output)
  {
    var required: ULong := HEADER_SIZE + 4 + MAX_ALLOWLIST_ENTRIES * NAME_ROW_SIZE;
    if TooSmall(output, required) {
      return Response(BufferTooSmall, required, NoReply);
    }
    RunOne(driver.State(), Kernel.ReadNames);
    var number, names := driver.ReadNames();
    response := Response(Ok, required, AllowlistIs(number, names));
  }

  method ServePause(driver: Driver, r: Request, output: Option<ULong>) returns (response: Response)
    requires driver.Valid() && WellTyped(r) && HeaderFits(r) && r.kind.RequestPause?
    modifies driver
    ensures driver.Valid() && driver.Objects() == old(driver.Objects()) && driver.clientConnected == old(driver.clientConnected)
    ensures Handled(response, old(driver.State()), driver.State(), Some(r), output)
    ensures response.status == Ok ==> driver.State().config == old(driver.State()).config.(monitoring := false)
  {
    if TooSmall(output, HEADER_SIZE + 8) {
      return Response(BufferTooSmall, HEADER_SIZE + 8, NoReply);
    }
    RunTwo(driver.State(), Kernel.SetMonitoring(false), Kernel.TakeNumber);
    driver.SetMonitoring(false);
    var number := driver.NextNumber();
    response := Response(Ok, HEADER_SIZE + 8, Generic(number, RequestPause));
  }

  method ServeResume(driver: Driver, r: Request, output: Option<ULong>) returns (response: Response)
    requires driver.Valid() && WellTyped(r) && HeaderFits(r) && r.kind.RequestResume?
    modifies driver
    ensures driver.Valid() && driver.Objects() == old(driver.Objects()) && driver.clientConnected == old(driver.clientConnected)
    ensures Handled(response, old(driver.State()), driver.State(), Some(r), output)
    ensures response.status == Ok ==> driver.State().config == old(driver.State()).config.(monitoring := true)
  {
    if TooSmall(output, HEADER_SIZE + 8) {
      return Response(BufferTooSmall, HEADER_SIZE + 8, NoReply);
    }
    RunTwo(driver.State(), Kernel.SetMonitoring(true), Kernel.TakeNumber);
    driver.SetMonitoring(true);
    var number := driver.NextNumber();
    response := Response(Ok, HEADER_SIZE + 8, Generic(number, RequestResume));
  }

  method ServeUpdate(driver: Driver, r: Request, output: Option<ULong>) returns (response: Response)
    requires driver.Valid() && WellTyped(r) && HeaderFits(r) && r.kind.UpdateConfig?
    modifies driver
    ensures driver.Valid() && driver.Objects() == old(driver.Objects()) && driver.clientConnected == old(driver.clientConnected)
    ensures Handled(response, old(driver.State()), driver.State(), Some(r), output)
  {
    if r.length < HEADER_SIZE + 12 {
      return Response(InvalidParameter, 0, NoReply);
    }
    if TooSmall(output, HEADER_SIZE + 8) {
      return Response(BufferTooSmall, HEADER_SIZE + 8, NoReply);
    }
    RunTwo(driver.State(), Kernel.Configure(r.threshold, r.seconds, r.monitoring), Kernel.TakeNumber);
    driver.ApplyConfig(r.threshold, r.seconds, r.monitoring);
    var number := driver.NextNumber();
    response := Response(Ok, HEADER_SIZE + 8, Generic(number, UpdateConfig));
  }

  method ServeClear(driver: Driver, r: Request, output: Option<ULong>) returns (response: Response)
    requires driver.Valid() && WellTyped(r) && HeaderFits(r) && r.kind.ClearAllowlist?
    modifies driver, driver.names, driver.names.rows
    ensures driver.Valid() && driver.Objects() == old(driver.Objects()) && driver.clientConnected == old(driver.clientConnected)
    ensures Handled(response, old(driver.State()), driver.State(), Some(r), output)
  {
    if TooSmall(output, HEADER_SIZE + 8) {
      return Response(BufferTooSmall, HEADER_SIZE + 8, NoReply);
    }
    RunTwo(driver.State(), Kernel.ClearNames, Kernel.TakeNumber);
    driver.ClearNames();
    var number := driver.NextNumber();
    response := Response(Ok, HEADER_SIZE + 8, Generic(number, ClearAllowlist));
  }

  /** The part that the two upload cases share: add the rows, then take a number. */
  method AddAndNumber(driver: Driver, upload: Upload) returns (number: ULong)
    requires driver.Valid() && upload.entryCount <= |upload.rows|
    modifies driver, driver.names, driver.names.rows
    ensures driver.Valid() && driver.Objects() == old(driver.Objects()) && driver.clientConnected == old(driver.clientConnected)
    ensures number == old(driver.State()).sequence
    ensures driver.State() == Kernel.Run(old(driver.State()), AddEvents(upload.rows, upload.entryCount) + [Kernel.TakeNumber])
  {
    UploadTakesNone(driver.State(), upload.rows, upload.entryCount);
    Kernel.RunSnoc(driver.State(), AddEvents(upload.rows, upload.entryCount), Kernel.TakeNumber);
    AddRows(driver, upload.rows, upload.entryCount);
    number := driver.NextNumber();
  }

  method ServeChunk(driver: Driver, r: Request, output: Option<ULong>) returns (response: Response)
    requires driver.Valid() && WellTyped(r) && HeaderFits(r) && r.kind.UpdateAllowlistChunk?
    modifies driver, driver.names, driver.names.rows
    ensures driver.Valid() && driver.Objects() == old(driver.Objects()) && driver.clientConnected == old(driver.clientConnected)
    ensures Handled(response, old(driver.State()), driver.State(), Some(r), output)
  {
    if r.length < HEADER_SIZE + 12 + MAX_ALLOWLIST_CHUNK * NAME_ROW_SIZE {
      return Response(InvalidParameter, 0, NoReply);
    }
    if TooSmall(output, HEADER_SIZE + 8) {
      return Response(BufferTooSmall, HEADER_SIZE + 8, NoReply);
    }
    if r.chunk.entryCount > MAX_ALLOWLIST_CHUNK {
      return Response(InvalidParameter, 0, NoReply);
    }
    var number := AddAndNumber(driver, r.chunk);
    response := Response(Ok, HEADER_SIZE + 8, Generic(number, UpdateAllowlistChunk));
  }

  method ServeFull(driver: Driver, r: Request, output: Option<ULong>) returns (response: Response)
    requires driver.Valid() && WellTyped(r) && HeaderFits(r) && r.kind.UpdateAllowlistFull?
    modifies driver, driver.names, driver.names.rows
    ensures driver.Valid() && driver.Objects() == old(driver.Objects()) && driver.clientConnected == old(driver.clientConnected)
    ensures Handled(response, old(driver.State()), driver.State(), Some(r), output)
  {
    if r.length < HEADER_SIZE + 4 + MAX_ALLOWLIST_ENTRIES * NAME_ROW_SIZE {
      return Response(InvalidParameter, 0, NoReply);
    }
    if TooSmall(output, HEADER_SIZE + 8) {
      return Response(BufferTooSmall, HEADER_SIZE + 8, NoReply);
    }
    if r.full.entryCount > MAX_ALLOWLIST_ENTRIES {
      return Response(InvalidParameter, 0, NoReply);
    }
    var number := AddAndNumber(driver, r.full);
    response := Response(Ok, HEADER_SIZE + 8, Generic(number, UpdateAllowlistFull));
  }

  /** The switch over the message type. */
  method Switch(driver: Driver, r: Request, output: Option<ULong>) returns (response: Response)
    requires driver.Valid() && WellTyped(r) && HeaderFits(r)
    modifies driver.Objects()
    ensures driver.Valid() && driver.Objects() == old(driver.Objects()) && driver.clientConnected == old(driver.clientConnected)
    ensures Handled(response, old(driver.State()), driver.State(), Some(r), output)
  {
    match r.kind {
      case QueryBlockedPids => response := ServeBlockedPids(driver, r, output);
      case RequestUnblockPid => response := ServeUnblock(driver, r, output);
      case QueryConfig => response := ServeConfig(driver, r, output);
      case QueryAllowlist => response := ServeNames(driver, r, output);
      case RequestPause => response := ServePause(driver, r, output);
      case RequestResume => response := ServeResume(driver, r, output);
      case UpdateConfig => response := ServeUpdate(driver, r, output);
      case ClearAllowlist => response := ServeClear(driver, r, output);
      case UpdateAllowlistChunk => response := ServeChunk(driver, r, output);
      case UpdateAllowlistFull => response := ServeFull(driver, r, output);
      case Other(_) => response := Response(InvalidParameter, 0, NoReply);
    }
  }

  /** RsMessageNotifyCallback. An error, from whichever check it comes, leaves the whole state alone; an
      accepted request takes one number and has the effect that its type promises. */
  method MessageNotify(driver: Driver, input: Option<Request>, output: Option<ULong>) returns (response: Response)
    requires driver.Valid() && (input.Some? ==> WellTyped(input.value))
    modifies driver.Objects()
    ensures driver.Valid() && driver.Objects() == old(driver.Objects()) && driver.clientConnected == old(driver.clientConnected)
    ensures Handled(response, old(driver.State()), driver.State(), input, output)
    ensures response.status != Ok ==> driver.State() == old(driver.State())
    ensures response.status == Ok ==>
              var r, s, t := input.value, old(driver.State()), driver.State();
              && !r.kind.Other? && t.sequence == (s.sequence + 1) % 0x1_0000_0000
              && match r.kind
                 case RequestUnblockPid => t.table == s.table - {r.pid} && t.config == s.config && t.names == s.names
                 case RequestPause => t.config == s.config.(monitoring := false) && t.table == s.table && t.names == s.names
                 case RequestResume => t.config == s.config.(monitoring := true) && t.table == s.table && t.names == s.names
                 case UpdateConfig =>
                   && t.config.threshold == (if r.threshold > 0 then r.threshold else s.config.threshold)
                   && t.config.seconds == (if r.seconds > 0 then r.seconds else s.config.seconds)
                   && t.config.ticks == (if r.seconds > 0 then r.seconds * 10_000_000 else s.config.ticks)
                   && t.config.monitoring == r.monitoring
                   && t.table == s.table && t.names == s.names
                 case ClearAllowlist => t.names == [] && t.config == s.config && t.table == s.table
                 case UpdateAllowlistChunk =>
                   && t.names == First(s.names + NonEmpty(ScannedRows(r.chunk.rows, r.chunk.entryCount)), 128)
                   && t.config == s.config && t.table == s.table
                 case UpdateAllowlistFull =>
                   && t.names == First(s.names + NonEmpty(ScannedRows(r.full.rows, r.full.entryCount)), 128)
                   && t.config == s.config && t.table == s.table
                 case _ => t.config == s.config && t.table == s.table && t.names == s.names
    ensures response.status == Ok ==>
              var r, s, reply := input.value, old(driver.State()), response.reply;
              match r.kind
              case QueryBlockedPids =>
                reply.BlockedPids? && reply.number == s.sequence && Trackers.TellsBlocked(reply.entries, s.table, 256)
              case QueryConfig =>
                && reply.ConfigIs? && reply.number == s.sequence && reply.threshold == s.config.threshold
                && reply.seconds == s.config.seconds && reply.monitoring == s.config.monitoring
                && reply.tracked == |s.table| && reply.blocked == |set pid | pid in s.table && s.table[pid].blocked|
              case QueryAllowlist => reply.AllowlistIs? && reply.number == s.sequence && reply.names == s.names
              case RequestUnblockPid => reply.Unblocked? && reply.number == s.sequence && reply.pid == r.pid
              case _ => reply.Generic? && reply.number == s.sequence && reply.kind == r.kind
  {
    ghost var s := driver.State();
    NamesFit(driver);
    if input == None || input.value.length < HEADER_SIZE {
      return Response(InvalidParameter, 0, NoReply);
    }
    if input.value.messageSize > input.value.length {
      return Response(InvalidParameter, 0, NoReply);
    }
    response := Switch(driver, input.value, output);
    if response.status == Ok {
      Effects(s, input.value);
      OneNumberPerSuccess(s, input, output);
      RepliesInFull(response.reply, s, input.value);
    }
  }

  lemma NamesFit(driver: Driver)
    requires driver.Valid()
    ensures |driver.State().names| <= MAX_ALLOWLIST_ENTRIES
  {
    assert driver.Parts();
  }

  /** After an accepted pause request, and whatever calls follow in whatever order, no PID is blocked that
      was not blocked before, until a resume or an update turns monitoring on. */
  method Pause(driver: Driver, r: Request, output: Option<ULong>, ghost es: seq<Kernel.Event>, ghost pid: ULong)
    returns (response: Response)
    requires driver.Valid() && WellTyped(r) && r.kind.RequestPause?
    requires forall i :: 0 <= i < |es| ==>
               !(es[i].SetMonitoring? && es[i].on) && !(es[i].Configure? && es[i].monitoring)
    modifies driver.Objects()
    ensures driver.Valid() && response.status == Validate(Some(r), output)
    ensures response.status == Ok ==> !Kernel.Run(driver.State(), es).config.monitoring
    ensures response.status == Ok ==>
              (Kernel.IsBlocked(Kernel.Run(driver.State(), es).table, pid)
               <==> Kernel.IsBlocked(old(driver.State()).table, pid) && Kernel.Unblock(pid) !in es)
  {
    response := MessageNotify(driver, Some(r), output);
    if response.status == Ok {
      Kernel.PauseBlocksNothingNew(driver.State(), [], es, pid);
      assert [] + es == es;
    }
  }

  /** What an accepted update sets, an accepted query tells. */
  method UpdateThenQuery(driver: Driver, update: Request, query: Request, output: ULong) returns (first: Response, second: Response)
    requires driver.Valid() && WellTyped(update) && WellTyped(query)
    requires update.kind.UpdateConfig? && query.kind.QueryConfig?
    modifies driver.Objects()
    ensures driver.Valid()
    ensures first.status == Ok && second.status == Ok ==>
              && second.reply.ConfigIs? && second.reply.monitoring == update.monitoring
              && second.reply.threshold == (if update.threshold > 0 then update.threshold else old(driver.State()).config.threshold)
              && second.reply.seconds == (if update.seconds > 0 then update.seconds else old(driver.State()).config.seconds)
              && second.reply.tracked == |old(driver.State()).table|
  {
    first := MessageNotify(driver, Some(update), Some(output));
    second := MessageNotify(driver, Some(query), Some(output));
  }

  /** Two calls: a client told BUFFER_TOO_SMALL that sends the same request again with the length it was
      told is not told so again; it is served, unless an upload names too many entries, which is
      checked only then. Neither refusal changes anything. */
  method Resend(driver: Driver, r: Request, output: Option<ULong>) returns (first: Response, second: Response)
    requires driver.Valid() && WellTyped(r)
    modifies driver.Objects()
    ensures driver.Valid() && first.status == Validate(Some(r), output)
    ensures first.status == BufferTooSmall ==>
              && second.status == (if TooManyEntries(r) then InvalidParameter else Ok)
              && driver.State() == if second.status == Ok then Kernel.Run(old(driver.State()), Regions(r)) else old(driver.State())
  {
    first := MessageNotify(driver, Some(r), output);
    second := first;
    if first.status == BufferTooSmall {
      second := MessageNotify(driver, Some(r), Some(first.returnedLength));
    }
  }
}
