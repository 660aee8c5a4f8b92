/** Sequential specification of the tracker in kernel/RsContext.c: a plain map from PID to
    context, the runtime configuration, the pushed names and the message counter, with one
    event per region that the C code runs under g_ContextLock. */
module Kernel {
  import opened Base
  import opened Names
  import opened SlidingWindow

  datatype Config = Config(threshold: ULong, seconds: ULong, ticks: Ticks, monitoring: bool)

  datatype Context = Context(image: string, ring: seq<Ticks>, blocked: bool, blockedAt: Ticks, lastActivity: Ticks)

  /** What the blocking thread copies to its stack before it releases the lock. */
  datatype Notice = Notice(pid: ULong, image: string, at: Ticks, count: nat)

  type Table = map<ULong, Context>

  datatype State = State(config: Config, table: Table, names: seq<string>, sequence: ULong)

  const INITIAL := State(Config(50, 10, 10 * TICKS_PER_SECOND, true), map[], [], 0)

  datatype Event =
    | Record(pid: ULong, image: Option<string>, now: Ticks)
    | Unblock(pid: ULong)
    | Configure(threshold: ULong, seconds: ULong, monitoring: bool)
    | SetMonitoring(on: bool)
    | AddName(entry: string)
    | ClearNames
    | TakeNumber
    | ReadConfig
    | ReadNames
    | MatchName(fold: Fold, file: string)
    | CountPids
    | ListBlocked

  datatype Answer =
    | Verdict(block: bool, notice: Option<Notice>)
    | Numbered(number: ULong)
    | ConfigRead(number: ULong, config: Config)
    | NamesRead(number: ULong, names: seq<string>)
    | Matched(found: bool)
    | Counted(tracked: nat, blocked: nat)
    | Snapshot(contexts: Table)
    | Acknowledged

  // ---- Recording -------------------------------------------------------------------

  /** RsCopyImageNameToContext: nothing, or at most 259 characters of the image name. */
  function CopiedName(image: Option<string>): string {
    match image
    case None => []
    case Some(name) => First(name, MAX_NAME)
  }

  function FreshContext(image: Option<string>): Context {
    Context(CopiedName(image), [], false, 0, 0)
  }

  predicate IsBlocked(table: Table, pid: ULong) {
    pid in table && table[pid].blocked
  }

  /** Prune, append, recount and evaluate, for a context that is not blocked. */
  function Absorb(context: Context, config: Config, now: Ticks): Context {
    Evaluated(context.(ring := RingStep(context.ring, now, config.ticks)),
              Trips(RecentCount(context, config, now), config), now)
  }

  function Evaluated(context: Context, trips: bool, now: Ticks): Context {
    if trips
    then context.(lastActivity := now, blocked := true, blockedAt := now)
    else context.(lastActivity := now)
  }

  function RecentCount(context: Context, config: Config, now: Ticks): nat {
    |Within(RingStep(context.ring, now, config.ticks), now, config.ticks)|
  }

  predicate Trips(recent: nat, config: Config) {
    recent >= config.threshold && config.monitoring
  }

  function NoticeOf(pid: ULong, context: Context, config: Config, now: Ticks): Option<Notice> {
    if Trips(RecentCount(context, config, now), config)
    then Some(Notice(pid, context.image, now, RecentCount(context, config, now)))
    else None
  }

  /** The context a recording finds: the tracked one, or a fresh one. */
  function ContextFor(table: Table, pid: ULong, image: Option<string>): Context {
    if pid in table then table[pid] else FreshContext(image)
  }

  function RecordTable(table: Table, config: Config, pid: ULong, image: Option<string>, now: Ticks): Table {
    if IsBlocked(table, pid) then table
    else table[pid := Absorb(ContextFor(table, pid, image), config, now)]
  }

  function RecordVerdict(table: Table, config: Config, pid: ULong, image: Option<string>, now: Ticks): Answer {
    if IsBlocked(table, pid) then Verdict(true, None)
    else
      var context := ContextFor(table, pid, image);
      Verdict(Trips(RecentCount(context, config, now), config), NoticeOf(pid, context, config, now))
  }

  // ---- The other regions -------------------------------------------------------------

  function Configured(config: Config, threshold: ULong, seconds: ULong, monitoring: bool): Config {
    Config(if threshold > 0 then threshold else config.threshold,
           if seconds > 0 then seconds else config.seconds,
           if seconds > 0 then seconds * TICKS_PER_SECOND else config.ticks,
           monitoring)
  }

  /** RsAddDynamicAllowlistEntry: empty entries and entries beyond the 128th are ignored. */
  function NameAdded(names: seq<string>, entry: string): seq<string> {
    if entry == [] || |names| >= MAX_ALLOWLIST_ENTRIES then names
    else names + [CString(First(entry, MAX_NAME))]
  }

  function BlockedPids(table: Table): set<ULong> {
    set pid | pid in table && table[pid].blocked
  }

  /** The blocked contexts, from which a report of blocked PIDs is made. */
  function BlockedPart(table: Table): Table {
    map pid | pid in table && table[pid].blocked :: table[pid]
  }

  function NextNumber(n: ULong): ULong {
    (n + 1) % ULONG_RANGE
  }

  function After(s: State, e: Event): State {
    match e
    case Record(pid, image, now) => s.(table := RecordTable(s.table, s.config, pid, image, now))
    case Unblock(pid) => s.(table := s.table - {pid})
    case Configure(threshold, seconds, monitoring) => s.(config := Configured(s.config, threshold, seconds, monitoring))
    case SetMonitoring(on) => s.(config := s.config.(monitoring := on))
    case AddName(entry) => s.(names := NameAdded(s.names, entry))
    case ClearNames => s.(names := [])
    case TakeNumber => s.(sequence := NextNumber(s.sequence))
    case ReadConfig => s.(sequence := NextNumber(s.sequence))
    case ReadNames => s.(sequence := NextNumber(s.sequence))
    case MatchName(_, _) => s
    case CountPids => s
    case ListBlocked => s
  }

  function AnswerTo(s: State, e: Event): Answer {
    match e
    case Record(pid, image, now) => RecordVerdict(s.table, s.config, pid, image, now)
    case TakeNumber => Numbered(s.sequence)
    case ReadConfig => ConfigRead(s.sequence, s.config)
    case ReadNames => NamesRead(s.sequence, s.names)
    case MatchName(fold, file) => Matched(Listed(fold, file, s.names))
    case CountPids => Counted(|s.table|, |BlockedPids(s.table)|)
    case ListBlocked => Snapshot(BlockedPart(s.table))
    case _ => Acknowledged
  }

  /** The state after a whole run of events, the last event applied last. */
  function Run(s: State, es: seq<Event>): State {
    if es == [] then s else After(Run(s, es[..|es| - 1]), es[|es| - 1])
  }

  lemma {:induction false} RunConcat(s: State, a: seq<Event>, b: seq<Event>)
    ensures Run(s, a + b) == Run(Run(s, a), b)
  {
    if b == [] {
      assert a + b == a;
    } else {
      RunConcat(s, a, b[..|b| - 1]);
      assert (a + b)[..|a + b| - 1] == a + b[..|b| - 1];
    }
  }

  lemma RunSnoc(s: State, es: seq<Event>, e: Event)
    ensures Run(s, es + [e]) == After(Run(s, es), e)
  {
    assert (es + [e])[..|es|] == es;
  }

  // ---- Invariants of every run ---------------------------------------------------------

  /** The pre-operation callbacks never record for the idle process or the System process. */
  predicate Legal(e: Event) {
    e.Record? ==> e.pid != 0 && e.pid != 4
  }

  predicate AllLegal(es: seq<Event>) {
    forall i :: 0 <= i < |es| ==> Legal(es[i])
  }

  ghost predicate SoundConfig(config: Config) {
    1 <= config.threshold && 1 <= config.seconds && config.ticks == config.seconds * TICKS_PER_SECOND
  }

  ghost predicate SoundState(s: State) {
    && SoundConfig(s.config)
    && 0 !in s.table && 4 !in s.table
    && (forall pid :: pid in s.table ==> 1 <= |s.table[pid].ring| <= RING_CAPACITY)
    && |s.names| <= MAX_ALLOWLIST_ENTRIES
    && (forall i :: 0 <= i < |s.names| ==> |s.names[i]| <= MAX_NAME && NUL !in s.names[i])
  }

  lemma SoundStep(s: State, e: Event)
    requires SoundState(s) && Legal(e)
    ensures SoundState(After(s, e))
  {
    match e {
      case Record(pid, image, now) =>
        RecountAgrees(ContextFor(s.table, pid, image).ring, now, s.config.ticks);
      case AddName(entry) =>
        CStringIsNulFreePrefix(First(entry, MAX_NAME));
      case _ =>
    }
  }

  /** In every reachable state the threshold and the window are positive, the window in ticks is
      exact, rings fit their buffer and the pushed names fit theirs. */
  lemma {:induction false} ReachableIsSound(es: seq<Event>)
    requires AllLegal(es)
    ensures SoundState(Run(INITIAL, es))
  {
    if es != [] {
      ReachableIsSound(es[..|es| - 1]);
      SoundStep(Run(INITIAL, es[..|es| - 1]), es[|es| - 1]);
    }
  }

  // ---- Which update a setting comes from ---------------------------------------------------

  predicate SetsThreshold(e: Event) {
    e.Configure? && e.threshold > 0
  }

  predicate SetsWindow(e: Event) {
    e.Configure? && e.seconds > 0
  }

  predicate SetsMonitoring(e: Event) {
    e.Configure? || e.SetMonitoring?
  }

  /** Position k is the last one at which `sets` holds. */
  ghost predicate LatestAt(es: seq<Event>, sets: Event -> bool, k: nat) {
    k < |es| && sets(es[k]) && forall j :: k < j < |es| ==> !sets(es[j])
  }

  lemma LatestInFront(es: seq<Event>, sets: Event -> bool, k: nat)
    requires LatestAt(es, sets, k)
    ensures sets(es[|es| - 1]) <==> k == |es| - 1
    ensures k < |es| - 1 ==> LatestAt(es[..|es| - 1], sets, k)
  {
  }

  /** A zero field of an update changes nothing: threshold and window are those of the latest update
      that named a positive one. Every update and every pause or resume sets the monitoring flag. */
  lemma {:induction false} SettingsAreLatest(s: State, es: seq<Event>, k: nat)
    ensures LatestAt(es, SetsThreshold, k) ==> Run(s, es).config.threshold == es[k].threshold
    ensures LatestAt(es, SetsWindow, k) ==>
              Run(s, es).config.seconds == es[k].seconds && Run(s, es).config.ticks == es[k].seconds * TICKS_PER_SECOND
    ensures LatestAt(es, SetsMonitoring, k) ==>
              Run(s, es).config.monitoring == if es[k].Configure? then es[k].monitoring else es[k].on
  {
    if es != [] {
      SettingsAreLatest(s, es[..|es| - 1], k);
      if LatestAt(es, SetsThreshold, k) { LatestInFront(es, SetsThreshold, k); }
      if LatestAt(es, SetsWindow, k) { LatestInFront(es, SetsWindow, k); }
      if LatestAt(es, SetsMonitoring, k) { LatestInFront(es, SetsMonitoring, k); }
    }
  }

  /** Distinct 32-bit PIDs other than 0 and 4: the tracked-PID counter cannot wrap. */
  lemma TrackedCountFits(table: Table)
    requires 0 !in table && 4 !in table
    ensures |table| <= ULONG_RANGE - 2
  {
    assert |table| == |table.Keys|;
    BoundedSet(table.Keys + {0, 4}, ULONG_RANGE);
  }

  lemma BlockedAmongTracked(table: Table)
    ensures |BlockedPids(table)| <= |table|
  {
    assert BlockedPids(table) <= table.Keys;
    Subset(BlockedPids(table), table.Keys);
  }

  // ---- The log behind a context -----------------------------------------------------------

  /** The operations recorded for `pid` since its present context was created, each with the
      window in force; operations answered by an existing block are not recorded. */
  function Logged(s: State, es: seq<Event>, pid: ULong): seq<Stamp> {
    if es == [] then []
    else
      var front, e := es[..|es| - 1], es[|es| - 1];
      var before := Run(s, front);
      if e == Unblock(pid) then []
      else if e.Record? && e.pid == pid && !IsBlocked(before.table, pid)
      then Logged(s, front, pid) + [Stamp(e.now, before.config.ticks)]
      else Logged(s, front, pid)
  }

  /** For every run, whatever the clock or the configuration did: a context's ring is the
      replay of its log, and it exists exactly when something was logged. */
  lemma {:induction false} RingReplaysLog(s: State, es: seq<Event>, pid: ULong)
    requires pid !in s.table
    ensures pid in Run(s, es).table <==> Logged(s, es, pid) != []
    ensures pid in Run(s, es).table ==> Run(s, es).table[pid].ring == Replay(Logged(s, es, pid))
  {
    if es != [] {
      var front, e := es[..|es| - 1], es[|es| - 1];
      RingReplaysLog(s, front, pid);
      if e.Record? && e.pid == pid && !IsBlocked(Run(s, front).table, pid) {
        var log := Logged(s, front, pid);
        assert (log + [Stamp(e.now, Run(s, front).config.ticks)])[..|log|] == log;
      }
    }
  }

  /** The log once one more operation of an unblocked PID is recorded. */
  function LogWith(s: State, es: seq<Event>, pid: ULong, now: Ticks): seq<Stamp> {
    Logged(s, es, pid) + [Stamp(now, Run(s, es).config.ticks)]
  }

  /** What a recording decides, in terms of the replayed log. */
  lemma VerdictFromReplay(s: State, es: seq<Event>, pid: ULong, image: Option<string>, now: Ticks)
    requires pid !in s.table && !IsBlocked(Run(s, es).table, pid)
    ensures var config := Run(s, es).config;
            var ring := Replay(LogWith(s, es, pid, now));
            && Within(ring, now, config.ticks) == ring
            && |ring| <= RING_CAPACITY
            && (IsBlocked(RecordTable(Run(s, es).table, config, pid, image, now), pid)
                <==> config.monitoring && |ring| >= config.threshold)
  {
    var before := Run(s, es);
    ReplaySnoc(Logged(s, es, pid), Stamp(now, before.config.ticks));
    RingReplaysLog(s, es, pid);
    VerdictFromRing(before.table, before.config, pid, image, now);
  }

  lemma VerdictFromRing(table: Table, config: Config, pid: ULong, image: Option<string>, now: Ticks)
    requires !IsBlocked(table, pid)
    ensures var ring := RingStep(ContextFor(table, pid, image).ring, now, config.ticks);
            && Within(ring, now, config.ticks) == ring
            && |ring| <= RING_CAPACITY
            && RecordVerdict(table, config, pid, image, now).block == (config.monitoring && |ring| >= config.threshold)
    ensures IsBlocked(RecordTable(table, config, pid, image, now), pid)
            == RecordVerdict(table, config, pid, image, now).block
  {
    RecountAgrees(ContextFor(table, pid, image).ring, now, config.ticks);
  }

  /** No false block: a PID turns blocked only while monitoring is on and only if at least
      threshold-many operations recorded since its context was created are of age at most the
      current window. Nothing is assumed of the clock or of the configuration history. */
  lemma NoFalseBlock(s: State, es: seq<Event>, pid: ULong, image: Option<string>, now: Ticks)
    requires pid !in s.table && !IsBlocked(Run(s, es).table, pid)
    requires IsBlocked(After(Run(s, es), Record(pid, image, now)).table, pid)
    ensures var config := Run(s, es).config;
            && config.monitoring
            && config.threshold <= RING_CAPACITY
            && |Within(Times(LogWith(s, es, pid, now)), now, config.ticks)| >= config.threshold
  {
    VerdictFromReplay(s, es, pid, image, now);
    RingNeverOvercounts(LogWith(s, es, pid, now), now, Run(s, es).config.ticks);
  }

  /** A justified trip at position k of a run: the record that blocked `pid`, while monitoring was on
      and with at least threshold-many recorded operations in the window. */
  ghost predicate Trip(s: State, es: seq<Event>, k: nat, pid: ULong) {
    && k < |es| && es[k].Record? && es[k].pid == pid
    && !IsBlocked(Run(s, es[..k]).table, pid)
    && var config := Run(s, es[..k]).config;
    && config.monitoring
    && |Within(Times(LogWith(s, es[..k], pid, es[k].now)), es[k].now, config.ticks)| >= config.threshold
  }

  /** Every block has a cause: whenever a PID is blocked, some earlier operation of its own tripped
      the threshold, at the time that is kept as that of the block, and no unblock of that PID has come
      since. */
  lemma {:induction false} BlockHasCause(s: State, es: seq<Event>, pid: ULong) returns (k: nat)
    requires pid !in s.table && IsBlocked(Run(s, es).table, pid)
    ensures Trip(s, es, k, pid) && Unblock(pid) !in es[k..]
    ensures Run(s, es).table[pid].blockedAt == es[k].now
  {
    var front, e := es[..|es| - 1], es[|es| - 1];
    if IsBlocked(Run(s, front).table, pid) {
      k := BlockHasCause(s, front, pid);
      assert front[..k] == es[..k] && es[k..] == front[k..] + [e];
    } else {
      k := |front|;
      NoFalseBlock(s, front, pid, e.image, e.now);
      assert es[..k] == front && es[k..] == [e];
    }
  }

  /** With timestamps in order and the window never widened since the context was created, the
      bounded ring decides exactly as the unbounded log would, up to thresholds of 256; above
      256 nothing is ever blocked. */
  lemma BlocksExactlyLikeLog(s: State, es: seq<Event>, pid: ULong, image: Option<string>, now: Ticks)
    requires pid !in s.table && !IsBlocked(Run(s, es).table, pid)
    requires Disciplined(LogWith(s, es, pid, now))
    ensures var config := Run(s, es).config;
            IsBlocked(After(Run(s, es), Record(pid, image, now)).table, pid)
            <==> && config.monitoring
                 && config.threshold <= RING_CAPACITY
                 && |Within(Times(LogWith(s, es, pid, now)), now, config.ticks)| >= config.threshold
  {
    VerdictFromReplay(s, es, pid, image, now);
    LoggedWindows(s, es, pid);
    RingIsLastWithin(LogWith(s, es, pid, now));
  }

  lemma {:induction false} LoggedWindows(s: State, es: seq<Event>, pid: ULong)
    ensures forall i :: 0 <= i < |Logged(s, es, pid)| ==> 0 <= Logged(s, es, pid)[i].window
  {
    if es != [] {
      LoggedWindows(s, es[..|es| - 1], pid);
    }
  }

  /** One recording, field by field: nothing but the PID's own context changes; a blocked one stays as it is
      and denies; any other takes the time as its last activity, and is blocked, with that time as the time of
      the block, exactly if monitoring is on and its ring has reached the threshold. Then, and only then, is
      there a notice, and it carries the PID, the image name, that time and the length of the ring. */
  lemma RecordingDecides(s: State, pid: ULong, image: Option<string>, now: Ticks)
    ensures var t, answer := After(s, Record(pid, image, now)), AnswerTo(s, Record(pid, image, now));
            && t == s.(table := t.table) && pid in t.table && t.table - {pid} == s.table - {pid}
            && var context, count := t.table[pid], |t.table[pid].ring|;
            && (IsBlocked(s.table, pid) ==> context == s.table[pid] && answer == Verdict(true, None))
            && (!IsBlocked(s.table, pid) ==>
                  && context.lastActivity == now
                  && (context.blocked <==> s.config.monitoring && count >= s.config.threshold)
                  && (context.blocked ==> context.blockedAt == now)
                  && answer == Verdict(context.blocked,
                                       if context.blocked then Some(Notice(pid, context.image, now, count)) else None))
  {
    RecountAgrees(ContextFor(s.table, pid, image).ring, now, s.config.ticks);
  }

  // ---- Whose name a context and a notice carry -------------------------------------------------

  /** No name if there was none to copy, and else its first 259 characters. */
  predicate IsCopyOf(image: string, source: Option<string>) {
    match source
    case None => image == []
    case Some(name) => image <= name && |image| == Min(|name|, 259)
  }

  lemma CopiedNameIsCopy(image: Option<string>)
    ensures IsCopyOf(CopiedName(image), image)
  {
  }

  /** The recording that creates a context gives it the name it keeps, whatever names later recordings
      come with, until the PID is unblocked. */
  lemma {:induction false} NameOfCreation(s: State, es: seq<Event>, pid: ULong, image: Option<string>, now: Ticks,
                                          rest: seq<Event>)
    requires pid !in Run(s, es).table && Unblock(pid) !in rest
    ensures var t := Run(s, es + [Record(pid, image, now)] + rest);
            pid in t.table && IsCopyOf(t.table[pid].image, image)
  {
    var begun := es + [Record(pid, image, now)];
    if rest == [] {
      RunSnoc(s, es, Record(pid, image, now));
      assert begun + rest == begun;
      CopiedNameIsCopy(image);
    } else {
      NameOfCreation(s, es, pid, image, now, rest[..|rest| - 1]);
      LastOf(begun, rest, Unblock(pid));
    }
  }

  /** Position j of a run is the recording that created the context that `pid` still has. */
  ghost predicate Created(s: State, es: seq<Event>, j: nat, pid: ULong) {
    j < |es| && es[j].Record? && es[j].pid == pid && pid !in Run(s, es[..j]).table && Unblock(pid) !in es[j..]
  }

  /** Conversely, every context has been created by a recording of its PID, and carries its name. */
  lemma {:induction false} NameHasSource(s: State, es: seq<Event>, pid: ULong) returns (j: nat)
    requires pid !in s.table && pid in Run(s, es).table
    ensures Created(s, es, j, pid) && IsCopyOf(Run(s, es).table[pid].image, es[j].image)
  {
    var front, e := es[..|es| - 1], es[|es| - 1];
    if pid in Run(s, front).table {
      j := NameHasSource(s, front, pid);
      assert front[..j] == es[..j] && es[j..] == front[j..] + [e];
    } else {
      j := |front|;
      CopiedNameIsCopy(e.image);
      assert es[..j] == front && es[j..] == [e];
    }
  }

  /** A notice carries the name of the recording that created the context it is about. */
  lemma {:induction false} NoticeHasSource(s: State, es: seq<Event>, pid: ULong, image: Option<string>, now: Ticks)
    returns (j: nat)
    requires pid !in s.table && AnswerTo(Run(s, es), Record(pid, image, now)).notice.Some?
    ensures var all := es + [Record(pid, image, now)];
            Created(s, all, j, pid) && IsCopyOf(AnswerTo(Run(s, es), Record(pid, image, now)).notice.value.image, all[j].image)
  {
    RunSnoc(s, es, Record(pid, image, now));
    RecordingDecides(Run(s, es), pid, image, now);
    j := NameHasSource(s, es + [Record(pid, image, now)], pid);
  }

  // ---- Sticky block, clean unblock, pause -----------------------------------------------------

  /** A recording answers "block" exactly when its PID is blocked in the table afterwards. */
  lemma DeniedIffBlocked(s: State, pid: ULong, image: Option<string>, now: Ticks)
    ensures AnswerTo(s, Record(pid, image, now)).block <==> IsBlocked(After(s, Record(pid, image, now)).table, pid)
    ensures AnswerTo(s, Record(pid, image, now)).notice.Some?
       <==> !IsBlocked(s.table, pid) && IsBlocked(After(s, Record(pid, image, now)).table, pid)
    ensures forall other :: other != pid ==>
              (other in After(s, Record(pid, image, now)).table <==> other in s.table)
              && (other in s.table ==> After(s, Record(pid, image, now)).table[other] == s.table[other])
  {
  }

  /** Once blocked, a PID's context is frozen and every recording for it is denied without a
      second notice, whatever else happens, until that PID is unblocked. */
  lemma {:induction false} BlockIsSticky(s: State, es: seq<Event>, pid: ULong)
    requires IsBlocked(s.table, pid) && Unblock(pid) !in es
    ensures pid in Run(s, es).table && Run(s, es).table[pid] == s.table[pid]
    ensures forall k :: 0 <= k < |es| && es[k].Record? && es[k].pid == pid
                        ==> AnswerTo(Run(s, es[..k]), es[k]) == Verdict(true, None)
  {
    if es != [] {
      var front, e := es[..|es| - 1], es[|es| - 1];
      BlockIsSticky(s, front, pid);
      forall k | 0 <= k < |es| && es[k].Record? && es[k].pid == pid
        ensures AnswerTo(Run(s, es[..k]), es[k]) == Verdict(true, None)
      {
        if k < |front| {
          assert front[..k] == es[..k] && front[k] == es[k];
        }
      }
    }
  }

  function CountRecords(es: seq<Event>, pid: ULong): nat {
    if es == [] then 0
    else CountRecords(es[..|es| - 1], pid) + if es[|es| - 1].Record? && es[|es| - 1].pid == pid then 1 else 0
  }

  lemma {:induction false} LoggedAreRecords(s: State, es: seq<Event>, pid: ULong)
    ensures |Logged(s, es, pid)| <= CountRecords(es, pid)
  {
    if es != [] {
      LoggedAreRecords(s, es[..|es| - 1], pid);
    }
  }

  /** After an unblock the PID starts afresh: its next block needs threshold-many operations
      recorded after the unblock, all of them in the window. */
  lemma UnblockIsClean(s: State, before: seq<Event>, since: seq<Event>, pid: ULong, image: Option<string>, now: Ticks)
    requires var t := Run(s, before + [Unblock(pid)] + since);
             !IsBlocked(t.table, pid) && IsBlocked(After(t, Record(pid, image, now)).table, pid)
    ensures var clean := Run(s, before + [Unblock(pid)]);
            var config := Run(clean, since).config;
            && pid !in clean.table
            && |Within(Times(LogWith(clean, since, pid, now)), now, config.ticks)| >= config.threshold
            && CountRecords(since, pid) + 1 >= config.threshold
  {
    var clean := Run(s, before + [Unblock(pid)]);
    RunSnoc(s, before, Unblock(pid));
    RunConcat(s, before + [Unblock(pid)], since);
    NoFalseBlock(clean, since, pid, image, now);
    LoggedAreRecords(clean, since, pid);
    TimesOf(LogWith(clean, since, pid, now));
    WithinSelects(Times(LogWith(clean, since, pid, now)), now, Run(clean, since).config.ticks);
  }

  predicate TurnsMonitoringOn(e: Event) {
    (e.Configure? && e.monitoring) || (e.SetMonitoring? && e.on)
  }

  predicate StaysPaused(es: seq<Event>) {
    forall i :: 0 <= i < |es| ==> !TurnsMonitoringOn(es[i])
  }

  /** The log a context has after the events `pre`, extended by every operation recorded for its
      PID in `es`, skipping none. */
  function RecordedSince(s: State, pre: seq<Event>, es: seq<Event>, pid: ULong): seq<Stamp> {
    if es == [] then Logged(s, pre, pid)
    else
      var front, e := es[..|es| - 1], es[|es| - 1];
      if e == Unblock(pid) then []
      else if e.Record? && e.pid == pid
      then RecordedSince(s, pre, front, pid) + [Stamp(e.now, Run(s, pre + front).config.ticks)]
      else RecordedSince(s, pre, front, pid)
  }

  /** While monitoring is off nothing becomes blocked and no operation of an unblocked PID
      escapes its log. */
  lemma {:induction false} PauseBlocksNothingNew(s: State, pre: seq<Event>, es: seq<Event>, pid: ULong)
    requires !Run(s, pre).config.monitoring && StaysPaused(es)
    ensures !Run(s, pre + es).config.monitoring
    ensures IsBlocked(Run(s, pre + es).table, pid) <==> IsBlocked(Run(s, pre).table, pid) && Unblock(pid) !in es
    ensures !IsBlocked(Run(s, pre).table, pid) ==> Logged(s, pre + es, pid) == RecordedSince(s, pre, es, pid)
  {
    if es == [] {
      assert pre + es == pre;
    } else {
      var front, e := es[..|es| - 1], es[|es| - 1];
      PauseBlocksNothingNew(s, pre, front, pid);
      LastOf(pre, es, Unblock(pid));
      var t, t' := Run(s, pre + front), Run(s, pre + es);
      assert t' == After(t, e);
      PausedStep(t, e, pid);
    }
  }

  lemma LastOf(pre: seq<Event>, es: seq<Event>, unblock: Event)
    requires es != []
    ensures (pre + es)[..|pre + es| - 1] == pre + es[..|es| - 1] && (pre + es)[|pre + es| - 1] == es[|es| - 1]
    ensures unblock in es <==> unblock in es[..|es| - 1] || unblock == es[|es| - 1]
  {
    assert es == es[..|es| - 1] + [es[|es| - 1]];
  }

  lemma PausedStep(t: State, e: Event, pid: ULong)
    requires !t.config.monitoring && !TurnsMonitoringOn(e)
    ensures !After(t, e).config.monitoring
    ensures IsBlocked(After(t, e).table, pid) <==> IsBlocked(t.table, pid) && e != Unblock(pid)
  {
  }

  /** No event is a recording or an unblock of `pid`; everything else may happen. */
  predicate PassesBy(es: seq<Event>, pid: ULong) {
    forall i :: 0 <= i < |es| ==> !(es[i].Record? && es[i].pid == pid) && !(es[i].Unblock? && es[i].pid == pid)
  }

  lemma {:induction false} LogStaysWhilePassedBy(s: State, es: seq<Event>, mid: seq<Event>, pid: ULong)
    requires PassesBy(mid, pid)
    ensures Logged(s, es + mid, pid) == Logged(s, es, pid)
    ensures IsBlocked(Run(s, es + mid).table, pid) <==> IsBlocked(Run(s, es).table, pid)
  {
    if mid == [] {
      assert es + mid == es;
    } else {
      LogStaysWhilePassedBy(s, es, mid[..|mid| - 1], pid);
      LastOf(es, mid, Unblock(pid));
    }
  }

  /** Pause keeps tracking: however monitoring is turned on again, and whatever other processes and
      clients do before and after that, the first operation then recorded for a PID is denied exactly
      when the ring of its whole log, with everything recorded during the pause, reaches the threshold
      in force, monitoring still being on. */
  lemma {:induction false} PauseKeepsTracking(s: State, pre: seq<Event>, paused: seq<Event>, resume: Event, mid: seq<Event>,
                                              pid: ULong, image: Option<string>, now: Ticks)
    requires !Run(s, pre).config.monitoring && StaysPaused(paused)
    requires TurnsMonitoringOn(resume) && PassesBy(mid, pid)
    requires pid !in s.table && !IsBlocked(Run(s, pre).table, pid)
    ensures var resumed := Run(s, pre + paused + ([resume] + mid));
            var log := RecordedSince(s, pre, paused, pid) + [Stamp(now, resumed.config.ticks)];
            AnswerTo(resumed, Record(pid, image, now)).block
            <==> resumed.config.monitoring && |Replay(log)| >= resumed.config.threshold
  {
    var rest := [resume] + mid;
    PauseBlocksNothingNew(s, pre, paused, pid);
    LogStaysWhilePassedBy(s, pre + paused, rest, pid);
    VerdictFromReplay(s, pre + paused + rest, pid, image, now);
  }
}
