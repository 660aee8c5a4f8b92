/** The settings and the allowlist as the user-mode service keeps them (usermode/common/ConfigManager.cpp):
    in memory, and in numbered slots of the registry. */
module ConfigManagers {
  import opened Base
  import opened Allowlist
  import opened Names

  // ---- The registry -------------------------------------------------------------------------

  /** A stored value; the text of a REG_SZ is its characters as written, terminator included. */
  datatype RegValue = Dword(value: ULong) | Sz(units: string) | OtherType

  type Key = map<string, RegValue>

  const DEFAULT_THRESHOLD: ULong := 50
  const DEFAULT_WINDOW: ULong := 10
  const DEFAULT_MONITORING: ULong := 1
  const PROTOCOL_VERSION: ULong := 2

  /** ReadDWord: the value, or the default if it is missing or of another type. */
  function ReadDWord(key: Key, name: string, default: ULong): ULong {
    if name in key && key[name].Dword? then key[name].value else default
  }

  ghost predicate HoldsDword(key: Key, name: string) {
    name in key && key[name].Dword?
  }

  const THRESHOLD_NAME := "FileCountThreshold"
  const WINDOW_NAME := "TimeWindowSeconds"
  const MONITORING_NAME := "MonitoringEnabled"
  const VERSION_NAME := "ProtocolVersion"

  /** The registry calls of a save, any of which may fail: the four settings, the deletion of each slot,
      and the writing of each slot. */
  datatype Call = SetSetting(i: nat) | DeleteSlot(slot: nat) | WriteSlot(slot: nat)

  function AllWork(call: Call): bool {
    true
  }

  /** RegSetValueExW: a call that fails leaves the value as it was. */
  function WithValue(key: Key, works: bool, name: string, value: RegValue): Key {
    if works then key[name := value] else key
  }

  /** What SaveToRegistry leaves in the Config key. */
  function SavedSettings(key: Key, threshold: ULong, window: ULong, monitoring: bool, works: Call -> bool): Key {
    var k1 := WithValue(key, works(SetSetting(0)), THRESHOLD_NAME, Dword(threshold));
    var k2 := WithValue(k1, works(SetSetting(1)), WINDOW_NAME, Dword(window));
    var k3 := WithValue(k2, works(SetSetting(2)), MONITORING_NAME, Dword(if monitoring then 1 else 0));
    WithValue(k3, works(SetSetting(3)), VERSION_NAME, Dword(PROTOCOL_VERSION))
  }

  /** The names are distinct, so each value is the one written under its own name if that call succeeded,
      and what it was before if not. */
  lemma SettingsRoundTrip(key: Key, threshold: ULong, window: ULong, monitoring: bool, works: Call -> bool)
    ensures var saved := SavedSettings(key, threshold, window, monitoring, works);
            && (works(SetSetting(0)) ==> THRESHOLD_NAME in saved && saved[THRESHOLD_NAME] == Dword(threshold))
            && (works(SetSetting(1)) ==> WINDOW_NAME in saved && saved[WINDOW_NAME] == Dword(window))
            && (works(SetSetting(2)) ==> MONITORING_NAME in saved && saved[MONITORING_NAME] == Dword(if monitoring then 1 else 0))
            && (works(SetSetting(3)) ==> VERSION_NAME in saved && saved[VERSION_NAME] == Dword(2))
            && (!works(SetSetting(0)) ==> SameValue(saved, key, THRESHOLD_NAME))
            && (!works(SetSetting(1)) ==> SameValue(saved, key, WINDOW_NAME))
            && (!works(SetSetting(2)) ==> SameValue(saved, key, MONITORING_NAME))
  {
    assert |THRESHOLD_NAME| == 18 && |WINDOW_NAME| == 17 && |MONITORING_NAME| == 17 && |VERSION_NAME| == 15;
    assert WINDOW_NAME[0] == 'T' && MONITORING_NAME[0] == 'M';
  }

  ghost predicate SameValue(a: Key, b: Key, name: string) {
    (name in a <==> name in b) && (name in a ==> a[name] == b[name])
  }

  // ---- Slot names ------------------------------------------------------------------------------

  function Digit(d: nat): char
    requires d < 10
  {
    "0123456789"[d]
  }

  function Decimal(n: nat): string {
    if n < 10 then [Digit(n)] else Decimal(n / 10) + [Digit(n % 10)]
  }

  /** "Entry%02lu" */
  function SlotName(i: nat): string {
    "Entry" + (if i < 10 then "0" + Decimal(i) else Decimal(i))
  }

  lemma TwoDigits(n: nat)
    requires n < 100
    ensures (if n < 10 then "0" + Decimal(n) else Decimal(n)) == [Digit(n / 10), Digit(n % 10)]
  {
  }

  lemma ThreeDigits(tens: nat, ones: nat)
    requires 10 <= tens < 100 && ones < 10
    ensures Decimal(10 * tens + ones) == [Digit(tens / 10), Digit(tens % 10), Digit(ones)]
  {
    TwoDigits(tens);
    assert (10 * tens + ones) / 10 == tens && (10 * tens + ones) % 10 == ones;
  }

  /** "Entry00" to "Entry99"... */
  lemma SlotNameIsPadded(i: nat)
    requires i < 100
    ensures SlotName(i) == "Entry" + [Digit(i / 10), Digit(i % 10)]
  {
    TwoDigits(i);
  }

  /** ...then "Entry100" and on. */
  lemma SlotNameGoesOn(tens: nat, ones: nat)
    requires 10 <= tens < 100 && ones < 10
    ensures SlotName(10 * tens + ones) == "Entry" + [Digit(tens / 10), Digit(tens % 10), Digit(ones)]
  {
    ThreeDigits(tens, ones);
  }

  lemma {:induction false} DecimalIsInjective(m: nat, n: nat)
    requires Decimal(m) == Decimal(n)
    ensures m == n
    decreases m + n
  {
    var a, b := Decimal(m), Decimal(n);
    assert a[|a| - 1] == b[|b| - 1];
    assert m % 10 == n % 10;
    if m >= 10 && n >= 10 {
      assert Decimal(m / 10) == a[..|a| - 1] == b[..|b| - 1] == Decimal(n / 10);
      DecimalIsInjective(m / 10, n / 10);
    } else {
      DecimalLength(m);
      DecimalLength(n);
    }
  }

  lemma {:induction false} DecimalLength(n: nat)
    ensures |Decimal(n)| >= 1 && (|Decimal(n)| == 1 <==> n < 10)
    ensures n >= 10 ==> Decimal(n)[0] != '0'
  {
    if n >= 10 {
      DecimalLength(n / 10);
      if n / 10 < 10 {
        assert Decimal(n)[0] == Digit(n / 10);
      }
    }
  }

  /** No two slots share a name, however many digits they need. */
  lemma SlotNamesAreDistinct(i: nat, j: nat)
    requires SlotName(i) == SlotName(j)
    ensures i == j
  {
    var prefix := |"Entry"|;
    var a, b := SlotName(i)[prefix..], SlotName(j)[prefix..];
    assert a == b && |a| > 0 && a[0] == b[0];
    DecimalLength(i);
    DecimalLength(j);
    if i < 10 && j < 10 {
      assert ("0" + Decimal(i))[1..] == Decimal(i) && ("0" + Decimal(j))[1..] == Decimal(j);
      DecimalIsInjective(i, j);
    } else if i >= 10 && j >= 10 {
      DecimalIsInjective(i, j);
    }
  }

  // ---- Saving and loading the allowlist -----------------------------------------------------------

  /** The characters RegSetValueExW is told to store: the byte count is cast to 32 bits. */
  function Stored(entry: string): string {
    First(entry + [NUL], ((|entry| + 1) * 2) % ULONG_RANGE / 2)
  }

  function WithoutSlots(key: Key, n: nat, works: Call -> bool): Key {
    if n == 0 then key
    else if works(DeleteSlot(n - 1)) then WithoutSlots(key, n - 1, works) - {SlotName(n - 1)}
    else WithoutSlots(key, n - 1, works)
  }

  function WithSlots(key: Key, list: seq<string>, n: nat, works: Call -> bool): Key
    requires n <= |list|
  {
    if n == 0 then key
    else WithValue(WithSlots(key, list, n - 1, works), works(WriteSlot(n - 1)), SlotName(n - 1), Sz(Stored(list[n - 1])))
  }

  /** What SaveToRegistry leaves in the Allowlist key. */
  function Saved(key: Key, list: seq<string>, works: Call -> bool): Key {
    WithSlots(WithoutSlots(key, MAX_ALLOWLIST_ENTRIES, works), list, |list|, works)
  }

  /** RegQueryValueExW into a 260-character buffer: succeeds on a REG_SZ that is not longer. */
  function ReadSlot(key: Key, slot: nat): Option<string> {
    var name := SlotName(slot);
    if name in key && key[name].Sz? && |key[name].units| <= MAX_NAME + 1 then Some(CString(key[name].units)) else None
  }

  /** What LoadFromRegistry reads from slot `from` on: it stops at the first unreadable slot. */
  function LoadedFrom(key: Key, from: nat): seq<string>
    decreases MAX_ALLOWLIST_ENTRIES - from, |key|
  {
    if from >= MAX_ALLOWLIST_ENTRIES || ReadSlot(key, from) == None then []
    else [ReadSlot(key, from).value] + LoadedFrom(key, from + 1)
  }

  /** An entry short enough to be read back. */
  predicate Fits(entry: string) {
    |Stored(entry)| <= MAX_NAME + 1
  }

  /** What of a saved list comes back: the entries before the first that does not fit, each cut at
      its first NUL. */
  function Surviving(list: seq<string>): seq<string> {
    if list == [] || !Fits(list[0]) then [] else [CString(Stored(list[0]))] + Surviving(list[1..])
  }

  lemma {:induction false} SlotsGone(key: Key, n: nat, i: nat, works: Call -> bool)
    ensures SlotName(i) in WithoutSlots(key, n, works)
       <==> SlotName(i) in key && !(i < n && works(DeleteSlot(i)))
    ensures SlotName(i) in WithoutSlots(key, n, works) ==> WithoutSlots(key, n, works)[SlotName(i)] == key[SlotName(i)]
  {
    if n > 0 {
      SlotsGone(key, n - 1, i, works);
      if i != n - 1 && SlotName(i) == SlotName(n - 1) {
        SlotNamesAreDistinct(i, n - 1);
      }
    }
  }

  lemma WithValueHolds(key: Key, works: bool, name: string, value: RegValue, other: string)
    ensures works ==> name in WithValue(key, works, name, value) && WithValue(key, works, name, value)[name] == value
    ensures other != name ==> (other in WithValue(key, works, name, value) <==> other in key)
    ensures other != name && other in key ==> WithValue(key, works, name, value)[other] == key[other]
  {
  }

  lemma {:induction false} SlotHolds(key: Key, list: seq<string>, n: nat, i: nat, works: Call -> bool)
    requires n <= |list|
    ensures i < n && works(WriteSlot(i)) ==>
              SlotName(i) in WithSlots(key, list, n, works) && WithSlots(key, list, n, works)[SlotName(i)] == Sz(Stored(list[i]))
    ensures i >= n ==> (SlotName(i) in WithSlots(key, list, n, works) <==> SlotName(i) in key)
    ensures i >= n && SlotName(i) in key ==> WithSlots(key, list, n, works)[SlotName(i)] == key[SlotName(i)]
  {
    if n > 0 {
      var m := n - 1;
      SlotHolds(key, list, m, i, works);
      if i != m && SlotName(i) == SlotName(m) {
        SlotNamesAreDistinct(i, m);
      }
      WithValueHolds(WithSlots(key, list, m, works), works(WriteSlot(m)), SlotName(m), Sz(Stored(list[m])), SlotName(i));
    }
  }

  predicate AllWritten(list: seq<string>, works: Call -> bool) {
    forall i :: 0 <= i < |list| ==> works(WriteSlot(i))
  }

  /** No old entry follows the list: its slot was deleted, or there was nothing readable in it. */
  predicate NothingStale(key: Key, list: seq<string>, works: Call -> bool) {
    |list| >= MAX_ALLOWLIST_ENTRIES || works(DeleteSlot(|list|)) || ReadSlot(key, |list|) == None
  }

  lemma SlotAfterList(key: Key, list: seq<string>, works: Call -> bool)
    requires |list| < MAX_ALLOWLIST_ENTRIES
    ensures ReadSlot(Saved(key, list, works), |list|) == None <==> NothingStale(key, list, works)
  {
    SlotHolds(WithoutSlots(key, MAX_ALLOWLIST_ENTRIES, works), list, |list|, |list|, works);
    SlotsGone(key, MAX_ALLOWLIST_ENTRIES, |list|, works);
  }

  lemma {:induction false} LoadSavedFrom(key: Key, list: seq<string>, from: nat, works: Call -> bool)
    requires from <= |list| && from <= MAX_ALLOWLIST_ENTRIES && AllWritten(list, works) && NothingStale(key, list, works)
    ensures LoadedFrom(Saved(key, list, works), from) == Surviving(First(list, MAX_ALLOWLIST_ENTRIES)[from..])
    decreases |list| - from
  {
    var kept := First(list, MAX_ALLOWLIST_ENTRIES);
    if from < |kept| {
      SlotHolds(WithoutSlots(key, MAX_ALLOWLIST_ENTRIES, works), list, |list|, from, works);
      LoadSavedFrom(key, list, from + 1, works);
      assert kept[from..][0] == list[from] && kept[from..][1..] == kept[from + 1..];
    } else if from < MAX_ALLOWLIST_ENTRIES {
      SlotAfterList(key, list, works);
    }
  }

  /** Save, then load, from any prior registry content: if every entry was written and no stale one
      follows, exactly the surviving entries among the first 128 come back. */
  lemma LoadAfterSave(key: Key, list: seq<string>, works: Call -> bool)
    requires AllWritten(list, works) && NothingStale(key, list, works)
    ensures LoadedFrom(Saved(key, list, works), 0) == Surviving(First(list, MAX_ALLOWLIST_ENTRIES))
  {
    LoadSavedFrom(key, list, 0, works);
    assert First(list, MAX_ALLOWLIST_ENTRIES)[0..] == First(list, MAX_ALLOWLIST_ENTRIES);
  }

  /** A load stops only at a slot it cannot read. */
  lemma {:induction false} StopsAtUnreadable(key: Key, from: nat)
    ensures from + |LoadedFrom(key, from)| < MAX_ALLOWLIST_ENTRIES ==> ReadSlot(key, from + |LoadedFrom(key, from)|) == None
    decreases MAX_ALLOWLIST_ENTRIES - from
  {
    if from < MAX_ALLOWLIST_ENTRIES && ReadSlot(key, from).Some? {
      StopsAtUnreadable(key, from + 1);
    }
  }

  predicate Clean(entry: string) {
    |entry| <= MAX_NAME && NUL !in entry
  }

  predicate AllClean(list: seq<string>) {
    forall i :: 0 <= i < |list| ==> Clean(list[i])
  }

  lemma SurvivesIffClean(entry: string)
    ensures Fits(entry) && CString(Stored(entry)) == entry <==> Clean(entry)
  {
    CStringIsNulFreePrefix(Stored(entry));
    if |entry| <= MAX_NAME {
      assert Stored(entry) == entry + [NUL];
      CutAtTerminator(entry, []);
      assert entry + [NUL] + [] == entry + [NUL];
      CStringIsNulFreePrefix(entry);
    }
  }

  lemma {:induction false} SurvivingIffClean(list: seq<string>)
    ensures |Surviving(list)| <= |list|
    ensures Surviving(list) == list <==> AllClean(list)
  {
    if list == [] {
    } else {
      SurvivingIffClean(list[1..]);
      SurvivesIffClean(list[0]);
      assert list == [list[0]] + list[1..];
      assert AllClean(list) <==> Clean(list[0]) && AllClean(list[1..]);
      if Fits(list[0]) {
        assert Surviving(list)[0] == CString(Stored(list[0])) && Surviving(list)[1..] == Surviving(list[1..]);
      }
    }
  }

  /** Every write having succeeded, the round trip is exact if and only if there are at most 128
      entries, each of at most 259 characters and free of NULs, and no stale entry follows the list. */
  lemma RoundTripIffClean(key: Key, list: seq<string>, works: Call -> bool)
    requires AllWritten(list, works)
    ensures LoadedFrom(Saved(key, list, works), 0) == list
       <==> |list| <= MAX_ALLOWLIST_ENTRIES && AllClean(list) && NothingStale(key, list, works)
  {
    if NothingStale(key, list, works) {
      LoadAfterSave(key, list, works);
      SurvivingIffClean(First(list, MAX_ALLOWLIST_ENTRIES));
    } else {
      SlotAfterList(key, list, works);
      StopsAtUnreadable(Saved(key, list, works), 0);
    }
  }

  // ---- Exceptions ---------------------------------------------------------------------------------

  /** _wcsicmp(a, b) == 0 */
  predicate SameText(fold: Fold, a: string, b: string) {
    SameName(fold, CString(a), CString(b))
  }

  /** The position of the first entry that equals `name` up to case, or the length of the list. */
  function FirstMatch(fold: Fold, list: seq<string>, name: string): (k: nat)
    ensures k <= |list| && (k < |list| ==> SameText(fold, list[k], name))
    ensures forall i :: 0 <= i < k ==> !SameText(fold, list[i], name)
  {
    if list == [] || SameText(fold, list[0], name) then 0 else 1 + FirstMatch(fold, list[1..], name)
  }

  predicate IsListed(fold: Fold, list: seq<string>, name: string) {
    FirstMatch(fold, list, name) < |list|
  }

  /** Without a case table an entry matches the names that agree with it up to the first NUL. */
  lemma {:induction false} IsListedPlain(list: seq<string>, name: string)
    ensures IsListed(map[], list, name) <==> exists i :: 0 <= i < |list| && CString(list[i]) == CString(name)
  {
    forall i | 0 <= i < |list| ensures SameText(map[], list[i], name) <==> CString(list[i]) == CString(name) {
      SamePlainName(CString(list[i]), CString(name));
    }
  }

  /** No two entries equal up to case. */
  ghost predicate NoDuplicates(fold: Fold, list: seq<string>) {
    forall i, j :: 0 <= i < j < |list| ==> !SameText(fold, list[i], list[j])
  }

  /** Removing an entry from a list without duplicates leaves no entry that equals it. */
  lemma RemovedIsGone(fold: Fold, list: seq<string>, name: string)
    requires NoDuplicates(fold, list) && IsListed(fold, list, name)
    ensures var k := FirstMatch(fold, list, name);
            var rest := list[..k] + list[k + 1..];
            NoDuplicates(fold, rest) && !IsListed(fold, rest, name)
  {
    var k := FirstMatch(fold, list, name);
    var rest := list[..k] + list[k + 1..];
    forall i | 0 <= i < |rest| ensures !SameText(fold, rest[i], name) {
      if i >= k {
        assert rest[i] == list[i + 1] && !SameText(fold, list[k], list[i + 1]);
      }
    }
  }

  class Registry {
    var config: Key
    var slots: Key
  }

  class ConfigManager {
    const registry: Registry
    var fileCountThreshold: ULong
    var timeWindowSeconds: ULong
    var monitoringEnabled: bool
    var allowlist: seq<string>

    constructor (registry: Registry)
      ensures this.registry == registry && allowlist == []
      ensures fileCountThreshold == DEFAULT_THRESHOLD && timeWindowSeconds == DEFAULT_WINDOW && monitoringEnabled
    {
      this.registry := registry;
      fileCountThreshold, timeWindowSeconds, monitoringEnabled := DEFAULT_THRESHOLD, DEFAULT_WINDOW, true;
      allowlist := [];
    }

    /** The search loop shared by AddException, RemoveException and IsException. */
    method Find(fold: Fold, name: string) returns (k: nat)
      ensures k == FirstMatch(fold, allowlist, name)
    {
      k := 0;
      while k < |allowlist|
        invariant k <= |allowlist|
        invariant FirstMatch(fold, allowlist, name) == k + FirstMatch(fold, allowlist[k..], name)
      {
        var same := EqualNames(fold, CString(allowlist[k]), CString(name));
        if same {
          return;
        }
        assert allowlist[k..][1..] == allowlist[k + 1..];
        k := k + 1;
      }
    }

    method IsException(fold: Fold, name: string) returns (listed: bool)
      ensures listed == IsListed(fold, allowlist, name)
      ensures fold == map[] ==> (listed <==> exists i :: 0 <= i < |allowlist| && CString(allowlist[i]) == CString(name))
    {
      IsListedPlain(allowlist, name);
      var k := Find(fold, name);
      listed := k < |allowlist|;
    }

    method AddException(fold: Fold, name: string) returns (added: bool)
      modifies this`allowlist
      ensures added <==> !IsListed(fold, old(allowlist), name) && |old(allowlist)| < MAX_ALLOWLIST_ENTRIES
      ensures allowlist == if added then old(allowlist) + [name] else old(allowlist)
      ensures NoDuplicates(fold, old(allowlist)) ==> NoDuplicates(fold, allowlist)
      ensures |old(allowlist)| <= MAX_ALLOWLIST_ENTRIES ==> |allowlist| <= MAX_ALLOWLIST_ENTRIES
      ensures fold == map[] ==>
                (added <==> |old(allowlist)| < 128
                            && forall i :: 0 <= i < |old(allowlist)| ==> CString(old(allowlist)[i]) != CString(name))
    {
      var listed := IsException(fold, name);
      if listed || |allowlist| >= MAX_ALLOWLIST_ENTRIES {
        return false;
      }
      allowlist := allowlist + [name];
      added := true;
    }

    method RemoveException(fold: Fold, name: string) returns (removed: bool)
      modifies this`allowlist
      ensures removed <==> IsListed(fold, old(allowlist), name)
      ensures var k, was := FirstMatch(fold, old(allowlist), name), old(allowlist);
              allowlist == if removed then was[..k] + was[k + 1..] else was
      ensures NoDuplicates(fold, old(allowlist)) ==> NoDuplicates(fold, allowlist) && !IsListed(fold, allowlist, name)
      ensures fold == map[] ==>
                (!removed <==> forall i :: 0 <= i < |old(allowlist)| ==> CString(old(allowlist)[i]) != CString(name))
      ensures fold == map[] && removed ==>
                exists k :: 0 <= k < |old(allowlist)| && CString(old(allowlist)[k]) == CString(name)
                            && allowlist == old(allowlist)[..k] + old(allowlist)[k + 1..]
                            && forall i :: 0 <= i < k ==> CString(old(allowlist)[i]) != CString(name)
    {
      IsListedPlain(allowlist, name);
      var k := Find(fold, name);
      removed := k < |allowlist|;
      if removed {
        if NoDuplicates(fold, allowlist) {
          RemovedIsGone(fold, allowlist, name);
        }
        allowlist := allowlist[..k] + allowlist[k + 1..];
      }
    }

    /** SaveToRegistry: write the settings, delete the 128 slots, write the list. A deletion that fails is
        only logged; a write that fails makes the save report failure, and the rest goes on. */
    method SaveToRegistry(works: Call -> bool) returns (success: bool)
      modifies registry
      ensures registry.slots == Saved(old(registry.slots), allowlist, works)
      ensures registry.config
           == SavedSettings(old(registry.config), fileCountThreshold, timeWindowSeconds, monitoringEnabled, works)
      ensures success <==> (forall i :: 0 <= i < 4 ==> works(SetSetting(i))) && AllWritten(allowlist, works)
    {
      success := true;
      success := WriteDWord(works(SetSetting(0)), THRESHOLD_NAME, fileCountThreshold, success);
      success := WriteDWord(works(SetSetting(1)), WINDOW_NAME, timeWindowSeconds, success);
      success := WriteDWord(works(SetSetting(2)), MONITORING_NAME, if monitoringEnabled then 1 else 0, success);
      success := WriteDWord(works(SetSetting(3)), VERSION_NAME, PROTOCOL_VERSION, success);
      ghost var settings := success;
      assert settings <==> forall i :: 0 <= i < 4 ==> works(SetSetting(i)) by {
        assert (forall i :: 0 <= i < 4 ==> works(SetSetting(i)))
          <==> works(SetSetting(0)) && works(SetSetting(1)) && works(SetSetting(2)) && works(SetSetting(3));
      }
      DeleteSlots(works);
      success := WriteSlots(works, success);
    }

    method WriteDWord(works: bool, name: string, value: ULong, sofar: bool) returns (success: bool)
      modifies registry`config
      ensures registry.config == WithValue(old(registry.config), works, name, Dword(value))
      ensures success == (sofar && works)
    {
      if works {
        registry.config := registry.config[name := Dword(value)];
      }
      success := sofar && works;
    }

    method DeleteSlots(works: Call -> bool)
      modifies registry`slots
      ensures registry.slots == WithoutSlots(old(registry.slots), MAX_ALLOWLIST_ENTRIES, works)
    {
      for i := 0 to MAX_ALLOWLIST_ENTRIES
        invariant registry.slots == WithoutSlots(old(registry.slots), i, works)
      {
        if works(DeleteSlot(i)) {
          registry.slots := registry.slots - {SlotName(i)};
        }
      }
    }

    method WriteSlots(works: Call -> bool, sofar: bool) returns (success: bool)
      modifies registry`slots
      ensures registry.slots == WithSlots(old(registry.slots), allowlist, |allowlist|, works)
      ensures success == (sofar && AllWritten(allowlist, works))
    {
      success := sofar;
      for i := 0 to |allowlist|
        invariant registry.slots == WithSlots(old(registry.slots), allowlist, i, works)
        invariant success == (sofar && forall j :: 0 <= j < i ==> works(WriteSlot(j)))
      {
        if works(WriteSlot(i)) {
          registry.slots := registry.slots[SlotName(i) := Sz(Stored(allowlist[i]))];
        } else {
          success := false;
        }
      }
    }

    /** LoadFromRegistry */
    method LoadFromRegistry()
      modifies this
      ensures allowlist == LoadedFrom(registry.slots, 0)
      ensures fileCountThreshold == ReadDWord(registry.config, THRESHOLD_NAME, DEFAULT_THRESHOLD)
      ensures timeWindowSeconds == ReadDWord(registry.config, WINDOW_NAME, DEFAULT_WINDOW)
      ensures monitoringEnabled == (ReadDWord(registry.config, MONITORING_NAME, DEFAULT_MONITORING) != 0)
      ensures if HoldsDword(registry.config, THRESHOLD_NAME)
              then fileCountThreshold == registry.config[THRESHOLD_NAME].value else fileCountThreshold == 50
      ensures if HoldsDword(registry.config, WINDOW_NAME)
              then timeWindowSeconds == registry.config[WINDOW_NAME].value else timeWindowSeconds == 10
      ensures if HoldsDword(registry.config, MONITORING_NAME)
              then monitoringEnabled == (registry.config[MONITORING_NAME].value != 0) else monitoringEnabled
    {
      fileCountThreshold := ReadDWord(registry.config, THRESHOLD_NAME, DEFAULT_THRESHOLD);
      timeWindowSeconds := ReadDWord(registry.config, WINDOW_NAME, DEFAULT_WINDOW);
      monitoringEnabled := ReadDWord(registry.config, MONITORING_NAME, DEFAULT_MONITORING) != 0;
      LoadSlots();
    }

    method LoadSlots()
      modifies this`allowlist
      ensures allowlist == LoadedFrom(registry.slots, 0)
    {
      allowlist := [];
      var i := 0;
      while i < MAX_ALLOWLIST_ENTRIES
        invariant i <= MAX_ALLOWLIST_ENTRIES
        invariant allowlist + LoadedFrom(registry.slots, i) == LoadedFrom(registry.slots, 0)
      {
        var entry := ReadSlot(registry.slots, i);
        if entry == None {
          break;
        }
        Regroup(allowlist, entry.value, LoadedFrom(registry.slots, i + 1));
        allowlist := allowlist + [entry.value];
        i := i + 1;
      }
    }
  }

  lemma Regroup<T>(a: seq<T>, x: T, b: seq<T>)
    ensures (a + [x]) + b == a + ([x] + b)
  {
  }

  /** Save then load on the same registry: after a save that reported success every setting is back, and
      the list is back exactly if it is clean, fits, and no stale entry that could not be deleted follows. */
  method SaveThenLoad(manager: ConfigManager, works: Call -> bool) returns (success: bool)
    modifies manager, manager.registry
    ensures success <==> (forall i :: 0 <= i < 4 ==> works(SetSetting(i))) && AllWritten(old(manager.allowlist), works)
    ensures success ==>
              && manager.fileCountThreshold == old(manager.fileCountThreshold)
              && manager.timeWindowSeconds == old(manager.timeWindowSeconds)
              && manager.monitoringEnabled == old(manager.monitoringEnabled)
    ensures success && NothingStale(old(manager.registry.slots), old(manager.allowlist), works)
        ==> manager.allowlist == Surviving(First(old(manager.allowlist), MAX_ALLOWLIST_ENTRIES))
    ensures success ==>
              (manager.allowlist == old(manager.allowlist)
               <==> && |old(manager.allowlist)| <= MAX_ALLOWLIST_ENTRIES && AllClean(old(manager.allowlist))
                    && NothingStale(old(manager.registry.slots), old(manager.allowlist), works))
  {
    var slots, list := manager.registry.slots, manager.allowlist;
    SettingsRoundTrip(manager.registry.config, manager.fileCountThreshold, manager.timeWindowSeconds,
                      manager.monitoringEnabled, works);
    success := manager.SaveToRegistry(works);
    if success {
      RoundTripIffClean(slots, list, works);
      if NothingStale(slots, list, works) {
        LoadAfterSave(slots, list, works);
      }
    }
    manager.LoadFromRegistry();
  }
}
