/** The names pushed at run time into g_DynamicAllowlist, and the searches of RsIsProcessAllowlisted. */
module Allowlist {
  import opened Base
  import opened Names
  import Kernel

  /** One row of a name table: 260 characters, NUL-terminated. */
  type NameBuffer = row: seq<char> | |row| == MAX_NAME + 1 witness seq(MAX_NAME + 1, _ => NUL)

  const BLANK: NameBuffer := seq(MAX_NAME + 1, _ => NUL)

  /** The loop of RsIsProcessAllowlisted that looks for the last backslash. */
  method FindFileName(path: string) returns (name: string)
    ensures name == FileName(path)
  {
    var start := 0;
    for i := 0 to |path|
      invariant start <= i && (start == 0 || path[start - 1] == '\\')
      invariant forall j :: start <= j < i ==> path[j] != '\\'
    {
      if path[i] == '\\' {
        start := i + 1;
      }
    }
    name := path[start..];
    FileNameOf(path[..start], name);
    assert path[..start] + name == path;
  }

  /** RtlEqualUnicodeString(a, b, TRUE), and _wcsicmp(a, b) == 0 on the text before the NULs. */
  method EqualNames(fold: Fold, a: string, b: string) returns (same: bool)
    ensures same == SameName(fold, a, b)
    ensures same <==> |a| == |b| && forall i :: 0 <= i < |a| ==>
              (if a[i] in fold then fold[a[i]] else a[i]) == (if b[i] in fold then fold[b[i]] else b[i])
    ensures a == b ==> same
    ensures fold == map[] && same ==> a == b
  {
    if |a| != |b| {
      return false;
    }
    for i := 0 to |a|
      invariant forall j :: 0 <= j < i ==>
                  (if a[j] in fold then fold[a[j]] else a[j]) == (if b[j] in fold then fold[b[j]] else b[j])
    {
      var x := if a[i] in fold then fold[a[i]] else a[i];
      var y := if b[i] in fold then fold[b[i]] else b[i];
      if x != y {
        return false;
      }
    }
    same := true;
  }

  method SearchNames(fold: Fold, name: string, names: seq<string>) returns (found: bool)
    ensures found == Listed(fold, name, names)
    ensures fold == map[] ==> found == (name in names)
  {
    ListedPlain(name, names);
    for i := 0 to |names|
      invariant forall j :: 0 <= j < i ==> !SameName(fold, name, names[j])
    {
      var same := EqualNames(fold, name, names[i]);
      if same {
        return true;
      }
    }
    found := false;
  }

  class DynamicAllowlist {
    const rows: array<NameBuffer>
    var count: nat
    /** The names as RtlInitUnicodeString sees them. */
    ghost var contents: seq<string>

    ghost predicate Valid()
      reads this, rows
    {
      && rows.Length == MAX_ALLOWLIST_ENTRIES && count <= MAX_ALLOWLIST_ENTRIES
      && |contents| == count
      && forall i :: 0 <= i < count ==> contents[i] == CString(rows[i])
    }

    constructor ()
      ensures Valid() && contents == [] && fresh(rows)
    {
      rows := new NameBuffer[MAX_ALLOWLIST_ENTRIES](_ => BLANK);
      count := 0;
      contents := [];
    }

    /** RsClearDynamicAllowlist */
    method Clear()
      requires Valid()
      modifies this, rows
      ensures Valid() && contents == []
    {
      count := 0;
      forall i | 0 <= i < rows.Length {
        rows[i] := BLANK;
      }
      contents := [];
    }

    /** RsAddDynamicAllowlistEntry: copy at most 259 of the characters handed over, and terminate. */
    method Add(entry: string)
      requires Valid()
      modifies this, rows
      ensures Valid() && contents == Kernel.NameAdded(old(contents), entry)
    {
      if entry == [] {
        return;
      }
      if count < MAX_ALLOWLIST_ENTRIES {
        var copied := First(entry, MAX_NAME);
        var tail := rows[count][|copied| + 1..];
        CutAtTerminator(copied, tail);
        rows[count] := copied + [NUL] + tail;
        count := count + 1;
        contents := contents + [CString(copied)];
      }
    }

    /** The search under the lock in RsIsProcessAllowlisted. */
    method Search(fold: Fold, name: string) returns (found: bool)
      requires Valid()
      ensures found == Listed(fold, name, contents)
      ensures fold == map[] ==> found == (name in contents)
    {
      ListedPlain(name, contents);
      for i := 0 to count
        invariant forall j :: 0 <= j < i ==> !SameName(fold, name, contents[j])
      {
        var same := EqualNames(fold, name, CString(rows[i]));
        if same {
          return true;
        }
      }
      found := false;
    }

    /** The copy loop of RsQueryAllowlist, and how its client reads the rows. */
    method CopyOut() returns (names: seq<string>)
      requires Valid()
      ensures names == contents
    {
      names := [];
      for i := 0 to count
        invariant names == contents[..i]
      {
        names := names + [CString(rows[i])];
      }
    }
  }

  lemma {:induction false} CutAtTerminator(copied: string, tail: string)
    ensures CString(copied + [NUL] + tail) == CString(copied)
  {
    if copied == [] || copied[0] == NUL {
    } else {
      CutAtTerminator(copied[1..], tail);
      assert (copied + [NUL] + tail)[1..] == copied[1..] + [NUL] + tail;
    }
  }
}
