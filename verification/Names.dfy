/** Which process images are exempt, as mathematics on strings: the part of a path that is compared, and
    the comparison, with a case table that is left open. */
module Names {
  import opened Base

  /** A case table: how one side folds case, character by character; user mode and kernel may differ. */
  type Fold = map<char, char>

  function Folded(fold: Fold, c: char): char {
    if c in fold then fold[c] else c
  }

  const BUILT_IN: seq<string> := [
    "svchost.exe", "SearchIndexer.exe", "MsMpEng.exe", "TrustedInstaller.exe", "System",
    "smss.exe", "csrss.exe", "wininit.exe", "services.exe", "dwm.exe"]

  /** RtlEqualUnicodeString, case-insensitive: same length and the same folded characters. */
  predicate SameName(fold: Fold, a: string, b: string) {
    |a| == |b| && forall i :: 0 <= i < |a| ==> Folded(fold, a[i]) == Folded(fold, b[i])
  }

  predicate Listed(fold: Fold, name: string, names: seq<string>) {
    exists i :: 0 <= i < |names| && SameName(fold, name, names[i])
  }

  /** Without a case table nothing but the same text is the same name. */
  lemma {:induction false} SamePlainName(a: string, b: string)
    ensures SameName(map[], a, b) <==> a == b
  {
    if SameName(map[], a, b) {
      assert forall i :: 0 <= i < |a| ==> Folded(map[], a[i]) == a[i] && Folded(map[], b[i]) == b[i];
    }
  }

  lemma {:induction false} ListedItself(fold: Fold, name: string, names: seq<string>)
    ensures name in names ==> Listed(fold, name, names)
  {
    if name in names {
      var i :| 0 <= i < |names| && names[i] == name;
      assert SameName(fold, name, names[i]);
    }
  }

  lemma {:induction false} ListedPlain(name: string, names: seq<string>)
    ensures Listed(map[], name, names) <==> name in names
  {
    forall i | 0 <= i < |names| ensures SameName(map[], name, names[i]) <==> name == names[i] {
      SamePlainName(name, names[i]);
    }
  }

  /** The text after the last backslash. */
  function FileName(path: string): string {
    if path == [] || path[|path| - 1] == '\\' then []
    else FileName(path[..|path| - 1]) + [path[|path| - 1]]
  }

  /** ...which these two facts determine: it has no backslash, and nothing but a backslash (or the
      start of the path) precedes it. */
  lemma {:induction false} FileNameIsTail(path: string)
    ensures |FileName(path)| <= |path| && FileName(path) == path[|path| - |FileName(path)|..]
    ensures '\\' !in FileName(path)
    ensures FileName(path) == path || path[|path| - |FileName(path)| - 1] == '\\'
  {
    if path == [] || path[|path| - 1] == '\\' {
    } else {
      FileNameIsTail(path[..|path| - 1]);
    }
  }

  lemma {:induction false} FileNameOf(folder: string, name: string)
    requires '\\' !in name && (folder == [] || folder[|folder| - 1] == '\\')
    ensures FileName(folder + name) == name
  {
    var path := folder + name;
    if name == [] {
      assert path == folder;
    } else {
      FileNameOf(folder, name[..|name| - 1]);
      assert path[..|path| - 1] == folder + name[..|name| - 1];
      assert name[|name| - 1] in name;
    }
  }

  /** What RsIsProcessAllowlisted answers, given the pushed names. */
  predicate Exempt(fold: Fold, image: Option<string>, names: seq<string>) {
    && image.Some? && image.value != []
    && (Listed(fold, FileName(image.value), BUILT_IN) || Listed(fold, FileName(image.value), names))
  }

  /** Without a case table: exactly the images whose file name is a built-in or a pushed one. */
  lemma {:induction false} ExemptPlain(image: Option<string>, names: seq<string>)
    ensures Exempt(map[], image, names)
       <==> image.Some? && image.value != [] && (FileName(image.value) in BUILT_IN || FileName(image.value) in names)
  {
    if image.Some? {
      ListedPlain(FileName(image.value), BUILT_IN);
      ListedPlain(FileName(image.value), names);
    }
  }

  lemma TenNames<T>(x: T, a: T, b: T, c: T, d: T, e: T, f: T, g: T, h: T, i: T, j: T)
    ensures x in [a, b, c, d, e, f, g, h, i, j] <==> x in {a, b, c, d, e, f, g, h, i, j}
  {
  }

  /** Before anything is pushed these ten are exempt, and nothing else. */
  lemma {:induction false} BuiltInOnly(path: string)
    ensures Exempt(map[], Some(path), [])
       <==> FileName(path) in {"svchost.exe", "SearchIndexer.exe", "MsMpEng.exe", "TrustedInstaller.exe", "System",
                               "smss.exe", "csrss.exe", "wininit.exe", "services.exe", "dwm.exe"}
  {
    ExemptPlain(Some(path), []);
    TenNames(FileName(path), "svchost.exe", "SearchIndexer.exe", "MsMpEng.exe", "TrustedInstaller.exe", "System",
             "smss.exe", "csrss.exe", "wininit.exe", "services.exe", "dwm.exe");
  }

  /** A path that ends in a backslash is exempt from nothing, as long as no pushed name is empty. */
  lemma OnlyNamedFilesExempt(fold: Fold, image: Option<string>, names: seq<string>)
    requires Exempt(fold, image, names) && [] !in names
    ensures FileName(image.value) != []
  {
    assert forall i :: 0 <= i < |BUILT_IN| ==> |BUILT_IN[i]| > 0;
  }
}
