/** From the settings file to the verdict: a name that the user adds, saved to the registry, loaded
    again and pushed to the driver, exempts exactly the programs of that name. */
module Exemption {
  import opened Base
  import opened Allowlist
  import opened Names
  import opened CommPort
  import opened CommManagers
  import opened ConfigManagers
  import Kernel

  lemma {:induction false} NonEmptyKeeps(names: seq<string>)
    ensures forall name :: name in NonEmpty(names) <==> name in names && name != []
    ensures |NonEmpty(names)| <= |names|
  {
    if names != [] {
      NonEmptyKeeps(names[..|names| - 1]);
      assert names == names[..|names| - 1] + [names[|names| - 1]];
    }
  }

  lemma {:induction false} NonEmptyOfFull(names: seq<string>)
    requires forall i :: 0 <= i < |names| ==> names[i] != []
    ensures NonEmpty(names) == names
  {
    if names != [] {
      NonEmptyOfFull(names[..|names| - 1]);
      assert names == names[..|names| - 1] + [names[|names| - 1]];
    }
  }

  /** A clean list that fits is pushed whole; only its empty entries are dropped. */
  lemma {:induction false} CleanListIsPushedWhole(list: seq<string>)
    requires AllClean(list) && |list| <= MAX_ALLOWLIST_ENTRIES
    ensures Pushed(list) == NonEmpty(list)
    ensures (forall i :: 0 <= i < |list| ==> list[i] != []) ==> Pushed(list) == list
  {
    if forall i :: 0 <= i < |list| ==> list[i] != [] {
      NonEmptyOfFull(list);
    }
    forall i | 0 <= i < |list| ensures Truncated(list[i]) == list[i] {
      assert Clean(list[i]);
      CStringIsNulFreePrefix(list[i]);
    }
    assert AllTruncated(list) == list;
    NonEmptyKeeps(list);
  }

  lemma {:induction false} ListedAmongNonEmpty(fold: Fold, name: string, list: seq<string>)
    ensures Listed(fold, name, NonEmpty(list)) <==> name != [] && Listed(fold, name, list)
  {
    NonEmptyKeeps(list);
    var kept := NonEmpty(list);
    if Listed(fold, name, kept) {
      var i :| 0 <= i < |kept| && SameName(fold, name, kept[i]);
      assert kept[i] in kept;
      var j :| 0 <= j < |list| && list[j] == kept[i];
      assert SameName(fold, name, list[j]);
    }
    if name != [] && Listed(fold, name, list) {
      var j :| 0 <= j < |list| && SameName(fold, name, list[j]);
      assert list[j] in kept;
      var i :| 0 <= i < |kept| && kept[i] == list[j];
      assert SameName(fold, name, kept[i]);
    }
  }

  /** What a pushed list exempts: the images whose file name it, or the built-in list, has up to case. */
  lemma {:induction false} PushedExempts(fold: Fold, list: seq<string>, path: string)
    requires AllClean(list) && |list| <= MAX_ALLOWLIST_ENTRIES
    ensures Exempt(fold, Some(path), Pushed(list))
       <==> FileName(path) != [] && (Listed(fold, FileName(path), BUILT_IN) || Listed(fold, FileName(path), list))
    ensures fold == map[] ==>
              (Exempt(fold, Some(path), Pushed(list))
               <==> FileName(path) != [] && (FileName(path) in BUILT_IN || FileName(path) in list))
    ensures FileName(path) != [] && (FileName(path) in BUILT_IN || FileName(path) in list) ==> Exempt(fold, Some(path), Pushed(list))
  {
    ListedItself(fold, FileName(path), BUILT_IN);
    ListedItself(fold, FileName(path), list);
    ListedPlain(FileName(path), BUILT_IN);
    ListedPlain(FileName(path), list);
    CleanListIsPushedWhole(list);
    ListedAmongNonEmpty(fold, FileName(path), list);
    assert forall i :: 0 <= i < |BUILT_IN| ==> |BUILT_IN[i]| > 0;
    FileNameIsTail(path);
  }

  /** End to end, for any allowlist of at most 128 clean names and any prior registry content: after
      save, load and push the driver exempts an image exactly when the text after its last backslash
      is non-empty and equals, up to the driver's own case folding, a built-in or a listed name. */
  lemma {:induction false} SavedLoadedPushedExempts(fold: Fold, key: Key, list: seq<string>, path: string)
    requires AllClean(list) && |list| <= MAX_ALLOWLIST_ENTRIES
    ensures Exempt(fold, Some(path), Pushed(LoadedFrom(Saved(key, list, AllWork), 0)))
       <==> FileName(path) != [] && (Listed(fold, FileName(path), BUILT_IN) || Listed(fold, FileName(path), list))
    ensures fold == map[] ==>
              (Exempt(fold, Some(path), Pushed(LoadedFrom(Saved(key, list, AllWork), 0)))
               <==> FileName(path) != [] && (FileName(path) in BUILT_IN || FileName(path) in list))
  {
    RoundTripIffClean(key, list, AllWork);
    PushedExempts(fold, list, path);
  }

  /** RansomShieldModule::PushToDriver on a connected port: the configuration, then the allowlist. */
  method PushToDriver(manager: ConfigManager, comm: CommManager, configFate: Fate, fates: nat -> Fate)
    returns (succeeded: bool)
    requires comm.driver.Valid() && comm !in comm.driver.Objects() && manager !in comm.driver.Objects()
    modifies comm, comm.driver.Objects()
    ensures comm.driver.Valid() && comm.driver.Objects() == old(comm.driver.Objects())
    ensures succeeded ==>
              && comm.driver.State().names == Pushed(manager.allowlist)
              && comm.driver.State().config == Kernel.Configured(old(comm.driver.State().config), manager.fileCountThreshold,
                                                                 manager.timeWindowSeconds, manager.monitoringEnabled)
    ensures comm.driver.State().table == old(comm.driver.State().table)
    ensures configFate == Arrives && (forall i :: fates(i) == Arrives) ==> succeeded
  {
    succeeded := comm.UpdateConfig(manager.fileCountThreshold, manager.timeWindowSeconds, manager.monitoringEnabled, configFate);
    if succeeded {
      succeeded := comm.PushAllowlist(manager.allowlist, fates);
    }
  }

  /** The first start: with nothing yet in the Config key, what is loaded and pushed is 50 operations in
      10 seconds, monitoring on, whatever the driver was told before. */
  method FirstStart(manager: ConfigManager, comm: CommManager, configFate: Fate, fates: nat -> Fate) returns (succeeded: bool)
    requires comm.driver.Valid() && comm !in comm.driver.Objects() && manager !in comm.driver.Objects()
    requires manager.registry.config == map[]
    modifies manager, comm, comm.driver.Objects()
    ensures comm.driver.Valid() && comm.driver.Objects() == old(comm.driver.Objects())
    ensures succeeded ==> comm.driver.State().config == Kernel.Config(50, 10, 100_000_000, true)
    ensures configFate == Arrives && (forall i :: fates(i) == Arrives) ==> succeeded
  {
    manager.LoadFromRegistry();
    succeeded := PushToDriver(manager, comm, configFate, fates);
  }

  /** Add a name, save, and reload, every registry call succeeding. */
  method Remember(manager: ConfigManager, userFold: Fold, name: string) returns (added: bool)
    requires AllClean(manager.allowlist) && |manager.allowlist| <= MAX_ALLOWLIST_ENTRIES && Clean(name)
    modifies manager, manager.registry
    ensures added <==> !IsListed(userFold, old(manager.allowlist), name) && |old(manager.allowlist)| < MAX_ALLOWLIST_ENTRIES
    ensures manager.allowlist == if added then old(manager.allowlist) + [name] else old(manager.allowlist)
  {
    added := manager.AddException(userFold, name);
    var saved := SaveThenLoad(manager, AllWork);
  }

  /** The whole path on the objects themselves: add a name, save, reload, push, and ask the driver. */
  method ExemptByName(manager: ConfigManager, comm: CommManager, userFold: Fold, kernelFold: Fold, name: string,
                      configFate: Fate, fates: nat -> Fate, path: string)
    returns (added: bool, pushed: bool, exempt: bool)
    requires comm.driver.Valid() && comm !in comm.driver.Objects()
    requires {manager, manager.registry} !! comm.driver.Objects()
    requires AllClean(manager.allowlist) && |manager.allowlist| <= MAX_ALLOWLIST_ENTRIES && Clean(name)
    modifies manager, manager.registry, comm, comm.driver.Objects()
    ensures added <==> !IsListed(userFold, old(manager.allowlist), name) && |old(manager.allowlist)| < MAX_ALLOWLIST_ENTRIES
    ensures configFate == Arrives && (forall i :: fates(i) == Arrives) ==> pushed
    ensures pushed ==>
              var file := FileName(path);
              var list := if added then old(manager.allowlist) + [name] else old(manager.allowlist);
              exempt <==> file != [] && (Listed(kernelFold, file, BUILT_IN) || Listed(kernelFold, file, list))
    ensures pushed && kernelFold == map[] ==>
              var file := FileName(path);
              exempt <==> file != [] && (file in BUILT_IN || file in old(manager.allowlist) || (added && file == name))
    ensures pushed && added && name != [] && FileName(path) == name ==> exempt
  {
    added := Remember(manager, userFold, name);
    ghost var list := manager.allowlist;
    PushedExempts(kernelFold, list, path);
    pushed := PushToDriver(manager, comm, configFate, fates);
    exempt := comm.driver.IsProcessAllowlisted(kernelFold, Some(path));
  }
}
