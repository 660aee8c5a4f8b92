/** Pushing the allowlist while other threads record, unblock, search, query and reconfigure: as long as
    no one else changes the names, the list ends up as pushed. */
module InterleavedPush {
  import opened Allowlist
  import opened CommPort
  import opened CommManagers
  import opened Threads
  import opened ThreadInvariant
  import opened ThreadOrder
  import opened ThreadSteps
  import Kernel

  // ---- The events that change the names ------------------------------------------------------------

  predicate ChangesNames(e: Kernel.Event) {
    e.AddName? || e.ClearNames?
  }

  function NameEvents(es: seq<Kernel.Event>): seq<Kernel.Event> {
    if es == [] then []
    else
      var front, last := es[..|es| - 1], es[|es| - 1];
      if ChangesNames(last) then NameEvents(front) + [last] else NameEvents(front)
  }

  /** The names of a state depend on those events alone. */
  lemma {:induction false} NamesFollow(s: Kernel.State, es: seq<Kernel.Event>)
    ensures Kernel.Run(s, es).names == Kernel.Run(s, NameEvents(es)).names
  {
    if es != [] {
      var front, last := es[..|es| - 1], es[|es| - 1];
      NamesFollow(s, front);
      NamesStep(Kernel.Run(s, front), Kernel.Run(s, NameEvents(front)), last);
      if ChangesNames(last) {
        Kernel.RunSnoc(s, NameEvents(front), last);
      }
    }
  }

  lemma NamesStep(s: Kernel.State, s': Kernel.State, e: Kernel.Event)
    requires s.names == s'.names
    ensures Kernel.After(s, e).names == if ChangesNames(e) then Kernel.After(s', e).names else s.names
  {
  }

  lemma {:induction false} NameEventsConcat(a: seq<Kernel.Event>, b: seq<Kernel.Event>)
    ensures NameEvents(a + b) == NameEvents(a) + NameEvents(b)
  {
    if b == [] {
      assert a + b == a;
    } else {
      NameEventsConcat(a, b[..|b| - 1]);
      assert (a + b)[..|a + b| - 1] == a + b[..|b| - 1];
    }
  }

  // ---- The events of a push --------------------------------------------------------------------------

  function Adds(entries: seq<string>): seq<Kernel.Event> {
    if entries == [] then []
    else Adds(entries[..|entries| - 1]) + [Kernel.AddName(Truncated(entries[|entries| - 1]))]
  }

  /** A clear, and then one addition for each entry, in order. */
  function PushEvents(entries: seq<string>): seq<Kernel.Event> {
    [Kernel.ClearNames] + Adds(entries)
  }

  lemma {:induction false} AddsMakePushed(s: Kernel.State, entries: seq<string>)
    requires s.names == []
    ensures Kernel.Run(s, Adds(entries)).names == Pushed(entries)
  {
    if entries != [] {
      var front, last := entries[..|entries| - 1], Truncated(entries[|entries| - 1]);
      AddsMakePushed(s, front);
      Kernel.RunSnoc(s, Adds(front), Kernel.AddName(last));
      TruncatedIsNulFree(entries[|entries| - 1]);
      var more := NonEmpty(AllTruncated(front));
      assert AllTruncated(entries)[..|entries| - 1] == AllTruncated(front);
      AppendOne([], more, last);
      assert [] + more == more && [] + (more + if last == [] then [] else [last]) == more + if last == [] then [] else [last];
    }
  }

  lemma PushEventsMakePushed(s: Kernel.State, entries: seq<string>)
    ensures Kernel.Run(s, PushEvents(entries)).names == Pushed(entries)
  {
    RunOne(s, Kernel.ClearNames);
    Kernel.RunConcat(s, [Kernel.ClearNames], Adds(entries));
    AddsMakePushed(Kernel.Run(s, [Kernel.ClearNames]), entries);
  }

  /** The clear that a push starts with... */
  lemma {:induction false} ClearIsPushEvent(entries: seq<string>)
    ensures NameEvents([Kernel.ClearNames, Kernel.TakeNumber]) == PushEvents(entries[..0])
  {
    var es := [Kernel.ClearNames, Kernel.TakeNumber];
    assert es[..1] == [Kernel.ClearNames] && [Kernel.ClearNames][..0] == [];
    assert NameEvents([Kernel.ClearNames]) == [Kernel.ClearNames];
  }

  /** ...and each upload that follows, the full one or a chunk, make the events of a push. */
  lemma {:induction false} UploadIsPushEvents(sofar: seq<Kernel.Event>, entries: seq<string>, from: nat, to: nat,
                                              rows: seq<NameBuffer>)
    requires from <= to <= |entries| && to - from <= |rows|
    requires NameEvents(sofar) == PushEvents(entries[..from])
    requires ScannedRows(rows, to - from) == AllTruncated(entries[from..to])
    ensures NameEvents(sofar + (AddEvents(rows, to - from) + [Kernel.TakeNumber])) == PushEvents(entries[..to])
  {
    var upload := AddEvents(rows, to - from);
    NameEventsConcat(sofar, upload + [Kernel.TakeNumber]);
    NumberIsNoNameEvent(upload);
    UploadAdds(rows, entries[from..to]);
    PushEventsGrow(entries, from, to);
  }

  lemma NumberIsNoNameEvent(es: seq<Kernel.Event>)
    ensures NameEvents(es + [Kernel.TakeNumber]) == NameEvents(es)
  {
    assert (es + [Kernel.TakeNumber])[..|es|] == es;
  }

  lemma PushEventsGrow(entries: seq<string>, from: nat, to: nat)
    requires from <= to <= |entries|
    ensures PushEvents(entries[..to]) == PushEvents(entries[..from]) + Adds(entries[from..to])
  {
    AddsConcat(entries[..from], entries[from..to]);
    assert entries[..from] + entries[from..to] == entries[..to];
  }

  lemma {:induction false} UploadAdds(rows: seq<NameBuffer>, part: seq<string>)
    requires |part| <= |rows| && ScannedRows(rows, |part|) == AllTruncated(part)
    ensures NameEvents(AddEvents(rows, |part|)) == Adds(part)
  {
    if part != [] {
      var n := |part| - 1;
      assert ScannedRows(rows, |part|)[n] == Scanned(rows[n]) && AllTruncated(part)[n] == Truncated(part[n]);
      assert ScannedRows(rows, n) == ScannedRows(rows, |part|)[..n] && AllTruncated(part[..n]) == AllTruncated(part)[..n];
      UploadAdds(rows, part[..n]);
      var front, last := AddEvents(rows, n), Kernel.AddName(Scanned(rows[n]));
      assert (front + [last])[..|front|] == front;
    }
  }

  lemma {:induction false} AddsConcat(a: seq<string>, b: seq<string>)
    ensures Adds(a + b) == Adds(a) + Adds(b)
  {
    if b == [] {
      assert a + b == a;
    } else {
      AddsConcat(a, b[..|b| - 1]);
      assert (a + b)[..|a + b| - 1] == a + b[..|b| - 1];
    }
  }

  // ---- In every interleaving -----------------------------------------------------------------------------

  /** If between two moments of an execution the only changes of the names are those of one push, the
      driver then lists exactly the pushed names, whatever it listed before and whatever recordings,
      unblocks, searches, queries and updates of other threads came in between. */
  lemma {:induction false} PushedWhateverInterleaves(run: seq<State>, m: nat, n: nat, entries: seq<string>)
    requires Execution(run) && m <= n < |run|
    ensures |run[m].events| <= |run[n].events|
    ensures NameEvents(run[n].events[|run[m].events|..]) == PushEvents(entries) ==> run[n].names == Pushed(entries)
  {
    HistoryGrows(run, m, n);
    ReachableIsOk(run, n);
    assert InvParts(run[n]);
    var before, stretch := run[m].events, run[n].events[|run[m].events|..];
    assert run[n].events == before + stretch;
    Kernel.RunConcat(Kernel.INITIAL, before, stretch);
    NamesFollow(Kernel.Run(Kernel.INITIAL, before), stretch);
    PushEventsMakePushed(Kernel.Run(Kernel.INITIAL, before), entries);
  }
}
