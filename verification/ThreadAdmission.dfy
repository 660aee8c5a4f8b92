/** Which callbacks get as far as RsRecordOperation, in every interleaving: the part of the invariant that
    is about the checks before it. */
module ThreadAdmission {
  import opened Base
  import opened Names
  import opened Operations
  import opened Threads
  import opened ThreadInvariant
  import opened ThreadOrder
  import opened ThreadSteps
  import Kernel

  /** RsIsProcessAllowlisted looks further than at the name's being there. */
  predicate Named(op: Op) {
    op.FileOp? && op.image.Some? && op.image.value != []
  }

  /** The thread searched the pushed names once, after it was called, and the search answered `found`. */
  ghost predicate MatchedAs(s: State, t: nat, thread: Thread, found: bool) {
    && Named(thread.op) && thread.matchedAt.Some?
    && var k := thread.matchedAt.value;
    && thread.invokedAt <= k < |s.events| == |s.callers|
    && s.events[k] == Kernel.MatchName(thread.op.fold, FileName(thread.op.image.value)) && s.callers[k] == Caller(t, Match)
    && AnswerAt(s.events, k) == Kernel.Matched(found)
  }

  predicate Recordable(op: Op) {
    op.FileOp? && Monitored(op.operation) && op.pid != 0 && op.pid != 4
  }

  /** The callback passed every check and, if there was a name, searched before it took effect. */
  ghost predicate Admitted(s: State, t: nat, thread: Thread) {
    && Recordable(thread.op)
    && if Named(thread.op)
       then && !Listed(thread.op.fold, FileName(thread.op.image.value), BUILT_IN) && MatchedAs(s, t, thread, false)
            && (thread.actedAt.Some? ==> thread.matchedAt.value < thread.actedAt.value)
       else thread.matchedAt == None
  }

  /** The callback stopped at one of its checks. */
  ghost predicate LetThrough(s: State, t: nat, thread: Thread) {
    || !Recordable(thread.op)
    || (Named(thread.op) && Listed(thread.op.fold, FileName(thread.op.image.value), BUILT_IN))
    || MatchedAs(s, t, thread, true)
  }

  ghost predicate AdmitOk(s: State, t: nat) {
    t < |s.threads| && s.threads[t].op.FileOp? ==>
      match s.threads[t].pc
      case Entered => s.threads[t].matchedAt == None
      case Matching => s.threads[t].matchedAt == None
      case MatchLocked => s.threads[t].matchedAt == None
      case NameMatched(found) => MatchedAs(s, t, s.threads[t], found)
      case Passed => LetThrough(s, t, s.threads[t])
      case _ => Admitted(s, t, s.threads[t])
  }

  // ---- Every step keeps it ---------------------------------------------------------------------------

  lemma MatchKept(s: State, s': State, t: nat, thread: Thread, thread': Thread, found: bool)
    requires MatchedAs(s, t, thread, found) && s.events <= s'.events && s.callers <= s'.callers && |s'.events| == |s'.callers|
    requires thread'.op == thread.op && thread'.invokedAt == thread.invokedAt && thread'.matchedAt == thread.matchedAt
    ensures MatchedAs(s', t, thread', found)
  {
    AnswerKept(s.events, s'.events, thread.matchedAt.value);
  }

  lemma StillAdmits(s: State, s': State, t: nat)
    requires AdmitOk(s, t) && t < |s.threads| && t < |s'.threads| && s'.threads[t] == s.threads[t]
    requires s.events <= s'.events && s.callers <= s'.callers && |s'.events| == |s'.callers|
    ensures AdmitOk(s', t)
  {
    var thread := s.threads[t];
    if MatchedAs(s, t, thread, true) {
      MatchKept(s, s', t, thread, thread, true);
    }
    if MatchedAs(s, t, thread, false) {
      MatchKept(s, s', t, thread, thread, false);
    }
  }

  /** Once in RsRecordOperation, a thread stays admitted. */
  lemma LateAdmits(s: State, s': State, t: nat)
    requires AdmitOk(s, t) && Advances(s, s', t) && !Early(s.threads[t].pc) && |s'.events| == |s'.callers|
    ensures AdmitOk(s', t)
  {
    var thread, thread' := s.threads[t], s'.threads[t];
    if thread.op.FileOp? && Named(thread.op) {
      MatchKept(s, s', t, thread, thread', false);
    }
  }

  lemma EnterAdmits(s: State, t: nat)
    requires t < |s.threads| && s.threads[t].pc.Entered? && s.threads[t].op.FileOp? && s.threads[t].matchedAt == None
    requires s.threads[t].actedAt == None
    ensures AdmitOk(Enter(s, t), t)
  {
    var op := s.threads[t].op;
    if !Recordable(op) {
      PassAdmits(s, t);
    } else if !Named(op) {
      var s' := Goto(s, t, Start);
      assert s'.threads[t] == s.threads[t].(pc := Start);
    } else if Listed(op.fold, FileName(op.image.value), BUILT_IN) {
      PassAdmits(s, t);
    }
  }

  lemma PassAdmits(s: State, t: nat)
    requires t < |s.threads| && LetThrough(s, t, s.threads[t]) && s.threads[t].matchedAt == None
    ensures AdmitOk(Return(Goto(s, t, Passed), t), t)
  {
    var s' := Return(Goto(s, t, Passed), t);
    assert s'.threads[t] == s.threads[t].(pc := Passed, returnedAt := |s.events|);
  }

  lemma SearchAdmits(s: State, t: nat)
    requires t < |s.threads| && s.threads[t].pc.MatchLocked? && Sought(s.threads[t].op) && s.threads[t].invokedAt <= |s.events|
    requires |s.events| == |s.callers| && Replays(s)
    ensures AdmitOk(MatchNames(s, t, s.threads[t].op.fold, FileName(s.threads[t].op.image.value)), t)
  {
    var op := s.threads[t].op;
    var s' := MatchNames(s, t, op.fold, FileName(op.image.value));
    assert s'.events[..|s.events|] == s.events;
  }

  lemma SearchedAdmits(s: State, t: nat, found: bool)
    requires t < |s.threads| && s.threads[t].pc == NameMatched(found) && Sought(s.threads[t].op) && AdmitOk(s, t)
    requires s.lock == Some(t) && s.threads[t].actedAt == None && |s.events| == |s.callers|
    ensures found ==> AdmitOk(Return(Release(s, t, Passed), t), t)
    ensures !found ==> AdmitOk(Release(s, t, Start), t)
  {
    var s' := if found then Return(Release(s, t, Passed), t) else Release(s, t, Start);
    MatchKept(s, s', t, s.threads[t], s'.threads[t], found);
  }

  lemma EarlyAdmits(s: State, t: nat, poolHasMemory: bool)
    requires Inv(s) && t < |s.threads| && Early(s.threads[t].pc) && AdmitOk(s, t)
    ensures AdmitOk(Move(s, t, poolHasMemory), t)
  {
    assert InvParts(s);
    assert ThreadOk(s, t);
    match s.threads[t].pc {
      case Entered => EnterAdmits(s, t);
      case Matching =>
      case MatchLocked => SearchAdmits(s, t);
      case NameMatched(found) => SearchedAdmits(s, t, found);
      case Passed =>
    }
  }

  lemma MoverAdmits(s: State, t: nat, poolHasMemory: bool)
    requires Inv(s) && t < |s.threads| && AdmitOk(s, t)
    ensures Advances(s, Move(s, t, poolHasMemory), t) && AdmitOk(Move(s, t, poolHasMemory), t)
    ensures |Move(s, t, poolHasMemory).events| == |Move(s, t, poolHasMemory).callers|
  {
    MoveStep(s, t, poolHasMemory);
    MoveAdvances(s, t, poolHasMemory);
    SameLength(Move(s, t, poolHasMemory));
    if Early(s.threads[t].pc) {
      EarlyAdmits(s, t, poolHasMemory);
    } else {
      LateAdmits(s, Move(s, t, poolHasMemory), t);
    }
  }

  lemma SameLength(s: State)
    requires Inv(s)
    ensures |s.events| == |s.callers|
  {
    assert InvParts(s);
  }

  lemma MoveAdmits(s: State, t: nat, poolHasMemory: bool)
    requires Inv(s) && t < |s.threads| && forall u: nat :: AdmitOk(s, u)
    ensures forall u: nat :: AdmitOk(Move(s, t, poolHasMemory), u)
  {
    assert AdmitOk(s, t);
    MoverAdmits(s, t, poolHasMemory);
    var s' := Move(s, t, poolHasMemory);
    forall u: nat ensures AdmitOk(s', u) {
      if u < |s.threads| && u != t {
        assert AdmitOk(s, u);
        StillAdmits(s, s', u);
      }
    }
  }

  lemma NextAdmits(s: State, a: Action)
    requires Inv(s) && forall u: nat :: AdmitOk(s, u)
    ensures forall u: nat :: AdmitOk(Next(s, a), u)
  {
    if a.Step? {
      if a.thread < |s.threads| {
        MoveAdmits(s, a.thread, a.poolHasMemory);
      }
    } else {
      var s' := Next(s, a);
      assert InvParts(s);
      forall u: nat ensures AdmitOk(s', u) {
        assert AdmitOk(s, u);
        if u < |s.threads| {
          StillAdmits(s, s', u);
        }
      }
    }
  }

  lemma {:induction false} ReachableAdmits(run: seq<State>, n: nat)
    requires Execution(run) && n < |run|
    ensures forall t: nat :: AdmitOk(run[n], t)
    decreases n
  {
    if n > 0 {
      var m := n - 1;
      ReachableIsOk(run, m);
      ReachableAdmits(run, m);
      assert Follows(run, m);
      var a :| run[m + 1] == Next(run[m], a);
      NextAdmits(run[m], a);
    }
  }
}
