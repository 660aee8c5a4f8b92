/** The hand-off of alerts from listener threads to the window that shows them: a queue under a mutex,
    and a posted message that carries no data and only says "drain the queue". */
module Alerts {
  import opened Base

  datatype Alert = Alert(pid: ULong, imageName: string, opCount: ULong)

  // ---- Steps --------------------------------------------------------------------------------------

  /** A listener thread: outside QueueAlert, or between the push and the post. */
  datatype Producer = Ready | Posting

  /** The window procedure: in the message pump, about to call DrainAlert, or with an alert to show. */
  datatype Consumer = Pumping | Draining | InHand(alert: Alert)

  /** `pending` counts the WM_RSBLOCKED messages waiting. For the proofs only: every alert pushed, every
      alert shown, and how many had been pushed at the last post that succeeded. */
  datatype State = State(
    queue: seq<Alert>, pending: nat, producers: seq<Producer>, consumer: Consumer,
    pushed: seq<Alert>, shown: seq<Alert>, signalled: nat)

  datatype Action =
    | Enter                              // another thread may call QueueAlert from now on
    | Push(thread: nat, alert: Alert)    // under the mutex
    | Post(thread: nat, delivered: bool) // PostMessageW, which may fail
    | Consume                            // the next step of the window procedure

  const INITIAL := State([], 0, [], Pumping, [], [], 0)

  function Next(s: State, a: Action): State {
    match a
    case Enter => s.(producers := s.producers + [Ready])
    case Push(t, alert) =>
      if t < |s.producers| && s.producers[t] == Ready then
        s.(queue := s.queue + [alert], pushed := s.pushed + [alert], producers := s.producers[t := Posting])
      else s
    case Post(t, delivered) =>
      if t < |s.producers| && s.producers[t] == Posting then
        var posted := s.(producers := s.producers[t := Ready]);
        if delivered then posted.(pending := s.pending + 1, signalled := |s.pushed|) else posted
      else s
    case Consume => Consumed(s)
  }

  function Consumed(s: State): State {
    match s.consumer
    case Pumping => if s.pending > 0 then s.(pending := s.pending - 1, consumer := Draining) else s
    case Draining =>
      if s.queue == [] then s.(consumer := Pumping) else s.(queue := s.queue[1..], consumer := InHand(s.queue[0]))
    case InHand(alert) => s.(shown := s.shown + [alert], consumer := Draining)
  }

  function Reach(actions: seq<Action>): State {
    if actions == [] then INITIAL else Next(Reach(actions[..|actions| - 1]), actions[|actions| - 1])
  }

  function Hand(s: State): seq<Alert> {
    if s.consumer.InHand? then [s.consumer.alert] else []
  }

  predicate AllDelivered(actions: seq<Action>) {
    forall k :: 0 <= k < |actions| && actions[k].Post? ==> actions[k].delivered
  }

  /** Nothing is under way: no thread inside QueueAlert, no message waiting, no drain running. */
  predicate Quiescent(s: State) {
    s.pending == 0 && s.consumer.Pumping? && Posting !in s.producers
  }

  // ---- Safety over every interleaving ---------------------------------------------------------------

  ghost predicate Inv(s: State) {
    && s.shown + Hand(s) + s.queue == s.pushed
    && s.signalled <= |s.pushed|
    && (s.pending == 0 && s.consumer.Pumping? ==> s.signalled <= |s.shown|)
  }

  /** As long as every post succeeds, whatever was pushed since the last one has its own post to come. */
  ghost predicate WakeUpDue(s: State) {
    s.signalled < |s.pushed| ==> Posting in s.producers
  }

  lemma PostingKept(producers: seq<Producer>, t: nat)
    requires t < |producers|
    ensures producers[t := Posting][t] == Posting && Posting in producers[t := Posting]
    ensures Posting in producers ==> Posting in producers + [Ready]
  {
    assert producers[t := Posting][t] == Posting;
  }

  lemma NextIsSafe(s: State, a: Action)
    requires Inv(s)
    ensures Inv(Next(s, a))
    ensures WakeUpDue(s) && (a.Post? ==> a.delivered) ==> WakeUpDue(Next(s, a))
  {
    match a {
      case Push(t, _) => if t < |s.producers| { PostingKept(s.producers, t); }
      case Consume => if s.consumer.Draining? && s.queue != [] { assert [s.queue[0]] + s.queue[1..] == s.queue; }
      case _ =>
    }
  }

  lemma {:induction false} ReachIsSafe(actions: seq<Action>)
    ensures Inv(Reach(actions))
    ensures AllDelivered(actions) ==> WakeUpDue(Reach(actions))
  {
    if actions != [] {
      ReachIsSafe(actions[..|actions| - 1]);
      NextIsSafe(Reach(actions[..|actions| - 1]), actions[|actions| - 1]);
    }
  }

  /** First in, first out: the alerts shown, then the one in hand, then the queue, are the alerts
      pushed, in push order, each once, whatever the interleaving and whether posts succeed or not. */
  lemma {:induction false} FirstInFirstOut(actions: seq<Action>)
    ensures var s := Reach(actions); s.shown + Hand(s) + s.queue == s.pushed
  {
    ReachIsSafe(actions);
  }

  /** No lost wake-up: with posting assumed to succeed, alerts in the queue mean a message is waiting,
      a thread is about to post one, or the drain is still running. */
  lemma NoLostWakeUp(actions: seq<Action>)
    requires AllDelivered(actions) && Reach(actions).queue != []
    ensures !Quiescent(Reach(actions))
  {
    ReachIsSafe(actions);
  }

  /** When everything has come to rest, every alert pushed before the last successful post was shown;
      so all of them were, if no post failed. */
  lemma RestMeansShown(actions: seq<Action>)
    requires Quiescent(Reach(actions))
    ensures var s := Reach(actions);
            && s.shown <= s.pushed && s.signalled <= |s.shown|
            && (AllDelivered(actions) ==> s.shown == s.pushed)
  {
    ReachIsSafe(actions);
  }

  // ---- Progress ----------------------------------------------------------------------------------------

  function Pumped(s: State, steps: nat): State
    decreases steps
  {
    if steps == 0 then s else Pumped(Consumed(s), steps - 1)
  }

  /** How many steps the window procedure still has to take: two for an alert in the queue, one for one
      in hand, and two for each message, one to take it and one to find the queue empty. */
  function Left(s: State): nat {
    2 * |s.queue| + 2 * s.pending + (if s.consumer.InHand? then 2 else if s.consumer.Draining? then 1 else 0)
  }

  // ---- Exactly when alerts are stranded ---------------------------------------------------------------

  /** The window procedure is at work, or has a message that will set it to work, or has nothing to do. */
  predicate WillShow(s: State) {
    s.queue == [] || s.pending > 0 || !s.consumer.Pumping?
  }

  lemma {:induction false} PumpDrains(s: State)
    requires Inv(s) && WillShow(s)
    ensures var rest := Pumped(s, Left(s)); rest.pending == 0 && rest.consumer.Pumping? && rest.shown == s.pushed
    decreases Left(s)
  {
    if Left(s) > 0 {
      NextIsSafe(s, Consume);
      PumpDrains(Consumed(s));
    }
  }

  lemma {:induction false} PumpIdles(s: State, steps: nat)
    requires s.pending == 0 && s.consumer.Pumping?
    ensures Pumped(s, steps) == s
    decreases steps
  {
    if steps > 0 {
      PumpIdles(s, steps - 1);
    }
  }

  /** The window procedure, left to run, shows every alert pushed so far iff it is at work, or a message
      waits for it, or the queue is empty; otherwise it never shows another one. */
  lemma {:induction false} AllShownIff(actions: seq<Action>)
    ensures var s := Reach(actions); Pumped(s, Left(s)).shown == s.pushed <==> WillShow(s)
  {
    var s := Reach(actions);
    ReachIsSafe(actions);
    if WillShow(s) {
      PumpDrains(s);
    } else {
      PumpIdles(s, Left(s));
      assert s.shown + [] + s.queue == s.shown + s.queue;
    }
  }

  /** An action that takes effect: a push, or a post that is delivered. */
  predicate Pushes(s: State, a: Action) {
    a.Push? && a.thread < |s.producers| && s.producers[a.thread] == Ready
  }

  predicate Delivers(s: State, a: Action) {
    a.Post? && a.delivered && a.thread < |s.producers| && s.producers[a.thread] == Posting
  }

  predicate FindsEmpty(s: State, a: Action) {
    a.Consume? && s.consumer.Draining? && s.queue == []
  }

  /** An action with the given effect was taken at position m or later. */
  ghost predicate Since(actions: seq<Action>, m: nat, effect: (State, Action) -> bool) {
    exists k :: m <= k < |actions| && effect(Reach(actions[..k]), actions[k])
  }

  lemma SinceSnoc(actions: seq<Action>, m: nat, effect: (State, Action) -> bool)
    requires m < |actions|
    ensures var front, last := actions[..|actions| - 1], actions[|actions| - 1];
            Since(actions, m, effect) <==> Since(front, m, effect) || effect(Reach(front), last)
  {
    var front := actions[..|actions| - 1];
    assert forall k :: 0 <= k < |front| ==> front[..k] == actions[..k] && front[k] == actions[k];
    if Since(front, m, effect) {
      var k :| m <= k < |front| && effect(Reach(front[..k]), front[k]);
      assert effect(Reach(actions[..k]), actions[k]);
    }
    if effect(Reach(front), actions[|actions| - 1]) {
      assert actions[..|front|] == front;
      assert effect(Reach(actions[..|front|]), actions[|front|]);
    }
  }

  /** The number of actions after which the window procedure last found the queue empty, and went back to
      the message pump; 0 if it never did. */
  function LastEmptied(actions: seq<Action>): (m: nat)
    ensures m <= |actions|
  {
    if actions == [] then 0
    else
      var front := actions[..|actions| - 1];
      if FindsEmpty(Reach(front), actions[|actions| - 1]) then |actions| else LastEmptied(front)
  }

  /** As long as the window procedure has not been woken, the queue is what was pushed meanwhile. */
  ghost predicate Standing(s: State, woken: bool, pushed: bool) {
    && (s.consumer.Pumping? ==> (s.pending > 0 <==> woken) && (s.queue != [] <==> pushed))
    && (!s.consumer.Pumping? ==> woken)
  }

  lemma StandingStep(s: State, a: Action, woken: bool, pushed: bool)
    requires Standing(s, woken, pushed) && !FindsEmpty(s, a)
    ensures Standing(Next(s, a), woken || Delivers(s, a), pushed || Pushes(s, a))
  {
  }

  /** What has happened since the queue was last found empty: the window procedure was woken iff a message
      was left over then or one was delivered since. */
  lemma {:induction false} SinceLastEmptied(actions: seq<Action>)
    ensures var m := LastEmptied(actions);
            Standing(Reach(actions), Reach(actions[..m]).pending > 0 || Since(actions, m, Delivers), Since(actions, m, Pushes))
  {
    if actions != [] {
      var front, last := actions[..|actions| - 1], actions[|actions| - 1];
      var m := LastEmptied(actions);
      if m == |actions| {
        assert actions[..m] == actions;
      } else {
        SinceLastEmptied(front);
        assert actions[..m] == front[..m];
        SinceSnoc(actions, m, Delivers);
        SinceSnoc(actions, m, Pushes);
        StandingStep(Reach(front), last, Reach(front[..m]).pending > 0 || Since(front, m, Delivers), Since(front, m, Pushes));
      }
    }
  }

  /** Exactly when alerts are stranded, no thread being inside QueueAlert any more: something was pushed
      since the window procedure last found the queue empty, no message was left over then, and no post
      was delivered since. */
  lemma {:induction false} StrandedIff(actions: seq<Action>)
    requires Posting !in Reach(actions).producers
    ensures var s, m := Reach(actions), LastEmptied(actions);
            Pumped(s, Left(s)).shown != s.pushed
            <==> && Since(actions, m, Pushes)
                 && Reach(actions[..m]).pending == 0 && !Since(actions, m, Delivers)
  {
    AllShownIff(actions);
    SinceLastEmptied(actions);
  }

  /** Once no thread is inside QueueAlert, the window procedure, left to run, comes to rest, and by then
      has shown every alert of a run in which no post failed. */
  lemma {:induction false} PumpComesToRest(actions: seq<Action>)
    requires AllDelivered(actions) && Posting !in Reach(actions).producers
    ensures var s := Reach(actions); var rest := Pumped(s, Left(s)); Quiescent(rest) && rest.shown == s.pushed
  {
    ReachIsSafe(actions);
    PumpDrains(Reach(actions));
    PumpKeepsProducers(Reach(actions), Left(Reach(actions)));
  }

  lemma {:induction false} PumpKeepsProducers(s: State, steps: nat)
    ensures Pumped(s, steps).producers == s.producers
    decreases steps
  {
    if steps > 0 {
      PumpKeepsProducers(Consumed(s), steps - 1);
    }
  }

  /** The smallest run that strands an alert. */
  lemma FailedPostStrands(alert: Alert)
    ensures var s := Reach([Enter, Push(0, alert), Post(0, false)]);
            Quiescent(s) && s.pushed == [alert] && s.shown == []
  {
    var actions := [Enter, Push(0, alert), Post(0, false)];
    assert actions[..2] == [Enter, Push(0, alert)] && actions[..2][..1] == [Enter] && actions[..2][..1][..0] == [];
    assert Reach(actions[..2][..1]) == Next(INITIAL, Enter);
    assert Reach(actions[..2]) == Next(Reach(actions[..2][..1]), Push(0, alert));
  }

  // ---- The two methods and the message handler -----------------------------------------------------------

  /** `pending` stands for the message queue of the window, which the system keeps. */
  class NotificationManager {
    var alertQueue: seq<Alert>
    var pending: nat

    constructor ()
      ensures alertQueue == [] && pending == 0
    {
      alertQueue, pending := [], 0;
    }

    /** The two steps of one thread, `Push` and `Post`, run without interruption. */
    method QueueAlert(pid: ULong, imageName: string, opCount: ULong, delivered: bool)
      modifies this
      ensures forall s: State, t: nat ::
                s.queue == old(alertQueue) && s.pending == old(pending) && t < |s.producers| && s.producers[t] == Ready
                ==> var s' := Next(Next(s, Push(t, Alert(pid, imageName, opCount))), Post(t, delivered));
                    s'.queue == alertQueue && s'.pending == pending && s'.producers == s.producers
      ensures alertQueue == old(alertQueue) + [Alert(pid, imageName, opCount)]
      ensures pending == if delivered then old(pending) + 1 else old(pending)
    {
      alertQueue := alertQueue + [Alert(pid, imageName, opCount)];
      if delivered {
        pending := pending + 1;
      }
    }

    method DrainAlert() returns (alert: Option<Alert>)
      modifies this
      ensures old(alertQueue) == [] ==> alert == None && alertQueue == []
      ensures old(alertQueue) != [] ==> alert.Some? && [alert.value] + alertQueue == old(alertQueue)
      ensures pending == old(pending)
    {
      if alertQueue == [] {
        return None;
      }
      alert := Some(alertQueue[0]);
      alertQueue := alertQueue[1..];
    }

    /** WM_RSBLOCKED: show alerts until DrainAlert finds none. */
    method HandleBlocked() returns (shown: seq<Alert>)
      requires pending > 0
      modifies this
      ensures shown == old(alertQueue) && alertQueue == [] && pending == old(pending) - 1
    {
      pending := pending - 1;
      shown := [];
      var alert := DrainAlert();
      while alert.Some?
        invariant shown + (if alert.Some? then [alert.value] else []) + alertQueue == old(alertQueue)
        invariant alert == None ==> alertQueue == []
        invariant pending == old(pending) - 1
        decreases |alertQueue|, alert.Some?
      {
        shown := shown + [alert.value];
        alert := DrainAlert();
      }
    }
  }
}
