/** What each step of the webhook inbox does to an event and to its handlers, and why every event stands as it does. */
module InboxRules {
  import opened Common
  import opened WebhookInbox

  // ---- one step ---------------------------------------------------------------------------------

  predicate Handles(b: Inbox, k: nat, event: string) {
    k in b.handlers && b.handlers[k].event == event
  }

  predicate Stands(b: Inbox, event: string, status: EventStatus) {
    event in b.events && b.events[event] == status
  }

  /** Nobody has it, or the last attempt was marked FAILED. */
  predicate MayStart(b: Inbox, k: nat, event: string) {
    k !in b.handlers && (event in b.events ==> b.events[event] == FailedEvent)
  }

  /** The step moves the event to another status. */
  predicate Moves(b: Inbox, s: Step, event: string, status: EventStatus) {
    match status
    case Received => s.Deliver? && s.event == event && MayStart(b, s.handler, event)
    case Processed =>
      s.MarkProcessed? && Handles(b, s.handler, event) && b.handlers[s.handler].applied && Stands(b, event, Received)
    case FailedEvent => s.MarkFailed? && Handles(b, s.handler, event) && Stands(b, event, Received)
  }

  /** An event stands where the step moves it, and otherwise where it stood. */
  lemma {:induction false} EventIsRight(b: Inbox, s: Step, event: string, status: EventStatus)
    ensures Stands(Next(b, s), event, status) <==>
      Moves(b, s, event, status) ||
      (Stands(b, event, status) && !Moves(b, s, event, Received) && !Moves(b, s, event, Processed) &&
       !Moves(b, s, event, FailedEvent))
    ensures event in Next(b, s).events <==> event in b.events || Moves(b, s, event, Received)
  {
  }

  /** How a handler gets its event, applies it and ends. */
  lemma {:induction false} HandlerIsRight(b: Inbox, s: Step, k: nat, event: string)
    ensures Handles(Next(b, s), k, event) <==>
      || (s == Deliver(k, event) && MayStart(b, k, event))
      || (Handles(b, k, event) && s != Stop(k) && s != MarkFailed(k) &&
          !(s == MarkProcessed(k, false) && b.handlers[k].applied))
    ensures Handles(Next(b, s), k, event) ==>
      (Next(b, s).handlers[k].applied <==>
         s == Apply(k) || (k in b.handlers && b.handlers[k].applied))
  {
  }

  /**
   * The effects are brought about by an `Apply` of a handler that has not applied its event yet, and by nothing else.
   */
  lemma {:induction false} EffectIsRight(b: Inbox, s: Step, event: string)
    ensures AppliedTimes(Next(b, s), event) == AppliedTimes(b, event) +
      if s.Apply? && Handles(b, s.handler, event) && !b.handlers[s.handler].applied then 1 else 0
  {
  }

  // ---- every run -----------------------------------------------------------------------------------

  ghost predicate WasDelivered(steps: seq<Step>, event: string) {
    exists i :: 0 <= i < |steps| && steps[i].Deliver? && steps[i].event == event
  }

  ghost predicate WasApplied(steps: seq<Step>, k: nat, event: string) {
    exists i :: AppliesAt(steps, i, event) && steps[i].handler == k
  }

  /** A handler marked it after bringing its effects about. */
  ghost predicate WasProcessed(steps: seq<Step>, event: string) {
    exists j :: 0 <= j < |steps| && steps[j].MarkProcessed? && WasApplied(steps[..j], steps[j].handler, event)
  }

  ghost predicate WasFailed(steps: seq<Step>) {
    exists j :: 0 <= j < |steps| && steps[j].MarkFailed?
  }

  ghost predicate HandlerJustified(steps: seq<Step>, b: Inbox, k: nat)
    requires k in b.handlers
  {
    WasDelivered(steps, b.handlers[k].event) && (b.handlers[k].applied ==> WasApplied(steps, k, b.handlers[k].event))
  }

  ghost predicate EventJustified(steps: seq<Step>, b: Inbox, event: string) {
    && (event in b.events ==> WasDelivered(steps, event))
    && (Stands(b, event, Processed) ==> WasProcessed(steps, event))
    && (Stands(b, event, FailedEvent) ==> WasFailed(steps))
  }

  lemma {:induction false} StillSo(steps: seq<Step>, s: Step, k: nat, event: string)
    ensures WasDelivered(steps, event) ==> WasDelivered(steps + [s], event)
    ensures WasApplied(steps, k, event) ==> WasApplied(steps + [s], k, event)
    ensures WasProcessed(steps, event) ==> WasProcessed(steps + [s], event)
    ensures WasFailed(steps) ==> WasFailed(steps + [s])
  {
    var more := steps + [s];
    assert forall i :: 0 <= i < |steps| ==> more[i] == steps[i] && more[..i] == steps[..i];
    if WasApplied(steps, k, event) {
      var i :| AppliesAt(steps, i, event) && steps[i].handler == k;
      assert AppliesAt(more, i, event);
    }
    if WasProcessed(steps, event) {
      var j :| 0 <= j < |steps| && steps[j].MarkProcessed? && WasApplied(steps[..j], steps[j].handler, event);
      assert WasApplied(more[..j], more[j].handler, event);
    }
  }

  lemma {:induction false} StepJustifies(steps: seq<Step>, s: Step, k: nat, event: string)
    requires var b := Run(EMPTY, steps);
      EventJustified(steps, b, event) && (k in b.handlers ==> HandlerJustified(steps, b, k))
    requires var b := Run(EMPTY, steps); s.handler in b.handlers ==> HandlerJustified(steps, b, s.handler)
    ensures var b := Next(Run(EMPTY, steps), s);
      EventJustified(steps + [s], b, event) && (k in b.handlers ==> HandlerJustified(steps + [s], b, k))
  {
    var b, more := Run(EMPTY, steps), steps + [s];
    var n := Next(b, s);
    assert more[|steps|] == s && more[..|steps|] == steps;
    StillSo(steps, s, k, event);
    EventIsRight(b, s, event, Processed);
    EventIsRight(b, s, event, FailedEvent);
    if Moves(b, s, event, Processed) {
      assert WasApplied(more[..|steps|], more[|steps|].handler, event);
    }
    if k in n.handlers {
      StillSo(steps, s, k, n.handlers[k].event);
      HandlerIsRight(b, s, k, n.handlers[k].event);
      if s == Apply(k) && !b.handlers[k].applied { assert AppliesAt(more, |steps|, n.handlers[k].event); }
    }
  }

  /**
   * Over every run from the empty inbox every stored event was delivered, every processed
   * one was marked by a handler after that handler brought its effects about, and a failed
   * one was marked FAILED.
   */
  lemma {:induction false} EveryEventHasItsReason(steps: seq<Step>, k: nat, event: string)
    ensures var b := Run(EMPTY, steps);
      EventJustified(steps, b, event) && (k in b.handlers ==> HandlerJustified(steps, b, k))
    decreases |steps|
  {
    if steps == [] {
    } else {
      EveryEventHasItsReason(Init(steps), k, event);
      EveryEventHasItsReason(Init(steps), Last(steps).handler, event);
      StepJustifies(Init(steps), Last(steps), k, event);
      assert Init(steps) + [Last(steps)] == steps;
    }
  }
}
