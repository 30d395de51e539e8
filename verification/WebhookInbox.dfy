/** Stripe event inbox. */
module WebhookInbox {
  // `handleWebhook`: a delivery claims the stored event, applies it and then marks it
  // PROCESSED in a second write. Whatever throws in between marks it FAILED, which lets
  // a later delivery claim it again; a handler can also stop anywhere.
  import opened Common

  datatype EventStatus = Received | Processed | FailedEvent

  /** `applied` is whether the effects of this attempt are already in the tables. */
  datatype Handling = Handling(event: string, applied: bool)

  /** `applied` counts how often the effects of an event were brought about. */
  datatype Inbox = Inbox(events: map<string, EventStatus>, handlers: map<nat, Handling>, applied: map<string, nat>)

  /** `lost`: the mark was written but its answer never came, so the handler goes on as if it had failed. */
  datatype Step =
    | Deliver(handler: nat, event: string)
    | Apply(handler: nat)
    | MarkProcessed(handler: nat, lost: bool)
    | MarkFailed(handler: nat)
    | Stop(handler: nat)

  const EMPTY := Inbox(map[], map[], map[])

  function AppliedTimes(b: Inbox, event: string): nat {
    if event in b.applied then b.applied[event] else 0
  }

  /** `updateMany` with RECEIVED in its condition. */
  function Mark(events: map<string, EventStatus>, event: string, status: EventStatus): map<string, EventStatus> {
    if event in events && events[event] == Received then events[event := status] else events
  }

  function Next(b: Inbox, s: Step): Inbox {
    match s
    case Deliver(k, event) =>
      if k !in b.handlers && (event !in b.events || b.events[event] == FailedEvent)
      then b.(events := b.events[event := Received], handlers := b.handlers[k := Handling(event, false)]) else b
    case Apply(k) =>
      if k in b.handlers && !b.handlers[k].applied then
        var event := b.handlers[k].event;
        b.(handlers := b.handlers[k := Handling(event, true)],
          applied := b.applied[event := AppliedTimes(b, event) + 1])
      else b
    case MarkProcessed(k, lost) =>
      if k in b.handlers && b.handlers[k].applied then
        b.(events := Mark(b.events, b.handlers[k].event, Processed),
          handlers := if lost then b.handlers else b.handlers - {k})
      else b
    case MarkFailed(k) =>
      if k in b.handlers
        then b.(events := Mark(b.events, b.handlers[k].event, FailedEvent), handlers := b.handlers - {k}) else b
    case Stop(k) => b.(handlers := b.handlers - {k})
  }

  function Run(b: Inbox, steps: seq<Step>): Inbox
    decreases |steps|
  {
    if steps == [] then b else Next(Run(b, Init(steps)), Last(steps))
  }

  // ---- what always holds ---------------------------------------------------------------

  ghost predicate HandlerOk(b: Inbox, k: nat)
    requires k in b.handlers
  {
    var h := b.handlers[k];
    && h.event in b.events
    && (b.events[h.event] == Received || (h.applied && b.events[h.event] == Processed))
    && (h.applied ==> AppliedTimes(b, h.event) >= 1)
  }

  ghost predicate Ok(b: Inbox) {
    && (forall k {:trigger HandlerOk(b, k)} :: k in b.handlers ==> HandlerOk(b, k))
    && (forall j, k :: j in b.handlers && k in b.handlers && b.handlers[j].event == b.handlers[k].event ==> j == k)
    && (forall event :: event !in b.events ==> AppliedTimes(b, event) == 0)
    && (forall event :: event in b.events && b.events[event] == Processed ==> AppliedTimes(b, event) >= 1)
  }

  lemma {:induction false} NextKeepsOk(b: Inbox, s: Step)
    requires Ok(b)
    ensures Ok(Next(b, s))
  {
    var c := Next(b, s);
    assert s.handler in b.handlers ==> HandlerOk(b, s.handler);
    OneHandlerEach(b, s);
    forall k | k in c.handlers ensures HandlerOk(c, k) {
      assert k in b.handlers ==> HandlerOk(b, k);
    }
  }

  /** A delivery is accepted only for an event nobody is handling. */
  lemma {:induction false} OneHandlerEach(b: Inbox, s: Step)
    requires Ok(b)
    ensures var c := Next(b, s);
      forall j, k :: j in c.handlers && k in c.handlers && c.handlers[j].event == c.handlers[k].event ==> j == k
  {
    var c := Next(b, s);
    forall j, k | j in c.handlers && k in c.handlers && c.handlers[j].event == c.handlers[k].event ensures j == k {
      assert (j in b.handlers ==> HandlerOk(b, j)) && (k in b.handlers ==> HandlerOk(b, k));
    }
  }

  lemma {:induction false} RunKeepsOk(b: Inbox, steps: seq<Step>)
    requires Ok(b)
    ensures Ok(Run(b, steps))
    decreases |steps|
  {
    if steps != [] {
      RunKeepsOk(b, Init(steps));
      NextKeepsOk(Run(b, Init(steps)), Last(steps));
    }
  }

  // ---- how often an event is applied ---------------------------------------------------------

  /** The step brings the effects of the event about. */
  predicate Applies(b: Inbox, s: Step, event: string) {
    s.Apply? && s.handler in b.handlers && b.handlers[s.handler] == Handling(event, false)
  }

  /** The step marks the event FAILED although its effects are in the tables: marking it PROCESSED had thrown. */
  predicate Reopens(b: Inbox, s: Step, event: string) {
    && s.MarkFailed? && s.handler in b.handlers && b.handlers[s.handler] == Handling(event, true)
    && event in b.events && b.events[event] == Received
  }

  ghost predicate AppliesAt(steps: seq<Step>, i: int, event: string) {
    0 <= i < |steps| && Applies(Run(EMPTY, steps[..i]), steps[i], event)
  }

  ghost predicate ReopensAt(steps: seq<Step>, i: int, event: string) {
    0 <= i < |steps| && Reopens(Run(EMPTY, steps[..i]), steps[i], event)
  }

  /** Applied, and not open to another attempt as things stand. */
  ghost predicate Spent(b: Inbox, event: string) {
    && event in b.events && b.events[event] != FailedEvent && AppliedTimes(b, event) >= 1
    && forall k :: k in b.handlers && b.handlers[k].event == event ==> b.handlers[k].applied
  }

  lemma {:induction false} CountsApplications(b: Inbox, s: Step, event: string)
    ensures AppliedTimes(Next(b, s), event) == AppliedTimes(b, event) + (if Applies(b, s, event) then 1 else 0)
  {
  }

  lemma {:induction false} SpentUntilReopened(b: Inbox, s: Step, event: string)
    requires Ok(b) && !Reopens(b, s, event)
    requires Spent(b, event) || (AppliedTimes(b, event) == 0 && AppliedTimes(Next(b, s), event) >= 1)
    ensures Spent(Next(b, s), event)
  {
    assert s.handler in b.handlers ==> HandlerOk(b, s.handler);
  }

  /** Without a reopening the first application is the last. */
  lemma {:induction false} OnceUnlessReopened(steps: seq<Step>, event: string)
    requires forall i :: 0 <= i < |steps| ==> !ReopensAt(steps, i, event)
    ensures AppliedTimes(Run(EMPTY, steps), event) <= 1
    ensures AppliedTimes(Run(EMPTY, steps), event) == 1 ==> Spent(Run(EMPTY, steps), event)
    decreases |steps|
  {
    if steps != [] {
      var before, n := Init(steps), |steps| - 1;
      forall i | 0 <= i < n ensures !ReopensAt(before, i, event) {
        assert before[..i] == steps[..i];
        assert !ReopensAt(steps, i, event);
      }
      OnceUnlessReopened(before, event);
      RunKeepsOk(EMPTY, before);
      assert !ReopensAt(steps, n, event);
      CountsApplications(Run(EMPTY, before), Last(steps), event);
      if AppliedTimes(Run(EMPTY, steps), event) >= 1 {
        SpentUntilReopened(Run(EMPTY, before), Last(steps), event);
      }
    }
  }

  lemma {:induction false} NeverFewer(steps: seq<Step>, n: nat, event: string)
    requires n <= |steps|
    ensures AppliedTimes(Run(EMPTY, steps[..n]), event) <= AppliedTimes(Run(EMPTY, steps), event)
    decreases |steps| - n
  {
    if n == |steps| {
      assert steps[..n] == steps;
    } else {
      var more := steps[..n + 1];
      assert Init(more) == steps[..n];
      CountsApplications(Run(EMPTY, steps[..n]), steps[n], event);
      NeverFewer(steps, n + 1, event);
    }
  }

  /** An application after a reopening is at least the second one. */
  lemma {:induction false} SecondAfterReopening(steps: seq<Step>, i: nat, j: nat, event: string)
    requires i < j && ReopensAt(steps, i, event) && AppliesAt(steps, j, event)
    ensures AppliedTimes(Run(EMPTY, steps), event) >= 2
  {
    RunKeepsOk(EMPTY, steps[..i]);
    assert HandlerOk(Run(EMPTY, steps[..i]), steps[i].handler);
    assert steps[..j][..i] == steps[..i];
    NeverFewer(steps[..j], i, event);
    assert Init(steps[..j + 1]) == steps[..j];
    CountsApplications(Run(EMPTY, steps[..j]), steps[j], event);
    NeverFewer(steps, j + 1, event);
  }

  /**
   * For every stream of deliveries, failures and stops at any point: an event is
   * applied more than once if and only if it was marked FAILED after its effects
   * were in the tables and was then claimed and applied again.
   */
  lemma {:induction false} AppliedAgainExactlyWhenReopened(steps: seq<Step>, event: string)
    ensures AppliedTimes(Run(EMPTY, steps), event) >= 2
       <==> exists i, j :: i < j && ReopensAt(steps, i, event) && AppliesAt(steps, j, event)
    decreases |steps|
  {
    if i, j :| i < j && ReopensAt(steps, i, event) && AppliesAt(steps, j, event) {
      SecondAfterReopening(steps, i, j, event);
    }
    if AppliedTimes(Run(EMPTY, steps), event) >= 2 {
      var i, j := SomeReopening(steps, event);
    }
  }

  lemma {:induction false} SomeReopening(steps: seq<Step>, event: string) returns (i: nat, j: nat)
    requires AppliedTimes(Run(EMPTY, steps), event) >= 2
    ensures i < j && ReopensAt(steps, i, event) && AppliesAt(steps, j, event)
    decreases |steps|
  {
    var before := Init(steps);
    CountsApplications(Run(EMPTY, before), Last(steps), event);
    if AppliedTimes(Run(EMPTY, before), event) >= 2 {
      i, j := SomeReopening(before, event);
      assert before[..i] == steps[..i] && before[..j] == steps[..j];
    } else {
      j := |steps| - 1;
      assert AppliesAt(steps, j, event);
      i := ReopenedBefore(before, steps, event);
    }
  }

  /** An event that has been applied and is being handled anew was reopened. */
  lemma {:induction false} ReopenedBefore(before: seq<Step>, steps: seq<Step>, event: string) returns (i: nat)
    requires steps != [] && before == Init(steps)
    requires AppliedTimes(Run(EMPTY, before), event) == 1 && AppliesAt(steps, |before|, event)
    ensures i < |before| && ReopensAt(steps, i, event)
  {
    assert steps[..|before|] == before;
    assert exists k :: ReopensAt(before, k, event) by {
      if forall k :: !ReopensAt(before, k, event) {
        OnceUnlessReopened(before, event);
        assert false;
      }
    }
    i :| ReopensAt(before, i, event);
    assert before[..i] == steps[..i];
  }

  /** A failed mark after the effects: the next delivery applies the event a second time. */
  lemma {:induction false} AppliedTwice(event: string)
    ensures AppliedTimes(Run(EMPTY, [Deliver(0, event), Apply(0), MarkFailed(0), Deliver(1, event), Apply(1)]), event)
      == 2
  {
    var s := [Deliver(0, event), Apply(0), MarkFailed(0), Deliver(1, event), Apply(1)];
    assert Init(s) == s[..4] && Init(s[..4]) == s[..3] && Init(s[..3]) == s[..2] && Init(s[..2]) == s[..1] &&
      Init(s[..1]) == [];
    assert Run(EMPTY, s[..1]) == Next(EMPTY, s[0]);
    assert Run(EMPTY, s[..2]) == Next(Run(EMPTY, s[..1]), s[1]);
    assert Run(EMPTY, s[..3]) == Next(Run(EMPTY, s[..2]), s[2]);
    assert Run(EMPTY, s[..4]) == Next(Run(EMPTY, s[..3]), s[3]);
  }

  // ---- events that are never applied again -----------------------------------------------------

  ghost predicate Handled(b: Inbox, event: string) {
    exists k :: k in b.handlers && b.handlers[k].event == event
  }

  /** PROCESSED, or RECEIVED with nobody handling it. */
  ghost predicate Shut(b: Inbox, event: string) {
    event in b.events && (b.events[event] == Processed || (b.events[event] == Received && !Handled(b, event)))
  }

  /** Whatever comes, the effects are not brought about once more. */
  ghost predicate NeverAppliedAgain(b: Inbox, event: string) {
    forall steps {:trigger Run(b, steps)} :: AppliedTimes(Run(b, steps), event) == AppliedTimes(b, event)
  }

  lemma {:induction false} ShutStaysShut(b: Inbox, steps: seq<Step>, event: string)
    requires Ok(b) && Shut(b, event)
    ensures Shut(Run(b, steps), event) && AppliedTimes(Run(b, steps), event) == AppliedTimes(b, event)
    decreases |steps|
  {
    if steps != [] {
      var c, s := Run(b, Init(steps)), Last(steps);
      ShutStaysShut(b, Init(steps), event);
      RunKeepsOk(b, Init(steps));
      assert s.handler in c.handlers ==> HandlerOk(c, s.handler);
      CountsApplications(c, s, event);
      assert forall k :: k in c.handlers && c.handlers[k].event == event ==> Handled(c, event);
    }
  }

  lemma {:induction false} OneStep(b: Inbox, s: Step)
    ensures Run(b, [s]) == Next(b, s)
  {
    assert Init([s]) == [];
  }

  lemma {:induction false} MoreSteps(b: Inbox, steps: seq<Step>, s: Step)
    ensures Run(b, steps + [s]) == Next(Run(b, steps), s)
  {
    OneMore(steps, s);
  }

  /** What is not shut can be applied: by its handler, or by a new one after a failure. */
  lemma {:induction false} OpenCanBeApplied(b: Inbox, event: string) returns (steps: seq<Step>)
    requires Ok(b) && !Shut(b, event)
    ensures AppliedTimes(Run(b, steps), event) == AppliedTimes(b, event) + 1
  {
    if Handled(b, event) {
      var k :| k in b.handlers && b.handlers[k].event == event;
      assert HandlerOk(b, k);
      if b.handlers[k].applied {
        OneStep(b, MarkFailed(k));
        MoreSteps(b, [MarkFailed(k)], Deliver(k, event));
        MoreSteps(b, [MarkFailed(k)] + [Deliver(k, event)], Apply(k));
        steps := [MarkFailed(k)] + [Deliver(k, event)] + [Apply(k)];
        assert Run(b, steps) == Next(Next(Next(b, MarkFailed(k)), Deliver(k, event)), Apply(k));
      } else {
        steps := [Apply(k)];
        OneStep(b, Apply(k));
        CountsApplications(b, Apply(k), event);
      }
    } else {
      var k := FreeNumber(b.handlers.Keys);
      assert k !in b.handlers.Keys;
      OneStep(b, Deliver(k, event));
      MoreSteps(b, [Deliver(k, event)], Apply(k));
      steps := [Deliver(k, event)] + [Apply(k)];
      assert Run(b, steps) == Next(Next(b, Deliver(k, event)), Apply(k));
    }
  }

  /** No continuation applies the event again if and only if it is PROCESSED, or RECEIVED with no handler holding it. */
  lemma {:induction false} NeverAppliedAgainExactlyWhenShut(b: Inbox, event: string)
    requires Ok(b)
    ensures NeverAppliedAgain(b, event) <==> Shut(b, event)
  {
    if Shut(b, event) {
      forall steps ensures AppliedTimes(Run(b, steps), event) == AppliedTimes(b, event) {
        ShutStaysShut(b, steps, event);
      }
    } else {
      var steps := OpenCanBeApplied(b, event);
      assert AppliedTimes(Run(b, steps), event) != AppliedTimes(b, event);
    }
  }

  /**
   * An event is lost for good, its effects never brought about, exactly when it is
   * RECEIVED, not yet applied, and its handler has stopped. A handler that stops
   * after applying loses nothing but the mark.
   */
  lemma {:induction false} LostExactlyWhenStoppedBeforeApplying(b: Inbox, event: string)
    requires Ok(b)
    ensures NeverAppliedAgain(b, event) && AppliedTimes(b, event) == 0
       <==> event in b.events && b.events[event] == Received && !Handled(b, event) && AppliedTimes(b, event) == 0
  {
    NeverAppliedAgainExactlyWhenShut(b, event);
  }

  /** The two stops, from an empty inbox: before applying the event is lost, after applying it is not. */
  lemma {:induction false} TheTwoStops(event: string)
    ensures var lost := Run(EMPTY, [Deliver(0, event), Stop(0)]);
      NeverAppliedAgain(lost, event) && AppliedTimes(lost, event) == 0
    ensures var kept := Run(EMPTY, [Deliver(0, event), Apply(0), Stop(0)]);
      NeverAppliedAgain(kept, event) && AppliedTimes(kept, event) == 1
  {
    var early, late := [Deliver(0, event), Stop(0)], [Deliver(0, event), Apply(0), Stop(0)];
    OneStep(EMPTY, Deliver(0, event));
    assert early == [Deliver(0, event)] + [Stop(0)] && late == [Deliver(0, event)] + [Apply(0)] + [Stop(0)];
    MoreSteps(EMPTY, [Deliver(0, event)], Stop(0));
    MoreSteps(EMPTY, [Deliver(0, event)], Apply(0));
    MoreSteps(EMPTY, [Deliver(0, event)] + [Apply(0)], Stop(0));
    RunKeepsOk(EMPTY, early);
    RunKeepsOk(EMPTY, late);
    NeverAppliedAgainExactlyWhenShut(Run(EMPTY, early), event);
    NeverAppliedAgainExactlyWhenShut(Run(EMPTY, late), event);
  }
}
