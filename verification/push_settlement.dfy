/**
  How a child command settles, told from the order of its events alone
  (`runRawPushCommand` in scripts/push-targets.mjs).
 */
module PushSettlement {
  import opened Options
  import opened PushCommand

  predicate Closed(events: seq<Event>) {
    exists i :: 0 <= i < |events| && events[i].Close?
  }

  /** An abort came before any error and before the close. */
  predicate Cancels(events: seq<Event>) {
    exists i :: 0 <= i < |events| && events[i] == Abort && Error !in events[..i] && !Closed(events[..i])
  }

  predicate CancelOver(events: seq<Event>) {
    CancelDone(true) in events || CancelDone(false) in events
  }

  /** The event that decides a command that is not cancelled: a noisy one has its output to write first. */
  function Deciding(quiet: bool): Event {
    if quiet then Resume else PathsDone
  }

  predicate Precedes(events: seq<Event>, a: Event, b: Event) {
    exists i :: 0 <= i < |events| && events[i] == a && b !in events[..i]
  }

  /** What can be delivered after these events. */
  predicate Fits(quiet: bool, before: seq<Event>, e: Event) {
    match e
    case Abort => Abort !in before
    case Error => Error !in before
    case CancelDone(_) => Cancels(before) && !CancelOver(before)
    case Close(_) => !Closed(before)
    case Resume => Closed(before) && Resume !in before && (Cancels(before) ==> CancelOver(before))
    case PathsDone => !quiet && Resume in before && PathsDone !in before && CancelDone(false) !in before
  }

  predicate Orderly(quiet: bool, events: seq<Event>) {
    forall k :: 0 <= k < |events| ==> Fits(quiet, events[..k], events[k])
  }

  /**
    The end of a command: a cancellation decides it alone; otherwise an error
    before the decision does, then an abort before it, then the exit code.
   */
  function Verdict(quiet: bool, events: seq<Event>): Option<Settlement> {
    if Cancels(events) then
      if CancelDone(true) in events then Some(Interrupted)
      else if CancelDone(false) in events then Some(Unconfirmed)
      else None
    else if Precedes(events, Error, Deciding(quiet)) then Some(ChildError)
    else if Deciding(quiet) !in events then None
    else if Precedes(events, Abort, Deciding(quiet)) then Some(Interrupted)
    else if Close(0) in events then Some(Resolved)
    else Some(GateFailed)
  }

  // ---------- One more event ----------

  lemma CancelsMore(events: seq<Event>, e: Event)
    ensures Cancels(events + [e]) <==> Cancels(events) || (e == Abort && Error !in events && !Closed(events))
    ensures Closed(events + [e]) <==> Closed(events) || e.Close?
  {
    var more := events + [e];
    forall i | 0 <= i <= |events| ensures more[..i] == events[..i] {}
    assert events[..|events|] == events;
    assert more[|events|] == e;
    forall i | 0 <= i < |events| ensures more[i] == events[i] {}
  }

  lemma PrecedesMore(events: seq<Event>, e: Event, a: Event, b: Event)
    ensures Precedes(events + [e], a, b) <==> Precedes(events, a, b) || (e == a && b !in events)
  {
    var more, n := events + [e], |events|;
    assert more[..n] == events;
    if Precedes(more, a, b) {
      var i :| 0 <= i < |more| && more[i] == a && b !in more[..i];
      assert i < n ==> events[i] == more[i] && events[..i] == more[..i];
    }
    if Precedes(events, a, b) {
      var i :| 0 <= i < n && events[i] == a && b !in events[..i];
      assert more[i] == events[i] && more[..i] == events[..i];
    }
    if e == a && b !in events {
      assert more[n] == a;
    }
  }

  lemma OrderlyMore(quiet: bool, events: seq<Event>, e: Event)
    ensures Orderly(quiet, events + [e]) <==> Orderly(quiet, events) && Fits(quiet, events, e)
  {
    var more := events + [e];
    forall k | 0 <= k <= |events| ensures more[..k] == events[..k] {}
    assert events[..|events|] == events;
    assert more[|events|] == e;
    forall k | 0 <= k < |events| ensures more[k] == events[k] {}
  }

  /** The state of the handlers is what the events tell. */
  ghost predicate Tells(s: State, quiet: bool, events: seq<Event>) {
    && s.quiet == quiet && (s.aborted <==> Abort in events) && (s.errored <==> Error in events)
    && (s.listening <==> Abort !in events && Error !in events && !Closed(events))
    && (s.cancelling <==> Cancels(events))
    && (s.cancelled == Some(true) <==> CancelDone(true) in events)
    && (s.cancelled == Some(false) <==> CancelDone(false) in events)
    && TellsStage(s.stage, quiet, events)
  }

  ghost predicate TellsStage(stage: Stage, quiet: bool, events: seq<Event>) {
    && (stage.Open? <==> !Closed(events)) && (stage.Waiting? <==> Closed(events) && Resume !in events)
    && (stage.Relating? <==>
          !quiet && Resume in events && PathsDone !in events && CancelDone(false) !in events)
    && (!stage.Open? ==> forall c :: Close(c) in events <==> c == stage.code)
    && (Resume in events ==> Closed(events)) && (PathsDone in events ==> Resume in events)
  }

  lemma {:induction false} StateTells(quiet: bool, events: seq<Event>)
    ensures CanRun(Started(quiet), events) <==> Orderly(quiet, events)
    ensures CanRun(Started(quiet), events) ==> Tells(Run(Started(quiet), events), quiet, events)
  {
    if events != [] {
      var before, e := events[..|events| - 1], events[|events| - 1];
      assert events == before + [e];
      StateTells(quiet, before);
      OrderlyMore(quiet, before, e);
      if CanRun(Started(quiet), before) {
        var s := Run(Started(quiet), before);
        RunKeepsInv(quiet, before);
        FitsExactly(s, quiet, before, e);
        if Enabled(s, e) {
          StepTells(s, quiet, before, e);
        }
      }
    }
  }

  lemma FitsExactly(s: State, quiet: bool, events: seq<Event>, e: Event)
    requires Tells(s, quiet, events)
    ensures Enabled(s, e) <==> Fits(quiet, events, e)
  {
    OverWhenCancelled(s, quiet, events);
  }

  lemma OverWhenCancelled(s: State, quiet: bool, events: seq<Event>)
    requires Tells(s, quiet, events)
    ensures s.cancelled.Some? <==> CancelOver(events)
  {
    if s.cancelled.Some? {
      assert s.cancelled == if s.cancelled.value then Some(true) else Some(false);
    }
  }

  lemma StepTells(s: State, quiet: bool, events: seq<Event>, e: Event)
    requires Tells(s, quiet, events) && Inv(s) && Enabled(s, e)
    ensures Tells(Step(s, e), quiet, events + [e])
  {
    CancelsMore(events, e);
  }

  lemma NothingSettles(quiet: bool)
    ensures Started(quiet).settled == Verdict(quiet, [])
  {}

  lemma {:induction false} RunSettles(quiet: bool, events: seq<Event>)
    requires CanRun(Started(quiet), events)
    ensures Run(Started(quiet), events).settled == Verdict(quiet, events)
  {
    if events == [] {
      NothingSettles(quiet);
    } else {
      var before, e := events[..|events| - 1], events[|events| - 1];
      assert events == before + [e];
      StateTells(quiet, before);
      RunSettles(quiet, before);
      RunKeepsInv(quiet, before);
      StepSettles(Run(Started(quiet), before), quiet, before, e);
    }
  }

  /** Every order of events that the runtime can deliver is one the handlers take, and it settles as told. */
  lemma SettlementIs(quiet: bool, events: seq<Event>)
    ensures CanRun(Started(quiet), events) <==> Orderly(quiet, events)
    ensures CanRun(Started(quiet), events) ==> Run(Started(quiet), events).settled == Verdict(quiet, events)
  {
    StateTells(quiet, events);
    if CanRun(Started(quiet), events) {
      RunSettles(quiet, events);
    }
  }

  lemma StepSettles(s: State, quiet: bool, events: seq<Event>, e: Event)
    requires Tells(s, quiet, events) && Inv(s) && Enabled(s, e) && s.settled == Verdict(quiet, events)
    ensures Step(s, e).settled == Verdict(quiet, events + [e])
  {
    CancelsMore(events, e);
    PrecedesMore(events, e, Error, Deciding(quiet));
    PrecedesMore(events, e, Abort, Deciding(quiet));
    OverWhenCancelled(s, quiet, events);
  }

  /** Left alone, a command settles by the exit code of its child. */
  lemma UninterruptedSettles(quiet: bool, code: int)
    ensures var events := [Close(code), Resume] + (if quiet then [] else [PathsDone]);
      && CanRun(Started(quiet), events)
      && Run(Started(quiet), events).settled == Some(if code == 0 then Resolved else GateFailed)
  {
    var closed, resumed := [Close(code)], [Close(code), Resume];
    OrderlyMore(quiet, [], Close(code));
    OrderlyMore(quiet, closed, Resume);
    assert [] + [Close(code)] == closed && closed + [Resume] == resumed;
    assert closed[0].Close? && resumed[0] == Close(code) && resumed[1] == Resume;
    var events := if quiet then resumed else resumed + [PathsDone];
    if !quiet {
      OrderlyMore(quiet, resumed, PathsDone);
    }
    assert events == resumed + (if quiet then [] else [PathsDone]);
    SettlementIs(quiet, events);
    assert events[|events| - 1] == Deciding(quiet) && events[0] == Close(code);
  }

  /** With no abort and no error, a command settles at its decision, by the exit code of its child. */
  lemma UndisturbedSettles(quiet: bool, events: seq<Event>)
    requires CanRun(Started(quiet), events) && Abort !in events && Error !in events
    ensures var settled := Run(Started(quiet), events).settled;
      && (settled.Some? <==> (if quiet then Resume in events else PathsDone in events))
      && (settled.Some? ==> settled == Some(if Close(0) in events then Resolved else GateFailed))
  {
    SettlementIs(quiet, events);
  }
}
