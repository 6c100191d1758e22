/**
  The event handlers around one child command (`runRawPushCommand` in
  scripts/push-targets.mjs). The runtime may deliver an abort, a child error, the
  child's close and the end of a cancellation in any order.
 */
module PushCommand {
  import opened Options

  datatype Settlement = Resolved | Interrupted | Unconfirmed | ChildError | GateFailed

  /** Where the handler of the close event is: it waits for a cancellation, then for real paths. */
  datatype Stage = Open | Waiting(code: int) | Relating(code: int) | Finished(code: int)

  /** `cancelled` is the result of the cancellation once it is there: was termination confirmed? */
  datatype State = State(quiet: bool, aborted: bool, listening: bool, cancelling: bool, cancelled: Option<bool>,
                         errored: bool, stage: Stage, settled: Option<Settlement>)

  datatype Event = Abort | CancelDone(confirmed: bool) | Error | Close(code: int) | Resume | PathsDone

  /** A promise takes its first settlement only. */
  function Settle(s: State, outcome: Settlement): State {
    if s.settled.Some? then s else s.(settled := Some(outcome))
  }

  /** The handler has started: the child runs and the abort listener is attached. */
  function Started(quiet: bool): State {
    State(quiet, false, true, false, None, false, Open, None)
  }

  predicate Enabled(s: State, e: Event) {
    match e
    case Abort => !s.aborted
    case CancelDone(_) => s.cancelling && s.cancelled.None?
    case Error => !s.errored
    case Close(_) => s.stage.Open?
    case Resume => s.stage.Waiting? && (s.cancelling ==> s.cancelled.Some?)
    case PathsDone => s.stage.Relating?
  }

  function Decide(s: State, code: int): State {
    Settle(s.(stage := Finished(code)), if s.aborted then Interrupted else if code != 0 then GateFailed else Resolved)
  }

  function Step(s: State, e: Event): State
    requires Enabled(s, e)
  {
    match e
    case Abort =>
      if s.listening then s.(aborted := true, listening := false, cancelling := true) else s.(aborted := true)
    case CancelDone(confirmed) =>
      Settle(s.(cancelled := Some(confirmed)), if confirmed then Interrupted else Unconfirmed)
    case Error =>
      var quieted := s.(errored := true, listening := false);
      if s.cancelling then quieted else Settle(quieted, ChildError)
    case Close(code) => s.(listening := false, stage := Waiting(code))
    case Resume =>
      if s.cancelled == Some(false) then Settle(s.(stage := Finished(s.stage.code)), Unconfirmed)
      else if s.quiet then Decide(s, s.stage.code)
      else s.(stage := Relating(s.stage.code))
    case PathsDone => Decide(s, s.stage.code)
  }

  predicate CanRun(s: State, events: seq<Event>)
    decreases |events|, 0
  {
    events == [] || (CanRun(s, events[..|events| - 1]) && Enabled(Run(s, events[..|events| - 1]), events[|events| - 1]))
  }

  function Run(s: State, events: seq<Event>): State
    requires CanRun(s, events)
    decreases |events|, 1
  {
    if events == [] then s else Step(Run(s, events[..|events| - 1]), events[|events| - 1])
  }

  lemma OneMoreEvent(s: State, events: seq<Event>, e: Event)
    requires CanRun(s, events + [e])
    ensures CanRun(s, events) && Enabled(Run(s, events), e) && Run(s, events + [e]) == Step(Run(s, events), e)
  {
    assert (events + [e])[..|events|] == events;
  }

  // ---------- Every order of events ----------

  function ResultOf(cancelled: Option<bool>): Option<Settlement> {
    if cancelled.None? then None else if cancelled.value then Some(Interrupted) else Some(Unconfirmed)
  }

  /** What holds after any events. */
  predicate Inv(s: State) {
    && (s.cancelling ==> s.aborted && !s.listening)
    && (s.aborted ==> !s.listening)
    && (s.cancelled.Some? ==> s.cancelling)
    // Cancelling: nothing settles before the cancellation is done, and then its result does.
    && (s.cancelling ==> s.settled == ResultOf(s.cancelled))
    // A settled command no longer listens, so a cancellation cannot start after it.
    && (s.settled.Some? ==> !s.listening)
    && (!s.stage.Open? ==> !s.listening)
    && (s.cancelling && (s.stage.Relating? || s.stage.Finished?) ==> s.cancelled.Some?)
    && (s.stage.Finished? ==> s.settled.Some?)
    && (s.settled == Some(Resolved) ==> s.stage.Finished? && s.stage.code == 0 && !s.cancelling)
    && (s.settled == Some(Unconfirmed) ==> s.cancelled == Some(false))
    && (s.settled == Some(ChildError) ==> s.errored)
    && (s.errored ==> !s.listening && (s.cancelling || s.settled.Some?))
  }

  lemma StepKeepsInv(s: State, e: Event)
    requires Inv(s) && Enabled(s, e)
    ensures Inv(Step(s, e))
    ensures s.settled.Some? ==> Step(s, e).settled == s.settled
    ensures s.cancelling ==> Step(s, e).cancelling
  {}

  lemma {:induction false} RunKeepsInv(quiet: bool, events: seq<Event>)
    requires CanRun(Started(quiet), events)
    ensures Inv(Run(Started(quiet), events))
  {
    if events != [] {
      RunKeepsInv(quiet, events[..|events| - 1]);
      StepKeepsInv(Run(Started(quiet), events[..|events| - 1]), events[|events| - 1]);
    }
  }

  lemma {:induction false} PrefixRuns(s: State, events: seq<Event>, k: nat)
    requires CanRun(s, events) && k <= |events|
    ensures CanRun(s, events[..k])
  {
    if k < |events| {
      PrefixRuns(s, events[..|events| - 1], k);
      assert events[..|events| - 1][..k] == events[..k];
    } else {
      assert events[..k] == events;
    }
  }

  /** A command settles at most once, whatever happens later. */
  lemma {:induction false} SettlesOnce(quiet: bool, events: seq<Event>, k: nat)
    requires CanRun(Started(quiet), events) && k <= |events| && CanRun(Started(quiet), events[..k])
    requires Run(Started(quiet), events[..k]).settled.Some?
    ensures Run(Started(quiet), events).settled == Run(Started(quiet), events[..k]).settled
  {
    if k < |events| {
      var before := events[..|events| - 1];
      assert before[..k] == events[..k];
      SettlesOnce(quiet, before, k);
      RunKeepsInv(quiet, before);
      StepKeepsInv(Run(Started(quiet), before), events[|events| - 1]);
    } else {
      assert events[..k] == events;
    }
  }

  /**
    Once cancelling has started, the command is settled exactly when the
    cancellation is done, never by resolving, and as unconfirmed exactly when
    termination was.
   */
  lemma {:induction false} CancellationDecides(quiet: bool, events: seq<Event>, k: nat)
    requires CanRun(Started(quiet), events) && k <= |events| && CanRun(Started(quiet), events[..k])
    requires Run(Started(quiet), events[..k]).cancelling
    ensures var s := Run(Started(quiet), events);
      && s.cancelling && (s.settled.Some? <==> s.cancelled.Some?) && s.settled != Some(Resolved)
      && (s.settled == Some(Unconfirmed) <==> s.cancelled == Some(false))
  {
    RunKeepsInv(quiet, events);
    if k < |events| {
      var before := events[..|events| - 1];
      assert before[..k] == events[..k];
      CancellationDecides(quiet, before, k);
    } else {
      assert events[..k] == events;
    }
  }

  /** The moment of resolution: the child had closed with code 0 and no abort had been seen. */
  predicate ResolvesAt(quiet: bool, events: seq<Event>, k: nat) {
    && k < |events| && CanRun(Started(quiet), events[..k])
    && var s := Run(Started(quiet), events[..k]);
    && s.settled.None? && !s.aborted && (s.stage.Waiting? || s.stage.Relating?) && s.stage.code == 0
    && events[k] in {Resume, PathsDone}
  }

  /** A command resolves only on exit code 0 with no abort before. */
  lemma {:induction false} ResolvesOnlyCleanly(quiet: bool, events: seq<Event>)
    requires CanRun(Started(quiet), events) && Run(Started(quiet), events).settled == Some(Resolved)
    ensures exists k: nat :: ResolvesAt(quiet, events, k)
  {
    var before := events[..|events| - 1];
    RunKeepsInv(quiet, before);
    if Run(Started(quiet), before).settled.Some? {
      StepKeepsInv(Run(Started(quiet), before), events[|events| - 1]);
      ResolvesOnlyCleanly(quiet, before);
      var k: nat :| ResolvesAt(quiet, before, k);
      assert before[..k] == events[..k];
      assert ResolvesAt(quiet, events, k);
    } else {
      assert ResolvesAt(quiet, events, |events| - 1);
    }
  }

  // ---------- The handlers ----------

  /**
    What every handler promises its caller. A settlement stays. While a
    cancellation runs nothing settles, and its end settles with its result, so an
    unconfirmed termination is never masked. Only a close with code 0, without an
    abort so far, resolves.
   */
  predicate Promised(before: State, after: State) {
    && (before.settled.Some? ==> after.settled == before.settled)
    && (before.cancelling ==> after.cancelling)
    && (after.cancelling ==> after.settled == ResultOf(after.cancelled))
    && (after.settled == Some(Unconfirmed) ==> after.cancelled == Some(false))
    && (after.settled == Some(Resolved) && before.settled.None? ==> !before.aborted && after.stage == Finished(0))
  }

  /** The handlers as they are attached, with the variables they share. */
  class Command {
    const quiet: bool
    var aborted: bool
    var listening: bool
    var cancelling: bool
    var cancelled: Option<bool>
    var errored: bool
    var stage: Stage
    var settled: Option<Settlement>
    ghost var events: seq<Event>

    function View(): State
      reads this
    {
      State(quiet, aborted, listening, cancelling, cancelled, errored, stage, settled)
    }

    /** The variables are where the delivered events lead. */
    ghost predicate Valid()
      reads this
    {
      CanRun(Started(quiet), events) && View() == Run(Started(quiet), events)
    }

    constructor (quiet: bool)
      ensures Valid() && this.quiet == quiet && events == [] && settled.None? && listening && !aborted
    {
      this.quiet := quiet;
      aborted, listening, cancelling, cancelled := false, true, false, None;
      errored, stage, settled := false, Open, None;
      events := [];
    }

    method Finish(outcome: Settlement)
      modifies this`settled
      ensures settled == if old(settled).Some? then old(settled) else Some(outcome)
    {
      if settled.None? { settled := Some(outcome); }
    }

    /** The event just handled goes into the record. */
    ghost method Record(before: State, e: Event)
      requires CanRun(Started(quiet), events) && before == Run(Started(quiet), events)
      requires Enabled(before, e) && View() == Step(before, e)
      modifies this`events
      ensures Valid() && events == old(events) + [e] && Promised(before, View())
    {
      var more := events + [e];
      assert more[..|events|] == events;
      RunKeepsInv(quiet, events);
      StepKeepsInv(before, e);
      events := more;
    }

    /** An abort starts a cancellation exactly when the handler is still attached, and settles nothing. */
    method OnAbort()
      requires Valid() && !aborted
      modifies this
      ensures Valid() && events == old(events) + [Abort] && Promised(old(View()), View())
      ensures aborted && !listening && settled == old(settled)
      ensures cancelling <==> old(cancelling) || old(listening)
    {
      ghost var before := View();
      RunKeepsInv(quiet, events);
      aborted := true;
      if listening && !cancelling { cancelling := true; }
      listening := false;
      Record(before, Abort);
    }

    /** The end of the cancellation settles the command with its result. */
    method OnCancelDone(confirmed: bool)
      requires Valid() && cancelling && cancelled.None?
      modifies this
      ensures Valid() && events == old(events) + [CancelDone(confirmed)] && Promised(old(View()), View())
      ensures old(settled).None? && settled == Some(if confirmed then Interrupted else Unconfirmed)
      ensures cancelling && listening == old(listening)
    {
      ghost var before := View();
      RunKeepsInv(quiet, events);
      cancelled := Some(confirmed);
      Finish(if confirmed then Interrupted else Unconfirmed);
      Record(before, CancelDone(confirmed));
    }

    /** An error settles only a command that is not cancelling, and ends the chance to cancel. */
    method OnError()
      requires Valid() && !errored
      modifies this
      ensures Valid() && events == old(events) + [Error] && Promised(old(View()), View())
      ensures !listening && cancelling == old(cancelling) && (settled.None? ==> cancelling)
      ensures old(cancelling) ==> settled == old(settled)
    {
      ghost var before := View();
      errored := true;
      listening := false;
      if !cancelling { Finish(ChildError); }
      Record(before, Error);
    }

    /** The close settles nothing by itself, and ends the chance to cancel. */
    method OnClose(code: int)
      requires Valid() && stage.Open?
      modifies this
      ensures Valid() && events == old(events) + [Close(code)] && Promised(old(View()), View())
      ensures !listening && cancelling == old(cancelling) && settled == old(settled) && stage == Waiting(code)
    {
      ghost var before := View();
      listening := false;
      stage := Waiting(code);
      Record(before, Close(code));
    }

    /**
      After the cancellation, if there was one: a quiet command is settled now,
      another one relates its paths first.
     */
    method OnResume()
      requires Valid() && stage.Waiting? && (cancelling ==> cancelled.Some?)
      modifies this
      ensures Valid() && events == old(events) + [Resume] && Promised(old(View()), View())
      ensures quiet || cancelled == Some(false) ==> settled.Some?
      ensures settled.Some? || stage == Relating(old(stage).code)
    {
      ghost var before := View();
      RunKeepsInv(quiet, events);
      var code := stage.code;
      if cancelled == Some(false) {
        stage := Finished(code);
        Finish(Unconfirmed);
      } else if quiet {
        Decide(code);
      } else {
        stage := Relating(code);
      }
      Record(before, Resume);
    }

    /** The last part of the close handler leaves the command settled. */
    method OnPathsDone()
      requires Valid() && stage.Relating?
      modifies this
      ensures Valid() && events == old(events) + [PathsDone] && Promised(old(View()), View())
      ensures settled.Some?
    {
      ghost var before := View();
      Decide(stage.code);
      Record(before, PathsDone);
    }

    method Decide(code: int)
      modifies this`stage, this`settled
      ensures stage == Finished(code)
      ensures settled == if old(settled).Some? then old(settled)
        else Some(if aborted then Interrupted else if code != 0 then GateFailed else Resolved)
    {
      stage := Finished(code);
      if aborted { Finish(Interrupted); }
      else if code != 0 { Finish(GateFailed); }
      else { Finish(Resolved); }
    }
  }
}
