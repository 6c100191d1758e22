/**
  Ownership of an isolated checkout (`withPushCheckout` in
  scripts/push-targets.mjs). An interrupt can arrive during any `await` while the
  signal handlers are on; the code in between runs to completion. The commands it
  runs are those of `PushCommand`, and an aborted one is cancelled by
  `ProcessStop.StopPushProcessTree`.
 */
module PushCheckout {
  import opened Options
  import ProcessOs
  import ProcessStop
  import PushCommand
  import opened PushQuiet

  /** How a command or a callback ends; `Unconfirmed` is the error that says processes may be left. */
  datatype Ending = Done | Failed | Unconfirmed

  /** One child command: its process, the system it lives in, and the order in which its events are delivered. */
  datatype Child = Child(pid: int, os: ProcessOs.Os, quiet: bool, ticks: seq<Tick>)

  predicate Usable(child: Child) {
    child.pid > 0 ==> ProcessOs.ValidOs(child.os, child.pid)
  }

  /** A cancellation that ended, and the system it left behind. */
  datatype Cancellation = Cancellation(root: nat, confirmed: bool, frozen: Option<ProcessOs.Os>, os: ProcessOs.Os)

  /** A confirmed cancellation: the tree it froze is dead and left no live child. */
  ghost predicate Dead(c: Cancellation) {
    c.confirmed ==>
      && c.frozen.Some? && ProcessStop.TreeStopped(c.frozen.value, c.root)
      && ProcessStop.TreeIsDead(c.os, c.frozen.value, c.root)
      && ProcessStop.TreeLeftNothing(c.os, c.frozen.value, c.root)
  }

  ghost predicate AllDead(cs: seq<Cancellation>) {
    forall i :: 0 <= i < |cs| ==> Dead(cs[i])
  }

  predicate AllConfirmed(cs: seq<Cancellation>) {
    forall i :: 0 <= i < |cs| ==> cs[i].confirmed
  }

  /** The answers of everything that is awaited, in the order of the source; `callback` lists the commands it runs. */
  datatype Script = Script(currentAudit: bool, tempOk: bool, addOk: bool, freshAudit: bool, install: Child,
                           installedAudit: bool, callback: seq<Child>, callbackOk: bool, finalAudit: bool,
                           forgetOk: bool, removeOk: bool)

  // ---------- What happens without an interrupt ----------

  /** Left alone, the command resolves. */
  predicate Resolves(child: Child) {
    ResolvesBy(child.quiet, child.ticks)
  }

  predicate CallbackResolves(script: Script) {
    (forall i :: 0 <= i < |script.callback| ==> Resolves(script.callback[i])) && script.callbackOk
  }

  predicate Prepares(script: Script) {
    script.tempOk && script.addOk && script.freshAudit && Resolves(script.install) && script.installedAudit
  }

  /** The caller's own checkout is the one to validate. */
  predicate Reuses(script: Script, wantsCurrent: bool) {
    wantsCurrent && script.currentAudit
  }

  /** Left alone, everything up to the last audit goes well. */
  predicate Passes(script: Script, wantsCurrent: bool) {
    (Reuses(script, wantsCurrent) || Prepares(script)) && CallbackResolves(script) && script.finalAudit
  }

  predicate Runnable(script: Script) {
    Usable(script.install) && forall i :: 0 <= i < |script.callback| ==> Usable(script.callback[i])
  }

  datatype Effect =
    | Created(dir: string)
    | Audited(dir: string, ok: bool)
    | Called(dir: string)
    | LeftUnconfirmed
    | WorktreeRemoved(dir: string)
    | Removed(dir: string)

  const TREE := "/tree"

  /** The process: which awaits an interrupt falls into, and what has happened so far. */
  class Process {
    const interruptAt: nat -> bool
    var awaits: nat
    var listening: bool
    var aborted: bool
    var log: seq<Effect>
    ghost var cancellations: seq<Cancellation>

    /**
      The abort flag is exactly "an interrupt has arrived while listening". A
      cancelled command means an abort, and a confirmed one left a dead tree.
     */
    ghost predicate Valid()
      reads this
    {
      && (listening ==> (aborted <==> Interrupted(interruptAt, awaits)))
      && (cancellations != [] ==> aborted) && AllDead(cancellations)
    }

    constructor (interruptAt: nat -> bool)
      ensures Valid() && this.interruptAt == interruptAt
      ensures awaits == 0 && !listening && !aborted && log == [] && cancellations == []
    {
      this.interruptAt, cancellations := interruptAt, [];
      awaits, listening, aborted, log := 0, false, false, [];
    }

    method Await()
      requires Valid()
      modifies this`awaits, this`aborted
      ensures Valid() && awaits == old(awaits) + 1 && (!listening ==> aborted == old(aborted))
    {
      if listening && interruptAt(awaits) { aborted := true; }
      awaits := awaits + 1;
    }

    method Note(effect: Effect)
      modifies this`log
      ensures log == old(log) + [effect]
    {
      log := log + [effect];
    }

    method Audit(dir: string, ok: bool)
      requires Valid()
      modifies this`awaits, this`aborted, this`log
      ensures Valid() && awaits == old(awaits) + 1 && log == old(log) + [Audited(dir, ok)]
      ensures !listening ==> aborted == old(aborted)
    {
      Await();
      Note(Audited(dir, ok));
    }
  }

  ghost predicate Interrupted(interruptAt: nat -> bool, until: nat) {
    exists n :: 0 <= n < until && interruptAt(n)
  }

  predicate Removes(log: seq<Effect>) {
    exists i :: 0 <= i < |log| && (log[i].Removed? || log[i].WorktreeRemoved?)
  }

  predicate Unsettled(log: seq<Effect>) {
    LeftUnconfirmed in log
  }

  /** A true audit of the checkout comes after the callback ran in it. */
  predicate AuditedLast(log: seq<Effect>) {
    |log| >= 2 && log[|log| - 1].Audited? && log[|log| - 1].ok && log[|log| - 2] == Called(log[|log| - 1].dir)
  }

  predicate AuditedIn(log: seq<Effect>, dir: string) {
    AuditedLast(log) && log[|log| - 1].dir == dir
  }

  /** A log before the decision: nothing removed, and it tells what is owned and whether processes may be left. */
  predicate Undecided(log: seq<Effect>, temp: string, owned: bool, unsettled: bool) {
    !Removes(log) && (Created(temp) in log <==> owned) && (Unsettled(log) <==> unsettled)
  }

  lemma LogGrows(log: seq<Effect>, e: Effect, temp: string, owned: bool, unsettled: bool)
    requires Undecided(log, temp, owned, unsettled) && !e.Removed? && !e.WorktreeRemoved?
    requires e.Created? ==> e.dir == temp
    ensures Undecided(log + [e], temp, owned || e.Created?, unsettled || e == LeftUnconfirmed)
  {
    var more := log + [e];
    assert forall i :: 0 <= i < |log| ==> more[i] == log[i];
    assert more[|log|] == e;
  }

  // ---------- Commands ----------

  function EndingOf(settled: PushCommand.Settlement): Ending {
    match settled
    case Resolved => Done
    case Unconfirmed => Ending.Unconfirmed
    case _ => Failed
  }

  /** A command is over: it ended unconfirmed exactly when its cancellation did. */
  ghost predicate Ended(before: seq<Cancellation>, after: seq<Cancellation>, ending: Ending) {
    if after == before then ending != Unconfirmed
    else
      && |after| == |before| + 1 && after[..|before|] == before
      && ending == if after[|before|].confirmed then Failed else Unconfirmed
  }

  /** `runPushCommand`: an abort before it starts refuses it; after that its events decide. */
  method RunCommand(p: Process, child: Child) returns (ending: Ending)
    requires p.Valid() && p.listening && Usable(child)
    modifies p`awaits, p`aborted, p`cancellations
    ensures p.Valid() && Ended(old(p.cancellations), p.cancellations, ending) && (old(p.aborted) ==> p.aborted)
    ensures !p.aborted ==> (ending == Done <==> Resolves(child))
    // After an abort no command starts; one that still runs when the abort reaches it is cancelled, and no other.
    ensures old(p.aborted) ==> ending == Failed && p.awaits == old(p.awaits) && p.cancellations == old(p.cancellations)
    ensures !old(p.aborted) ==> p.awaits == old(p.awaits) + 1
    ensures !old(p.aborted) ==>
      (p.cancellations != old(p.cancellations) <==> p.aborted && AbortedRunning(child.ticks))
  {
    if p.aborted { return Failed; }
    p.Await();
    var command := new PushCommand.Command(child.quiet);
    ghost var before := p.cancellations;
    DeliverAll(p, command, child);
    QuietlyResolves(child.quiet, child.ticks);
    PushCommand.RunKeepsInv(command.quiet, command.events);
    // What is still to come: the end of a cancellation, or an end of the child without one.
    if command.settled.None? {
      if command.cancelling { Cancel(p, command, child); } else { command.OnError(); }
    }
    PushCommand.RunKeepsInv(command.quiet, command.events);
    ending := EndingOf(command.settled.value);
  }

  /** The events of a command that has just started, in their order. */
  method DeliverAll(p: Process, command: PushCommand.Command, child: Child)
    requires p.Valid() && command.Valid() && Usable(child)
    requires command.quiet == child.quiet && command.events == []
    modifies p`cancellations, command
    ensures p.Valid() && command.Valid() && Tracked(old(p.cancellations), p.cancellations, command.View())
    ensures command.aborted ==> p.aborted
    ensures Heard(command.View(), p.aborted, child.ticks)
    ensures !p.aborted ==> command.View() == Quietly(PushCommand.Started(child.quiet), child.ticks)
  {
    for i := 0 to |child.ticks|
      invariant p.Valid() && command.Valid() && Tracked(old(p.cancellations), p.cancellations, command.View())
      invariant (command.aborted ==> p.aborted) && Heard(command.View(), p.aborted, child.ticks[..i])
      invariant !p.aborted ==> command.View() == Quietly(PushCommand.Started(child.quiet), child.ticks[..i])
    {
      ghost var s := command.View();
      Deliver(p, command, child, child.ticks[i]);
      HeardMore(s, command.View(), p.aborted, child.ticks, i);
      assert child.ticks[..i + 1][..i] == child.ticks[..i];
    }
    assert child.ticks[..|child.ticks|] == child.ticks;
  }

  /** The handler is attached until an abort, an error or the close, and an abort cancels as long as it is. */
  predicate Heard(s: PushCommand.State, aborted: bool, ticks: seq<Tick>) {
    && (s.cancelling <==> aborted && AbortedRunning(ticks))
    && (s.listening <==> !(aborted && AbortTick in ticks) && ErrorTick !in ticks && !Closes(ticks))
  }

  lemma HeardMore(s: PushCommand.State, next: PushCommand.State, aborted: bool, ticks: seq<Tick>, i: nat)
    requires i < |ticks| && Heard(s, aborted, ticks[..i])
    requires next.cancelling <==> s.cancelling || (ticks[i].AbortTick? && aborted && s.listening)
    requires next.listening <==>
      s.listening && !(ticks[i].AbortTick? && aborted) && !ticks[i].ErrorTick? && !ticks[i].CloseTick?
    ensures Heard(next, aborted, ticks[..i + 1])
  {
    OneMoreTick(ticks, i);
  }

  /** The abort comes before any error and before the close. */
  predicate AbortedRunning(ticks: seq<Tick>) {
    exists i :: 0 <= i < |ticks| && ticks[i] == AbortTick && ErrorTick !in ticks[..i] && !Closes(ticks[..i])
  }

  lemma OneMoreTick(ticks: seq<Tick>, i: nat)
    requires i < |ticks|
    ensures ticks[..i + 1] == ticks[..i] + [ticks[i]]
    ensures Closes(ticks[..i + 1]) <==> Closes(ticks[..i]) || ticks[i].CloseTick?
    ensures AbortedRunning(ticks[..i + 1]) <==>
      AbortedRunning(ticks[..i])
      || (ticks[i].AbortTick? && ErrorTick !in ticks[..i] && !Closes(ticks[..i]))
  {
    var before, more := ticks[..i], ticks[..i + 1];
    assert more == before + [ticks[i]];
    ClosesMore(before, ticks[i]);
    assert more[..i] == before;
    if AbortedRunning(before) {
      var j :| 0 <= j < i && before[j] == AbortTick && ErrorTick !in before[..j] && !Closes(before[..j]);
      assert more[j] == AbortTick && more[..j] == before[..j];
    }
    if AbortedRunning(more) {
      var j :| 0 <= j < |more| && more[j] == AbortTick && ErrorTick !in more[..j] && !Closes(more[..j]);
      if j < i {
        assert before[j] == AbortTick && more[..j] == before[..j];
      }
    }
    if ticks[i].AbortTick? && ErrorTick !in before && !Closes(before) {
      assert more[i] == AbortTick;
    }
  }

  /** The cancellations list has one more entry exactly when this command's cancellation is done. */
  ghost predicate Tracked(before: seq<Cancellation>, now: seq<Cancellation>, s: PushCommand.State) {
    if s.cancelled.None? then now == before
    else |now| == |before| + 1 && now[..|before|] == before && s.cancelled == Some(now[|before|].confirmed)
  }

  /** One event, when it can happen. */
  method Deliver(p: Process, command: PushCommand.Command, child: Child, tick: Tick)
    requires p.Valid() && command.Valid() && Usable(child) && (command.aborted ==> p.aborted)
    modifies p`cancellations, command
    ensures p.Valid() && command.Valid() && (command.aborted ==> p.aborted)
    ensures forall before :: Tracked(before, old(p.cancellations), old(command.View())) ==>
      Tracked(before, p.cancellations, command.View())
    ensures !p.aborted ==> command.View() == QuietTick(old(command.View()), tick)
    ensures command.cancelling <==> old(command.cancelling) || (tick.AbortTick? && p.aborted && old(command.listening))
    ensures command.listening <==>
      old(command.listening) && !(tick.AbortTick? && p.aborted) && !tick.ErrorTick? && !tick.CloseTick?
  {
    PushCommand.RunKeepsInv(command.quiet, command.events);
    ghost var events := command.events;
    match tick
    case AbortTick => if p.aborted && !command.aborted { command.OnAbort(); }
    case ErrorTick => if !command.errored { command.OnError(); }
    case CloseTick(code) => if command.stage.Open? { command.OnClose(code); }
    case CancelTick => if command.cancelling && command.cancelled.None? { Cancel(p, command, child); }
    case ResumeTick =>
      if command.stage.Waiting? && (command.cancelling ==> command.cancelled.Some?) { command.OnResume(); }
    case PathsTick => if command.stage.Relating? { command.OnPathsDone(); }
    if !p.aborted && |command.events| == |events| + 1 {
      PushCommand.OneMoreEvent(PushCommand.Started(command.quiet), events, command.events[|events|]);
    }
  }

  /** The cancellation of a command runs to its end and settles it. */
  method Cancel(p: Process, command: PushCommand.Command, child: Child)
    requires p.Valid() && p.aborted && command.Valid() && Usable(child)
    requires command.cancelling && command.cancelled.None?
    modifies p`cancellations, command
    ensures p.Valid() && command.Valid() && command.settled.Some? && (command.aborted ==> p.aborted)
    ensures |p.cancellations| == |old(p.cancellations)| + 1
    ensures p.cancellations[..|old(p.cancellations)|] == old(p.cancellations)
    ensures command.cancelled == Some(p.cancellations[|old(p.cancellations)|].confirmed)
    ensures command.cancelling && command.listening == old(command.listening)
  {
    var confirmed := false;
    ghost var done := Cancellation(0, false, None, child.os);
    if child.pid > 0 {
      var system := new ProcessStop.System(child.pid, child.os);
      ghost var frozen;
      confirmed, frozen := ProcessStop.StopPushProcessTree(system, child.pid);
      done := Cancellation(child.pid, confirmed, frozen, system.os);
    }
    p.cancellations := p.cancellations + [done];
    command.OnCancelDone(confirmed);
  }

  // ---------- The checkout ----------

  /** An isolated checkout with its dependencies: `error` is what the source throws on the way. */
  method Prepare(p: Process, temp: string, script: Script)
    returns (error: Option<Ending>, owned: bool, registered: bool)
    requires p.Valid() && p.listening && Undecided(p.log, temp, false, false)
    requires Runnable(script) && AllConfirmed(p.cancellations)
    modifies p`awaits, p`aborted, p`log, p`cancellations
    ensures p.Valid() && Undecided(p.log, temp, owned, error == Some(Unconfirmed))
    ensures AllConfirmed(p.cancellations) <==> error != Some(Unconfirmed)
    ensures (registered ==> owned) && (error.None? ==> owned) && error != Some(Done)
    ensures owned == script.tempOk && registered == (script.tempOk && script.addOk) && (old(p.aborted) ==> p.aborted)
    ensures !p.aborted ==> (error.None? <==> Prepares(script))
    ensures error.None? ==> p.log == old(p.log) + Prepared(temp)
  {
    error, owned, registered := Some(Failed), false, false;
    p.Await();
    if !script.tempOk { return; }
    owned := true;
    LogGrows(p.log, Created(temp), temp, false, false);
    p.Note(Created(temp));
    p.Await();
    if !script.addOk { return; }
    registered := true;
    LogGrows(p.log, Audited(temp + TREE, script.freshAudit), temp, true, false);
    p.Audit(temp + TREE, script.freshAudit);
    if !script.freshAudit { return; }
    ghost var cancelled := p.cancellations;
    var install := RunCommand(p, script.install);
    EndedConfirmed(cancelled, p.cancellations, install);
    if install == Unconfirmed {
      LogGrows(p.log, LeftUnconfirmed, temp, true, false);
      p.Note(LeftUnconfirmed);
      return Some(Unconfirmed), owned, registered;
    }
    if install != Done { return; }
    LogGrows(p.log, Audited(temp + TREE, script.installedAudit), temp, true, false);
    p.Audit(temp + TREE, script.installedAudit);
    if script.installedAudit { error := None; }
  }

  /** The callback runs its commands one after the other; the first that does not resolve ends it. */
  method RunCallback(p: Process, script: Script) returns (ending: Ending)
    requires p.Valid() && p.listening && Runnable(script) && AllConfirmed(p.cancellations)
    modifies p`awaits, p`aborted, p`cancellations
    ensures p.Valid() && (AllConfirmed(p.cancellations) <==> ending != Unconfirmed) && (old(p.aborted) ==> p.aborted)
    ensures !p.aborted ==> (ending == Done <==> CallbackResolves(script))
  {
    p.Await();
    for i := 0 to |script.callback|
      invariant p.Valid() && AllConfirmed(p.cancellations) && (old(p.aborted) ==> p.aborted)
      invariant !p.aborted ==> forall j :: 0 <= j < i ==> Resolves(script.callback[j])
    {
      ghost var before := p.cancellations;
      ending := RunCommand(p, script.callback[i]);
      EndedConfirmed(before, p.cancellations, ending);
      if ending != Done { return; }
    }
    ending := if script.callbackOk then Done else Failed;
  }

  lemma EndedConfirmed(before: seq<Cancellation>, after: seq<Cancellation>, ending: Ending)
    requires AllConfirmed(before) && Ended(before, after, ending)
    ensures AllConfirmed(after) <==> ending != Unconfirmed
  {
    if after != before {
      forall i | 0 <= i < |before| ensures after[i].confirmed {
        assert after[..|before|][i] == before[i];
      }
    }
  }

  /** The callback between two looks at the abort flag, then the byte audit and a last look. */
  method Validate(p: Process, checkout: string, temp: string, owned: bool,
                  script: Script) returns (error: Option<Ending>)
    requires p.Valid() && p.listening && Undecided(p.log, temp, owned, false)
    requires Runnable(script) && AllConfirmed(p.cancellations)
    modifies p`awaits, p`aborted, p`log, p`cancellations
    ensures p.Valid() && Undecided(p.log, temp, owned, error == Some(Unconfirmed)) && error != Some(Done)
    ensures AllConfirmed(p.cancellations) <==> error != Some(Unconfirmed)
    ensures error.None? ==> !p.aborted && AuditedIn(p.log, checkout)
    ensures !p.aborted ==> (error.None? <==> CallbackResolves(script) && script.finalAudit)
    ensures error.None? ==> p.log == old(p.log) + [Called(checkout), Audited(checkout, true)]
    // After an interrupt neither is the callback called nor, after it, the checkout audited.
    ensures old(p.aborted) ==> p.aborted && p.log == old(p.log) && p.awaits == old(p.awaits)
    ensures !old(p.aborted) ==> old(p.log) + [Called(checkout)] <= p.log
    ensures p.log == old(p.log) + [Called(checkout), Audited(checkout, script.finalAudit)] ==>
      p.awaits > 0 && !Interrupted(p.interruptAt, p.awaits - 1)
  {
    error := Some(Failed);
    if p.aborted { return; }
    LogGrows(p.log, Called(checkout), temp, owned, false);
    p.Note(Called(checkout));
    var ending := RunCallback(p, script);
    if ending == Unconfirmed {
      LogGrows(p.log, LeftUnconfirmed, temp, owned, false);
      p.Note(LeftUnconfirmed);
      return Some(Unconfirmed);
    }
    if ending != Done || p.aborted { return; }
    LogGrows(p.log, Audited(checkout, script.finalAudit), temp, owned, false);
    p.Audit(checkout, script.finalAudit);
    if script.finalAudit && !p.aborted { error := None; }
  }

  /** An isolated checkout: its bytes are audited before and after its dependencies are installed. */
  function Prepared(temp: string): seq<Effect> {
    [Created(temp), Audited(temp + "/tree", true), Audited(temp + "/tree", true)]
  }

  /** What a validation that succeeds does before it is decided, and in which order. */
  function Course(repo: string, temp: string, wantsCurrent: bool, current: bool): seq<Effect> {
    if wantsCurrent && current then [Audited(repo, true), Called(repo), Audited(repo, true)]
    else
      (if wantsCurrent then [Audited(repo, false)] else []) + Prepared(temp)
      + [Called(temp + "/tree"), Audited(temp + "/tree", true)]
  }

  /** The body of the `try`. */
  method Attempt(p: Process, repo: string, temp: string, wantsCurrent: bool, script: Script)
    returns (error: Option<Ending>, owned: bool, registered: bool)
    requires p.Valid() && p.listening && p.log == [] && p.cancellations == [] && Runnable(script)
    modifies p`awaits, p`aborted, p`log, p`cancellations
    ensures p.Valid() && Undecided(p.log, temp, owned, error == Some(Unconfirmed))
    ensures AllConfirmed(p.cancellations) <==> error != Some(Unconfirmed)
    ensures (registered ==> owned) && error != Some(Done)
    ensures error.None? ==> !p.aborted && AuditedIn(p.log, if owned then temp + TREE else repo)
    ensures owned == (!Reuses(script, wantsCurrent) && script.tempOk) && registered == (owned && script.addOk)
    ensures !p.aborted ==> (error.None? <==> Passes(script, wantsCurrent))
    ensures error.None? ==> p.log == Course(repo, temp, wantsCurrent, script.currentAudit)
  {
    owned, registered := false, false;
    var reuse := false;
    if wantsCurrent {
      LogGrows(p.log, Audited(repo, script.currentAudit), temp, false, false);
      p.Audit(repo, script.currentAudit);
      reuse := script.currentAudit;
    }
    if !reuse {
      error, owned, registered := Prepare(p, temp, script);
      if error.Some? { return; }
    }
    var checkout := if owned then temp + TREE else repo;
    error := Validate(p, checkout, temp, owned, script);
  }

  /** Only the owned directory is ever removed, and its worktree first when it was registered. */
  predicate RemovesOnly(log: seq<Effect>, start: nat, temp: string) {
    forall i :: 0 <= i < |log| && (log[i].Removed? || log[i].WorktreeRemoved?) ==>
      i >= start && (if log[i].Removed? then log[i].dir == temp else log[i].dir == temp + TREE)
  }

  /**
    `returned` is a normal return. `off` counts the awaits before the handlers
    came off and `settled` the effects; both are where the decision falls.
   */
  method WithPushCheckout(p: Process, repo: string, temp: string, wantsCurrent: bool, script: Script)
    returns (returned: bool, ghost off: nat, ghost settled: nat)
    requires p.Valid() && p.awaits == 0 && !p.listening && !p.aborted && p.log == [] && p.cancellations == []
    requires Runnable(script)
    modifies p
    ensures settled <= |p.log| && !Removes(p.log[..settled]) && !p.listening
    // The handlers were on for every await but those of the removals, and the flag is what they saw.
    ensures (p.aborted <==> Interrupted(p.interruptAt, off)) && p.awaits == off + |p.log| - settled
    // What is removed is the owned directory, and only after the decision.
    ensures RemovesOnly(p.log, settled, temp)
    ensures Removes(p.log) ==> Created(temp) in p.log[..settled]
    // It is removed exactly when it exists and neither an interrupt nor an unconfirmed termination came before.
    ensures Removed(temp) in p.log <==>
      Created(temp) in p.log[..settled] && !Interrupted(p.interruptAt, off) && !Unsettled(p.log[..settled])
    // A normal return: no interrupt, and the bytes were audited after the callback.
    ensures returned ==> !Interrupted(p.interruptAt, off) && AuditedLast(p.log[..settled])
    // The directory is created, and the call returns, exactly when they should.
    ensures Created(temp) in p.log[..settled] <==> !(wantsCurrent && script.currentAudit) && script.tempOk
    ensures returned <==>
      && !Interrupted(p.interruptAt, off)
      && ((wantsCurrent && script.currentAudit)
          || (script.tempOk && script.addOk && script.freshAudit && Resolves(script.install) && script.installedAudit
              && script.forgetOk && script.removeOk))
      && (forall i :: 0 <= i < |script.callback| ==> Resolves(script.callback[i])) && script.callbackOk
      && script.finalAudit
    ensures returned ==> p.log[..settled] == Course(repo, temp, wantsCurrent, script.currentAudit)
    ensures returned && Created(temp) in p.log[..settled] ==> Removed(temp) in p.log
    // The removals are these: the worktree when it was registered, then the directory.
    ensures p.log[settled..] ==
      if Removed(temp) !in p.log then []
      else if script.addOk then [WorktreeRemoved(temp + "/tree"), Removed(temp)] else [Removed(temp)]
    // Removal means that no command was cancelled; a confirmed cancellation left a dead tree, another one its mark.
    ensures Removes(p.log) ==> p.cancellations == []
    ensures AllDead(p.cancellations) && (AllConfirmed(p.cancellations) <==> !Unsettled(p.log[..settled]))
  {
    p.listening := true;
    var error, owned, registered := Attempt(p, repo, temp, wantsCurrent, script);
    var cleanupAllowed := true;
    returned := error.None?;
    if error.Some? {
      if error.value == Unconfirmed { cleanupAllowed := false; }
      if owned && p.aborted { cleanupAllowed := false; }
    }
    p.listening := false;
    off, settled := p.awaits, |p.log|;
    ghost var decided := p.log;
    assert p.log[..settled] == decided;
    if owned && cleanupAllowed && !p.aborted {
      var removed := CleanUp(p, temp, registered, script);
      RemovalsAreOwn(decided, temp, registered);
      if !removed { returned := false; }
    } else {
      NothingRemoved(decided, temp);
    }
    assert p.log[..settled] == decided;
  }

  function Removals(temp: string, registered: bool): seq<Effect> {
    (if registered then [WorktreeRemoved(temp + TREE)] else []) + [Removed(temp)]
  }

  /** The end of the `finally`: a worktree that cannot be forgotten does not keep the directory from being removed. */
  method CleanUp(p: Process, temp: string, registered: bool, script: Script) returns (ok: bool)
    requires p.Valid() && !p.listening
    modifies p`awaits, p`aborted, p`log
    ensures p.Valid() && p.aborted == old(p.aborted) && p.log == old(p.log) + Removals(temp, registered)
    ensures p.awaits == old(p.awaits) + |Removals(temp, registered)|
    ensures ok <==> (registered ==> script.forgetOk) && script.removeOk
  {
    ok := true;
    if registered {
      p.Note(WorktreeRemoved(temp + TREE));
      p.Await();
      ok := script.forgetOk;
    }
    p.Note(Removed(temp));
    p.Await();
    ok := ok && script.removeOk;
  }

  lemma RemovalsAreOwn(log: seq<Effect>, temp: string, registered: bool)
    requires !Removes(log)
    ensures var more := log + Removals(temp, registered);
      && RemovesOnly(more, |log|, temp) && Removed(temp) in more && more[..|log|] == log
      && more[|log|..] == Removals(temp, registered)
  {
    var more := log + Removals(temp, registered);
    assert more[|more| - 1] == Removed(temp);
    forall i | 0 <= i < |log| ensures !more[i].Removed? && !more[i].WorktreeRemoved? {
      assert more[i] == log[i];
    }
  }

  lemma NothingRemoved(log: seq<Effect>, temp: string)
    requires !Removes(log)
    ensures log[|log|..] == [] && RemovesOnly(log, |log|, temp) && Removed(temp) !in log
  {}
}
