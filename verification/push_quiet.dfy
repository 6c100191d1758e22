/**
  A child command that no abort reaches (`runRawPushCommand` in
  scripts/push-targets.mjs): when it resolves, told from the order in which its
  events are delivered. A tick that cannot happen when its turn comes is lost.
 */
module PushQuiet {
  import opened Options
  import opened PushCommand

  datatype Tick = AbortTick | ErrorTick | CloseTick(code: int) | CancelTick | ResumeTick | PathsTick

  // ---------- What the ticks tell ----------

  predicate Closes(ticks: seq<Tick>) {
    exists i :: 0 <= i < |ticks| && ticks[i].CloseTick?
  }

  /** The child closes, and when it does its exit code is 0. */
  predicate ClosesWell(ticks: seq<Tick>) {
    exists i :: 0 <= i < |ticks| && ticks[i] == CloseTick(0) && !Closes(ticks[..i])
  }

  /** The close handler goes on after the close. */
  predicate Resumes(ticks: seq<Tick>) {
    exists i :: 0 <= i < |ticks| && ticks[i] == ResumeTick && Closes(ticks[..i])
  }

  /** The tick that decides: the handler goes on, and unless the command is quiet its output is written too. */
  predicate Decides(quiet: bool, before: seq<Tick>, tick: Tick) {
    if quiet then tick == ResumeTick && Closes(before) else tick == PathsTick && Resumes(before)
  }

  predicate Decided(quiet: bool, ticks: seq<Tick>) {
    exists d :: 0 <= d < |ticks| && Decides(quiet, ticks[..d], ticks[d])
  }

  predicate DecidedCleanly(quiet: bool, ticks: seq<Tick>) {
    exists d :: 0 <= d < |ticks| && Decides(quiet, ticks[..d], ticks[d]) && ErrorTick !in ticks[..d]
  }

  /** Left alone, the command resolves: exit code 0, and a decision that no error comes before. */
  predicate ResolvesBy(quiet: bool, ticks: seq<Tick>) {
    ClosesWell(ticks) && DecidedCleanly(quiet, ticks)
  }

  // ---------- What the handlers do ----------

  /** A tick without an abort: the event, when it can happen. */
  function QuietTick(s: State, tick: Tick): State {
    match tick
    case AbortTick => s
    case CancelTick => s
    case ErrorTick => QuietStep(s, Error)
    case CloseTick(code) => QuietStep(s, Close(code))
    case ResumeTick => QuietStep(s, Resume)
    case PathsTick => QuietStep(s, PathsDone)
  }

  function QuietStep(s: State, e: Event): State {
    if Enabled(s, e) then Step(s, e) else s
  }

  function Quietly(s: State, ticks: seq<Tick>): State {
    if ticks == [] then s else QuietTick(Quietly(s, ticks[..|ticks| - 1]), ticks[|ticks| - 1])
  }

  // ---------- Both agree ----------

  lemma PrefixesOfMore(ticks: seq<Tick>, tick: Tick)
    ensures var more := ticks + [tick];
      && more[|ticks|] == tick && more[..|ticks|] == ticks
      && forall i :: 0 <= i < |ticks| ==> more[i] == ticks[i] && more[..i] == ticks[..i]
  {}

  lemma ClosesMore(ticks: seq<Tick>, tick: Tick)
    ensures Closes(ticks + [tick]) <==> Closes(ticks) || tick.CloseTick?
  {
    PrefixesOfMore(ticks, tick);
    if Closes(ticks) {
      var i :| 0 <= i < |ticks| && ticks[i].CloseTick?;
      assert (ticks + [tick])[i].CloseTick?;
    }
  }

  lemma ClosesWellMore(ticks: seq<Tick>, tick: Tick)
    ensures ClosesWell(ticks + [tick]) <==> ClosesWell(ticks) || (tick == CloseTick(0) && !Closes(ticks))
  {
    var more := ticks + [tick];
    PrefixesOfMore(ticks, tick);
    if ClosesWell(ticks) {
      var i :| 0 <= i < |ticks| && ticks[i] == CloseTick(0) && !Closes(ticks[..i]);
      assert more[i] == CloseTick(0) && !Closes(more[..i]);
    }
  }

  lemma ResumesMore(ticks: seq<Tick>, tick: Tick)
    ensures Resumes(ticks + [tick]) <==> Resumes(ticks) || (tick == ResumeTick && Closes(ticks))
  {
    var more := ticks + [tick];
    PrefixesOfMore(ticks, tick);
    if Resumes(ticks) {
      var i :| 0 <= i < |ticks| && ticks[i] == ResumeTick && Closes(ticks[..i]);
      assert more[i] == ResumeTick && Closes(more[..i]);
    }
  }

  lemma DecidedMore(quiet: bool, ticks: seq<Tick>, tick: Tick)
    ensures Decided(quiet, ticks + [tick]) <==> Decided(quiet, ticks) || Decides(quiet, ticks, tick)
  {
    var more := ticks + [tick];
    PrefixesOfMore(ticks, tick);
    if Decided(quiet, ticks) {
      var d :| 0 <= d < |ticks| && Decides(quiet, ticks[..d], ticks[d]);
      assert Decides(quiet, more[..d], more[d]);
    }
  }

  lemma DecidedCleanlyMore(quiet: bool, ticks: seq<Tick>, tick: Tick)
    ensures DecidedCleanly(quiet, ticks + [tick]) <==>
      DecidedCleanly(quiet, ticks) || (Decides(quiet, ticks, tick) && ErrorTick !in ticks)
  {
    var more := ticks + [tick];
    PrefixesOfMore(ticks, tick);
    if DecidedCleanly(quiet, ticks) {
      var d :| 0 <= d < |ticks| && Decides(quiet, ticks[..d], ticks[d]) && ErrorTick !in ticks[..d];
      assert Decides(quiet, more[..d], more[d]) && ErrorTick !in more[..d];
    }
  }

  function SettledBy(quiet: bool, ticks: seq<Tick>): Option<Settlement> {
    if DecidedCleanly(quiet, ticks) then Some(if ClosesWell(ticks) then Resolved else GateFailed)
    else if ErrorTick in ticks then Some(ChildError)
    else None
  }

  predicate QuietTells(s: State, quiet: bool, ticks: seq<Tick>) {
    && s.quiet == quiet && !s.aborted && !s.cancelling && s.cancelled.None?
    && (s.errored <==> ErrorTick in ticks)
    && (s.stage.Open? <==> !Closes(ticks)) && (s.stage.Waiting? <==> Closes(ticks) && !Resumes(ticks))
    && (s.stage.Finished? <==> Decided(quiet, ticks)) && (Resumes(ticks) ==> Closes(ticks))
    && (!s.stage.Open? ==> (s.stage.code == 0 <==> ClosesWell(ticks))) && (ClosesWell(ticks) ==> Closes(ticks))
    && (quiet ==> (Decided(quiet, ticks) <==> Resumes(ticks)))
    && (Decided(quiet, ticks) ==> Resumes(ticks))
    && (Decided(quiet, ticks) ==> DecidedCleanly(quiet, ticks) || ErrorTick in ticks)
    && s.settled == SettledBy(quiet, ticks)
  }

  lemma TickTells(s: State, quiet: bool, ticks: seq<Tick>, tick: Tick)
    requires QuietTells(s, quiet, ticks)
    ensures QuietTells(QuietTick(s, tick), quiet, ticks + [tick])
  {
    ClosesMore(ticks, tick);
    ClosesWellMore(ticks, tick);
    ResumesMore(ticks, tick);
    DecidedMore(quiet, ticks, tick);
    DecidedCleanlyMore(quiet, ticks, tick);
  }

  lemma {:induction false} QuietlyTells(quiet: bool, ticks: seq<Tick>)
    ensures QuietTells(Quietly(Started(quiet), ticks), quiet, ticks)
  {
    if ticks != [] {
      var before, tick := ticks[..|ticks| - 1], ticks[|ticks| - 1];
      assert ticks == before + [tick];
      QuietlyTells(quiet, before);
      TickTells(Quietly(Started(quiet), before), quiet, before, tick);
    }
  }

  /** A command that no abort reaches resolves exactly when its ticks say so. */
  lemma QuietlyResolves(quiet: bool, ticks: seq<Tick>)
    ensures Quietly(Started(quiet), ticks).settled == Some(Resolved) <==> ResolvesBy(quiet, ticks)
  {
    QuietlyTells(quiet, ticks);
  }
}
