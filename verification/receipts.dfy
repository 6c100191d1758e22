/**
  Success receipts of local gate runs (scripts/gate-cache.mjs and the parts of
  scripts/run-tests.mjs that read, remove and write them). A run can be cut off
  between any two file operations.
 */
module Receipts {
  import opened Options

  datatype Kind = Test | TestDocs

  /** A fingerprint of all inputs: `key` by content, `stamp` by every observed file status. */
  datatype Snapshot = Snapshot(key: string, stamp: string)

  datatype Content = Damaged | Receipt(version: nat, kind: Kind, key: string, passedAt: int)

  type Files = map<(Kind, string), Content>

  /**
    A run that got past invalidation. `steady`: the inputs had the same key and
    stamp afterwards, and a docs checkout was still exact.
   */
  datatype Run = Run(kind: Kind, key: string, whole: bool, passed: bool, steady: bool, ended: int)

  const VERSION: nat := 1
  const MAX_AGE: int := 24 * 60 * 60 * 1000

  datatype Reason = Hit | Absent | Expired | Invalid | InputsUncertain | CiDisabled | ScopeMismatch

  datatype Decision = Decision(reused: bool, reason: Reason)

  /** `receiptDecision`; `readable` is false when reading fails for another reason than absence. */
  function ReceiptDecision(files: Files, kind: Kind, snapshot: Option<Snapshot>, now: int, ci: bool,
                           readable: bool): Decision {
    if ci then Decision(false, CiDisabled)
    else if snapshot.None? then Decision(false, InputsUncertain)
    else if (kind, snapshot.value.key) !in files then Decision(false, Absent)
    else if !readable then Decision(false, InputsUncertain)
    else
      match files[(kind, snapshot.value.key)]
      case Damaged => Decision(false, Invalid)
      case Receipt(version, of, key, passedAt) =>
        if version != VERSION || key != snapshot.value.key then Decision(false, Invalid)
        else if of != kind then Decision(false, ScopeMismatch)
        else if now - passedAt < 0 then Decision(false, Invalid)
        else if now - passedAt >= MAX_AGE then Decision(false, Expired)
        else Decision(true, Hit)
  }

  /** A receipt of the current version for this kind and key. */
  predicate Holds(files: Files, kind: Kind, key: string) {
    && (kind, key) in files && files[(kind, key)].Receipt?
    && files[(kind, key)] == Receipt(1, kind, key, files[(kind, key)].passedAt)
  }

  /** Such a receipt that is not from the future and is less than a day old. */
  predicate Fresh(files: Files, kind: Kind, key: string, now: int) {
    Holds(files, kind, key) && files[(kind, key)].passedAt <= now < files[(kind, key)].passedAt + 86_400_000
  }

  predicate Looks(files: Files, kind: Kind, snapshot: Option<Snapshot>, ci: bool, readable: bool) {
    !ci && readable && snapshot.Some? && (kind, snapshot.value.key) in files
  }

  /** A receipt answers exactly while it is fresh, and every other answer has its own cause. */
  lemma DecisionExactly(files: Files, kind: Kind, snapshot: Option<Snapshot>, now: int, ci: bool, readable: bool)
    ensures var d := ReceiptDecision(files, kind, snapshot, now, ci, readable);
      var looks := Looks(files, kind, snapshot, ci, readable);
      && (d.reused <==> looks && Fresh(files, kind, snapshot.value.key, now)) && (d.reused <==> d.reason == Hit)
      && (d.reason == CiDisabled <==> ci)
      && (d.reason == Absent <==> !ci && snapshot.Some? && (kind, snapshot.value.key) !in files)
      && (d.reason == Expired <==>
            looks && Holds(files, kind, snapshot.value.key)
            && files[(kind, snapshot.value.key)].passedAt + 86_400_000 <= now)
      && (d.reason == ScopeMismatch <==>
            looks && files[(kind, snapshot.value.key)].Receipt? && files[(kind, snapshot.value.key)].version == 1
            && files[(kind, snapshot.value.key)].key == snapshot.value.key
            && files[(kind, snapshot.value.key)].kind != kind)
      && (d.reason == InputsUncertain <==>
            !ci && (snapshot.None? || (!readable && (kind, snapshot.value.key) in files)))
  {}

  /** The last run past invalidation with this key. */
  function LastRun(history: seq<Run>, key: string): Option<Run> {
    if history == [] then None
    else if history[|history| - 1].key == key then Some(history[|history| - 1])
    else LastRun(history[..|history| - 1], key)
  }

  /**
    The last run past invalidation for the key was a whole, steady success of this
    kind, ended at most at `passedAt`.
   */
  predicate Proven(history: seq<Run>, kind: Kind, key: string, passedAt: int) {
    var last := LastRun(history, key);
    last.Some? && last.value.kind == kind && last.value.whole && last.value.passed && last.value.steady
    && last.value.ended <= passedAt
  }

  predicate AllProven(files: Files, history: seq<Run>, now: int) {
    forall f :: f in files && files[f].Receipt? ==>
      && files[f].kind == f.0 && files[f].key == f.1 && files[f].passedAt <= now
      && Proven(history, f.0, f.1, files[f].passedAt)
  }

  /** Every receipt carries the time at which the last run past invalidation for its key ended. */
  predicate Dated(files: Files, history: seq<Run>) {
    forall f :: f in files && files[f].Receipt? ==> EndedAt(history, f.1, files[f].passedAt)
  }

  predicate EndedAt(history: seq<Run>, key: string, time: int) {
    LastRun(history, key).Some? && LastRun(history, key).value.ended == time
  }

  /** The last run past invalidation for the key proves it, and ended less than 24 hours ago. */
  predicate RecentlyProven(history: seq<Run>, kind: Kind, key: string, now: int) {
    Proven(history, kind, key, now) && now - LastRun(history, key).value.ended < MAX_AGE
  }

  /** No receipt of any kind is there for the key. */
  predicate Cleared(files: Files, key: string) {
    (Test, key) !in files && (TestDocs, key) !in files
  }

  /** Receipts for other keys than the snapshot's are the same in both. */
  predicate OthersUntouched(before: Files, after: Files, snapshot: Option<Snapshot>) {
    && (forall f :: f in after ==> f in before && after[f] == before[f])
    && (forall f :: f in before && (snapshot.None? || f.1 != snapshot.value.key) ==> f in after)
  }

  /** What a hit says about the history, and that it can only be of one kind. */
  lemma HitIsProven(files: Files, history: seq<Run>, kind: Kind, snapshot: Snapshot, now: int, ci: bool, readable: bool)
    requires AllProven(files, history, now) && Dated(files, history)
    requires ReceiptDecision(files, kind, Some(snapshot), now, ci, readable).reused
    ensures RecentlyProven(history, kind, snapshot.key, now)
    ensures forall other, readable' :: other != kind ==>
      !ReceiptDecision(files, other, Some(snapshot), now, ci, readable').reused
  {
    var f := (kind, snapshot.key);
    assert f in files && Proven(history, kind, snapshot.key, files[f].passedAt);
    assert EndedAt(history, snapshot.key, files[f].passedAt);
    forall other, readable' | other != kind
      ensures !ReceiptDecision(files, other, Some(snapshot), now, ci, readable').reused
    {
      var g := (other, snapshot.key);
      assert g in files && files[g].Receipt? ==> Proven(history, other, snapshot.key, files[g].passedAt);
    }
  }

  lemma AppendedRun(history: seq<Run>, run: Run, key: string)
    ensures LastRun(history + [run], key) == if run.key == key then Some(run) else LastRun(history, key)
  {
    assert (history + [run])[..|history|] == history;
  }

  /** What surrounds one run: the answers of the environment, and after how many file operations it is cut off. */
  datatype Script = Script(ci: bool, readable: bool, denied: Kind -> bool, docsFirst: bool, readBack: bool,
                           passed: bool, before: nat, running: nat, after: Option<Snapshot>, exactCheckout: bool,
                           stale: set<(Kind, string)>, writable: bool, fuse: nat)

  /** The inputs are the same after the run as before it, and a docs checkout is still exact. */
  predicate Steady(kind: Kind, snapshot: Snapshot, script: Script) {
    script.after == Some(snapshot) && (kind == Test || script.exactCheckout)
  }

  function RunOf(kind: Kind, snapshot: Snapshot, sharded: bool, script: Script, now: int): Run {
    Run(kind, snapshot.key, !sharded, script.passed, Steady(kind, snapshot, script), now)
  }

  /** What a run that comes to its end adds to the history: itself, when its inputs are known. */
  function NewRuns(kind: Kind, snapshot: Option<Snapshot>, sharded: bool, script: Script, now: int): seq<Run> {
    if snapshot.Some? then [RunOf(kind, snapshot.value, sharded, script, now)] else []
  }

  lemma LastIsLast(history: seq<Run>, key: string)
    requires history != [] && history[|history| - 1].key == key
    ensures LastRun(history, key) == Some(history[|history| - 1])
  {}

  /** A receipt of the key that cannot be removed, or whose absence cannot be seen. */
  predicate Blocked(files: Files, key: string, script: Script) {
    || !script.readBack
    || ((Test, key) in files && script.denied(Test)) || ((TestDocs, key) in files && script.denied(TestDocs))
  }

  function SaveOps(script: Script): nat {
    if script.writable then 3 else 2
  }

  /** How many file operations the tests of a run and its receipt take. */
  function RunOps(kind: Kind, snapshot: Option<Snapshot>, sharded: bool, script: Script): nat {
    if snapshot.Some? && script.passed && !sharded && Steady(kind, snapshot.value, script) then 1 + SaveOps(script)
    else 1
  }

  /** How many file operations a run takes that is neither answered by a receipt nor refused. */
  function AllOps(kind: Kind, snapshot: Option<Snapshot>, sharded: bool, script: Script): nat {
    1 + (if snapshot.Some? then 2 else 0) + RunOps(kind, snapshot, sharded, script)
  }

  /** At most one run was entered, and it is one of this kind and key. */
  predicate EntersAtMost(before: seq<Run>, after: seq<Run>, kind: Kind, snapshot: Option<Snapshot>, sharded: bool) {
    || after == before
    || (snapshot.Some? && |after| == |before| + 1 && after[..|before|] == before
        && var run := after[|before|]; run.kind == kind && run.key == snapshot.value.key && run.whole == !sharded)
  }

  datatype Outcome = Reused | Refused | CutOff | Finished(passed: bool)

  /** Whole runs that passed have told the verdict of their kind and key. */
  ghost predicate ToldVerdicts(history: seq<Run>, verdict: (Kind, string) -> bool) {
    forall i :: 0 <= i < |history| && history[i].whole && history[i].passed ==>
      verdict(history[i].kind, history[i].key)
  }

  /** A hit is recently proven, and gives the verdict. */
  lemma HitTells(files: Files, history: seq<Run>, verdict: (Kind, string) -> bool, kind: Kind, snapshot: Snapshot,
                 now: int, ci: bool, readable: bool)
    requires AllProven(files, history, now) && Dated(files, history) && ToldVerdicts(history, verdict)
    requires ReceiptDecision(files, kind, Some(snapshot), now, ci, readable).reused
    ensures RecentlyProven(history, kind, snapshot.key, now) && verdict(kind, snapshot.key)
  {
    HitIsProven(files, history, kind, snapshot, now, ci, readable);
    LastRunIsInHistory(history, snapshot.key);
  }

  class Store {
    var files: Files
    var now: int
    var fuse: nat
    ghost const verdict: (Kind, string) -> bool
    ghost var history: seq<Run>

    /** Receipts say what the history says and when, and whole runs have told the verdict. */
    ghost predicate Valid()
      reads this
    {
      && AllProven(files, history, now) && Dated(files, history)
      && ToldVerdicts(history, verdict)
    }

    constructor (now: int, ghost verdict: (Kind, string) -> bool)
      ensures Valid() && files == map[] && this.verdict == verdict
    {
      files, this.now, fuse := map[], now, 0;
      this.verdict, history := verdict, [];
    }

    /** One file operation is about to happen; false when the process is gone before it. */
    method Burn() returns (alive: bool)
      modifies this`fuse
      ensures alive <==> old(fuse) > 0
      ensures fuse == if alive then old(fuse) - 1 else 0
    {
      alive := fuse > 0;
      if alive { fuse := fuse - 1; }
    }

    method Elapse(time: nat)
      requires Valid()
      modifies this`now
      ensures Valid() && now == old(now) + time
    {
      now := now + time;
    }

    /** `rm` of one receipt; denied removals leave the file. */
    method Remove(kind: Kind, key: string, denied: bool) returns (alive: bool)
      requires Valid()
      modifies this`files, this`fuse
      ensures Valid() && files == if alive && !denied then old(files) - {(kind, key)} else old(files)
      ensures (alive <==> old(fuse) > 0) && (alive ==> fuse == old(fuse) - 1)
    {
      alive := Burn();
      if alive && !denied { files := files - {(kind, key)}; }
    }

    /** `invalidateGateProofs`: both kinds are gone afterwards, or the run is refused. */
    method Invalidate(snapshot: Option<Snapshot>, script: Script) returns (alive: bool, refused: bool)
      requires Valid()
      modifies this`files, this`fuse
      ensures Valid() && OthersUntouched(old(files), files, snapshot)
      ensures alive && !refused && snapshot.Some? ==> Cleared(files, snapshot.value.key)
      ensures alive ==> (refused <==> snapshot.Some? && Blocked(old(files), snapshot.value.key, script))
      ensures alive <==> snapshot.None? || old(fuse) >= 2
      ensures alive ==> fuse == old(fuse) - if snapshot.Some? then 2 else 0
    {
      refused := false;
      if snapshot.None? { return true, false; }
      var first, second := if script.docsFirst then TestDocs else Test, if script.docsFirst then Test else TestDocs;
      alive := Remove(first, snapshot.value.key, script.denied(first));
      if !alive { return; }
      alive := Remove(second, snapshot.value.key, script.denied(second));
      if !alive { return; }
      refused := !script.readBack || !Cleared(files, snapshot.value.key);
    }

    /** `savePassed`: sweep old receipts, write a temporary file, rename it into place. */
    method SavePassed(kind: Kind, snapshot: Snapshot, script: Script) returns (alive: bool)
      requires Valid() && Proven(history, kind, snapshot.key, now) && EndedAt(history, snapshot.key, now)
      modifies this`files, this`fuse
      ensures Valid() && (alive <==> old(fuse) >= SaveOps(script))
      ensures alive && script.writable ==>
        files == (old(files) - script.stale)[(kind, snapshot.key) := Receipt(VERSION, kind, snapshot.key, now)]
      ensures !(alive && script.writable) ==> files == old(files) || files == old(files) - script.stale
    {
      alive := Burn();
      if !alive { return; }
      files := files - script.stale;
      alive := Burn();
      if !alive || !script.writable { return; }
      var passedAt := now;
      alive := Burn();
      if !alive { return; }
      files := files[(kind, snapshot.key) := Receipt(VERSION, kind, snapshot.key, passedAt)];
    }

    /**
      One run of the gate. `Reused` rests on a proven success; a run that passes
      leaves a receipt only when it was whole and its inputs held still.
     */
    method GateRun(kind: Kind, snapshot: Option<Snapshot>, ifNeeded: bool, sharded: bool, script: Script)
      returns (outcome: Outcome)
      requires Valid() && !(ifNeeded && sharded)
      // Tests are deterministic: a whole run of known inputs tells the verdict of its key.
      requires !sharded && snapshot.Some? ==> script.passed == verdict(kind, snapshot.value.key)
      requires script.ci ==> snapshot.None?
      modifies this
      ensures Valid()
      ensures outcome == Reused <==>
        script.fuse > 0 && ifNeeded
        && ReceiptDecision(old(files), kind, snapshot, old(now) + script.before, script.ci, script.readable).reused
      ensures outcome == Reused ==>
        && snapshot.Some? && verdict(kind, snapshot.value.key)
        && RecentlyProven(history, kind, snapshot.value.key, old(now) + script.before)
      // It is refused exactly when it gets to see that a receipt of its key could not be removed.
      ensures outcome == Refused <==>
        && outcome != Reused && script.fuse >= 3 && snapshot.Some?
        && (script.readBack ==>
              || ((Test, snapshot.value.key) in old(files) && script.denied(Test))
              || ((TestDocs, snapshot.value.key) in old(files) && script.denied(TestDocs)))
      ensures outcome == CutOff ==> script.fuse < AllOps(kind, snapshot, sharded, script)
      ensures outcome.Finished? ==> script.fuse >= AllOps(kind, snapshot, sharded, script)
      // The history grows by exactly the runs that went past invalidation.
      ensures outcome == Reused || outcome == Refused ==> history == old(history)
      ensures outcome == CutOff ==> EntersAtMost(old(history), history, kind, snapshot, sharded)
      ensures outcome.Finished? ==> history == old(history) + NewRuns(kind, snapshot, sharded, script, now)
      ensures outcome.Finished? ==> now == old(now) + script.before + script.running
      ensures outcome == Finished(false) && snapshot.Some? ==> Cleared(files, snapshot.value.key)
      ensures outcome.Finished? ==> outcome.passed == script.passed
      ensures outcome == Finished(true) && snapshot.Some? && (kind, snapshot.value.key) in files ==>
        ReceiptDecision(files, kind, snapshot, now, false, true) == Decision(true, Hit)
      // A run that passed has a receipt exactly when it was whole, its inputs held still and one can be written.
      ensures outcome == Finished(true) && snapshot.Some? ==>
        ((kind, snapshot.value.key) in files <==>
          && !sharded && script.writable && script.after == Some(Snapshot(snapshot.value.key, snapshot.value.stamp))
          && (kind == TestDocs ==> script.exactCheckout))
    {
      fuse := script.fuse;
      Elapse(script.before);
      var alive := Burn();
      if !alive { return CutOff; }
      var decision := ReceiptDecision(files, kind, snapshot, now, script.ci, script.readable);
      if ifNeeded && decision.reused {
        HitTells(files, history, verdict, kind, snapshot.value, now, script.ci, script.readable);
        return Reused;
      }
      outcome := Rerun(kind, snapshot, sharded, script);
    }

    /** A run that no receipt answers: invalidation, then the tests. */
    method Rerun(kind: Kind, snapshot: Option<Snapshot>, sharded: bool, script: Script) returns (outcome: Outcome)
      requires Valid()
      requires !sharded && snapshot.Some? ==> script.passed == verdict(kind, snapshot.value.key)
      modifies this
      ensures Valid() && outcome != Reused
      ensures outcome == Refused <==>
        old(fuse) >= 2 && snapshot.Some? && Blocked(old(files), snapshot.value.key, script)
      ensures outcome == CutOff ==> old(fuse) + 1 < AllOps(kind, snapshot, sharded, script)
      ensures outcome.Finished? ==> old(fuse) + 1 >= AllOps(kind, snapshot, sharded, script)
      ensures outcome == Refused ==> history == old(history)
      ensures outcome == CutOff ==> EntersAtMost(old(history), history, kind, snapshot, sharded)
      ensures outcome.Finished? ==> history == old(history) + NewRuns(kind, snapshot, sharded, script, now)
      ensures outcome.Finished? ==> now == old(now) + script.running && outcome.passed == script.passed
      ensures outcome == Finished(false) && snapshot.Some? ==> Cleared(files, snapshot.value.key)
      ensures outcome == Finished(true) && snapshot.Some? && (kind, snapshot.value.key) in files ==>
        ReceiptDecision(files, kind, snapshot, now, false, true) == Decision(true, Hit)
      // A run that passed has a receipt exactly when it was whole, its inputs held still and one can be written.
      ensures outcome == Finished(true) && snapshot.Some? ==>
        ((kind, snapshot.value.key) in files <==>
          && !sharded && script.writable && script.after == Some(Snapshot(snapshot.value.key, snapshot.value.stamp))
          && (kind == TestDocs ==> script.exactCheckout))
    {
      var alive, refused := Invalidate(snapshot, script);
      if !alive { return CutOff; }
      if refused { return Refused; }
      outcome := RealRun(kind, snapshot, sharded, script);
    }

    /** The tests themselves, after invalidation. */
    method RealRun(kind: Kind, snapshot: Option<Snapshot>, sharded: bool, script: Script) returns (outcome: Outcome)
      requires Valid() && (snapshot.Some? ==> Cleared(files, snapshot.value.key))
      requires !sharded && snapshot.Some? ==> script.passed == verdict(kind, snapshot.value.key)
      modifies this
      ensures Valid() && (outcome == CutOff || outcome == Finished(script.passed))
      ensures outcome == Finished(false) && snapshot.Some? ==> Cleared(files, snapshot.value.key)
      ensures outcome.Finished? <==> old(fuse) >= RunOps(kind, snapshot, sharded, script)
      ensures outcome == CutOff ==> EntersAtMost(old(history), history, kind, snapshot, sharded)
      ensures outcome.Finished? ==> history == old(history) + NewRuns(kind, snapshot, sharded, script, now)
      ensures outcome.Finished? ==> now == old(now) + script.running
      ensures outcome == Finished(true) && snapshot.Some? && (kind, snapshot.value.key) in files ==>
        ReceiptDecision(files, kind, snapshot, now, false, true) == Decision(true, Hit)
      // A run that passed has a receipt exactly when it was whole, its inputs held still and one can be written.
      ensures outcome == Finished(true) && snapshot.Some? ==>
        ((kind, snapshot.value.key) in files <==>
          && !sharded && script.writable && script.after == Some(Snapshot(snapshot.value.key, snapshot.value.stamp))
          && (kind == TestDocs ==> script.exactCheckout))
    {
      if snapshot.Some? {
        Enter(Run(kind, snapshot.value.key, !sharded, false, false, now));
      }
      Elapse(script.running);
      var alive := Burn();
      if !alive { return CutOff; }
      if snapshot.None? { return Finished(script.passed); }
      var steady := Steady(kind, snapshot.value, script);
      Complete(script.passed, steady);
      LastIsLast(history, snapshot.value.key);
      if script.passed && !sharded && steady {
        alive := SavePassed(kind, snapshot.value, script);
        if !alive { return CutOff; }
      }
      return Finished(script.passed);
    }

    /** A run past invalidation: its key has no receipt any more, so no receipt rests on an older run of it. */
    ghost method Enter(run: Run)
      requires Valid() && Cleared(files, run.key) && !run.passed
      modifies this`history
      ensures Valid() && history == old(history) + [run]
    {
      forall key ensures LastRun(history + [run], key) == if run.key == key then Some(run) else LastRun(history, key) {
        AppendedRun(history, run, key);
      }
      history := history + [run];
    }

    /** The run entered last comes to its end. */
    ghost method Complete(passed: bool, steady: bool)
      requires Valid() && history != []
      requires Cleared(files, history[|history| - 1].key)
      requires history[|history| - 1].whole && passed ==>
        verdict(history[|history| - 1].kind, history[|history| - 1].key)
      modifies this`history
      ensures Valid() && |history| == |old(history)| && history[..|history| - 1] == old(history)[..|history| - 1]
      ensures history[|history| - 1] == old(history)[|history| - 1].(passed := passed, steady := steady, ended := now)
    {
      var before, last := history[..|history| - 1], history[|history| - 1];
      var done := last.(passed := passed, steady := steady, ended := now);
      assert history == before + [last];
      forall key
        ensures LastRun(before + [done], key) == if last.key == key then Some(done) else LastRun(history, key)
      {
        AppendedRun(before, done, key);
        AppendedRun(before, last, key);
      }
      history := before + [done];
    }
  }

  /** One call of the gate. */
  datatype Call = Call(kind: Kind, snapshot: Option<Snapshot>, ifNeeded: bool, sharded: bool, script: Script)

  ghost predicate Possible(c: Call, verdict: (Kind, string) -> bool) {
    && !(c.ifNeeded && c.sharded) && (c.script.ci ==> c.snapshot.None?)
    && (!c.sharded && c.snapshot.Some? ==> c.script.passed == verdict(c.kind, c.snapshot.value.key))
  }

  /** The answer of a run, if it gives one, is the verdict: reusing says what running would say. */
  ghost predicate Truthful(c: Call, outcome: Outcome, verdict: (Kind, string) -> bool) {
    !c.sharded && c.snapshot.Some? ==>
      && (outcome == Reused ==> verdict(c.kind, c.snapshot.value.key))
      && (outcome.Finished? ==> outcome.passed == verdict(c.kind, c.snapshot.value.key))
  }

  /** A whole history of runs, one after the other, some of them cut off. */
  method RunAll(store: Store, calls: seq<Call>) returns (outcomes: seq<Outcome>)
    requires store.Valid() && forall i :: 0 <= i < |calls| ==> Possible(calls[i], store.verdict)
    modifies store
    ensures store.Valid() && |outcomes| == |calls|
    ensures forall i :: 0 <= i < |calls| ==> Truthful(calls[i], outcomes[i], store.verdict)
  {
    outcomes := [];
    for i := 0 to |calls|
      invariant store.Valid() && |outcomes| == i
      invariant forall j :: 0 <= j < i ==> Truthful(calls[j], outcomes[j], store.verdict)
    {
      var c := calls[i];
      var outcome := store.GateRun(c.kind, c.snapshot, c.ifNeeded, c.sharded, c.script);
      outcomes := outcomes + [outcome];
    }
  }

  predicate HasReceipt(files: Files, kind: Kind, key: string) {
    (kind, key) in files && files[(kind, key)].Receipt?
  }

  /** At most one kind of receipt is there for a key. */
  lemma OneKindPerKey(files: Files, history: seq<Run>, now: int, key: string)
    requires AllProven(files, history, now)
    ensures !(HasReceipt(files, Test, key) && HasReceipt(files, TestDocs, key))
  {
    forall kind | HasReceipt(files, kind, key)
      ensures LastRun(history, key).Some? && LastRun(history, key).value.kind == kind
    {
      assert Proven(history, kind, key, files[(kind, key)].passedAt);
    }
  }

  lemma {:induction false} LastRunIsInHistory(history: seq<Run>, key: string)
    ensures LastRun(history, key).Some? ==>
      exists i :: 0 <= i < |history| && history[i] == LastRun(history, key).value && history[i].key == key
  {
    if history != [] && history[|history| - 1].key != key {
      LastRunIsInHistory(history[..|history| - 1], key);
    }
  }
}
