/**
  The test runner and the CI checker agree: what a run writes earns the proof of
  its worker exactly when the run went well
  (scripts/run-tests.mjs, scripts/gate-diagnostics.mjs, scripts/ci-results.mjs).
 */
module CiAgreement {
  import opened Options
  import opened Text
  import opened Json
  import opened JsonText
  import opened TestRun
  import opened Shards
  import opened GateDiagnostics
  import opened CiResults

  // ---------- Counting the phases of a clean log ----------

  lemma StampedAppend(stamp: Stamp, events: seq<Event>, e: Event)
    ensures Stamped(stamp, events + [e]) == Stamped(stamp, events) + [OutEvent(Clean(stamp), e)]
  {}

  /** How often each phase occurs, and the files of the batches together. */
  datatype Tally = Tally(fingerprint: nat, lookup: nat, template: nat, batch: nat, smoke: nat, cleanup: nat, total: nat,
                         persistence: nat, files: nat)

  const NONE := Tally(0, 0, 0, 0, 0, 0, 0, 0, 0)

  function Add(t: Tally, e: Event): Tally {
    match e.name
    case Fingerprint => t.(fingerprint := t.fingerprint + 1)
    case CacheLookup => t.(lookup := t.lookup + 1)
    case PackedTemplate => t.(template := t.template + 1)
    case BatchExecution => t.(batch := t.batch + 1, files := t.files + e.fileCount)
    case PackageSmoke => t.(smoke := t.smoke + 1)
    case Cleanup => t.(cleanup := t.cleanup + 1)
    case TotalTime => t.(total := t.total + 1)
    case ReceiptPersistence => t.(persistence := t.persistence + 1)
  }

  predicate Tallied(out: seq<OutEvent>, t: Tally) {
    && Count(out, Fingerprint) == t.fingerprint && Count(out, CacheLookup) == t.lookup
    && Count(out, PackedTemplate) == t.template && Count(out, BatchExecution) == t.batch
    && Count(out, PackageSmoke) == t.smoke && Count(out, Cleanup) == t.cleanup && Count(out, TotalTime) == t.total
    && Count(out, ReceiptPersistence) == t.persistence && BatchSum(out) == t.files
  }

  lemma TallyAppend(stamp: Stamp, events: seq<Event>, e: Event, t: Tally)
    requires Tallied(Stamped(stamp, events), t)
    ensures Tallied(Stamped(stamp, events + [e]), Add(t, e))
  {
    StampedAppend(stamp, events, e);
    var out := Stamped(stamp, events + [e]);
    assert out[..|out| - 1] == Stamped(stamp, events);
  }

  lemma NothingTallied(stamp: Stamp)
    ensures Tallied(Stamped(stamp, []), NONE)
  {
    assert Stamped(stamp, []) == [];
  }

  lemma StartCounts(stamp: Stamp, events: seq<Event>, total: nat, batches: seq<seq<string>>)
    requires OpeningLog(events, total, batches, 0)
    ensures Tallied(Stamped(stamp, events), Tally(1, 1, 1, 0, 0, 0, 0, 0, 0))
  {
    NothingTallied(stamp);
    TallyAppend(stamp, [], events[0], NONE);
    TallyAppend(stamp, [] + [events[0]], events[1], Add(NONE, events[0]));
    TallyAppend(stamp, [] + [events[0]] + [events[1]], events[2], Add(Add(NONE, events[0]), events[1]));
    assert [] + [events[0]] + [events[1]] + [events[2]] == events;
  }

  lemma {:induction false} OpeningCounts(stamp: Stamp, events: seq<Event>, total: nat, batches: seq<seq<string>>,
                                         n: nat)
    requires OpeningLog(events, total, batches, n)
    ensures Tallied(Stamped(stamp, events), Tally(1, 1, 1, n, 0, 0, 0, 0, Total(batches[..n])))
    decreases n
  {
    if n == 0 {
      StartCounts(stamp, events, total, batches);
    } else {
      var before, last := events[..|events| - 1], events[|events| - 1];
      OpeningPrefix(events, total, batches, n);
      OpeningCounts(stamp, before, total, batches, n - 1);
      TallyAppend(stamp, before, last, Tally(1, 1, 1, n - 1, 0, 0, 0, 0, Total(batches[..n - 1])));
      assert before + [last] == events;
      assert batches[..n][..n - 1] == batches[..n - 1];
    }
  }

  lemma OpeningPrefix(events: seq<Event>, total: nat, batches: seq<seq<string>>, n: nat)
    requires OpeningLog(events, total, batches, n) && n > 0
    ensures OpeningLog(events[..|events| - 1], total, batches, n - 1)
    ensures Is(events[|events| - 1], BatchExecution, |batches[n - 1]|, Passed)
  {
    var before := events[..|events| - 1];
    assert forall i :: 0 <= i < |before| ==> before[i] == events[i];
    assert Is(events[3 + (n - 1)], BatchExecution, |batches[n - 1]|, Passed);
  }

  /** A clean log has every phase once, and batches that add up to the files. */
  lemma CleanCounts(stamp: Stamp, events: seq<Event>, total: nat, batches: seq<seq<string>>, docs: bool)
    requires CleanLog(events, total, batches, docs)
    ensures Tallied(Stamped(stamp, events), Tally(1, 1, 1, |batches|, if docs then 1 else 0, 1, 1, 0, Total(batches)))
  {
    var n := 3 + |batches|;
    OpeningCounts(stamp, events[..n], total, batches, |batches|);
    assert batches[..|batches|] == batches;
    var log, t := events[..n], Tally(1, 1, 1, |batches|, 0, 0, 0, 0, Total(batches));
    if docs {
      TallyAppend(stamp, log, events[n], t);
      log, t := log + [events[n]], t.(smoke := 1);
    }
    EndCounts(stamp, events, log, t);
  }

  lemma EndCounts(stamp: Stamp, events: seq<Event>, log: seq<Event>, t: Tally)
    requires Tallied(Stamped(stamp, log), t) && |events| == |log| + 2 && log == events[..|log|]
    requires events[|log|].name == Cleanup && events[|log| + 1].name == TotalTime
    ensures Tallied(Stamped(stamp, events), t.(cleanup := t.cleanup + 1, total := t.total + 1))
  {
    TallyAppend(stamp, log, events[|log|], t);
    TallyAppend(stamp, log + [events[|log|]], events[|log| + 1], Add(t, events[|log|]));
    assert log + [events[|log|]] + [events[|log| + 1]] == events;
  }

  lemma CleanEvents(events: seq<Event>, total: nat, batches: seq<seq<string>>, docs: bool, i: nat)
    requires CleanLog(events, total, batches, docs) && i < |events|
    requires forall j :: 0 <= j < |batches| ==> batches[j] != []
    ensures var e := events[i];
      && e.result == (if e.name == Fingerprint || e.name == CacheLookup then CiDisabled else Passed)
      && Allowed(e.name, docs)
      && if e.name == BatchExecution then e.fileCount >= 1 else e.fileCount == total
  {
    var n := 3 + |batches|;
    if i < n {
      assert events[..n][i] == events[i];
      if i >= 3 {
        assert Is(events[..n][3 + (i - 3)], BatchExecution, |batches[i - 3]|, Passed);
      }
    }
  }

  lemma CleanLogIsAccepted(id: Stamp, stamp: Stamp, events: seq<Event>, batches: seq<seq<string>>, files: seq<string>,
                           docs: bool)
    requires CleanLog(events, |files|, batches, docs) && Clean(stamp) == id && files != []
    requires Flatten(batches) == files && forall j :: 0 <= j < |batches| ==> batches[j] != []
    ensures EventsOk(id, |files|, docs, Stamped(stamp, events))
  {
    CleanCounts(stamp, events, |files|, batches, docs);
    TotalIsLength(batches);
    var out := Stamped(stamp, events);
    forall i | 0 <= i < |out| ensures EventOk(id, |files|, out[i]) && Allowed(out[i].event.name, docs) {
      CleanEvents(events, |files|, batches, docs, i);
    }
    assert batches != [];
  }

  // ---------- Records ----------

  lemma RelativeIsShown(file: string)
    requires Relative(file)
    ensures RelativeFile(file)
  {}

  /** The records name every file once and all succeeded. */
  predicate OneSuccessEach(records: seq<Rec>, files: seq<string>) {
    Sort(ByText, Names(records)) == files && forall i :: 0 <= i < |records| ==> records[i].success
  }

  lemma GoodRecordsAreAccepted(files: seq<string>, records: seq<Rec>, m: Manifest)
    requires OneSuccessEach(records, files) && forall i :: 0 <= i < |files| ==> Relative(files[i])
    requires m.files == Shown(records) && SuccessesBoundedBy(records)
    requires m.counts ==
      Counts(|files|, Some(|records|), Some(Successes(records)), Some(|records| - Successes(records)))
    ensures FilesOk(files, m)
  {
    SortSorts(ByText, Names(records));
    SameMembers(Sort(ByText, Names(records)), Names(records));
    forall i | 0 <= i < |records| ensures Relative(records[i].file) && RelativeFile(records[i].file) {
      assert records[i].file == Names(records)[i];
      assert Names(records)[i] in files;
      RelativeIsShown(records[i].file);
    }
    ShownAll(records);
    SuccessesBounded(records);
  }

  predicate SuccessesBoundedBy(records: seq<Rec>) {
    Successes(records) <= |records|
  }

  lemma AcceptedRecordsAreGood(files: seq<string>, records: seq<Rec>, m: Manifest)
    requires m.files == Shown(records) && SuccessesBoundedBy(records) && FilesOk(files, m)
    requires m.counts.completed.Some? ==>
      m.counts.completed == Some(|records|) && m.counts.passed == Some(Successes(records))
    ensures OneSuccessEach(records, files)
  {
    ShownAll(records);
    SuccessesBounded(records);
  }

  // ---------- Producer and checker ----------

  const CI_GATE := Gate(Some(Receipts.Decision(false, Receipts.CiDisabled)), None)

  /**
    What a finished run can leave behind: outside CI a log that says so, and in
    CI a clean log when it passed and one that ends in failure otherwise.
   */
  predicate Produced(ci: bool, events: seq<Event>, outcome: Result, total: nat, batches: seq<seq<string>>, docs: bool,
                     gate: Gate) {
    if !ci then LocalLog(events)
    else
      && gate == CI_GATE
      && if outcome == Passed then CleanLog(events, total, batches, docs) else FailedLog(events, total)
  }

  /**
    A manifest is accepted exactly when the run took place in CI and passed, its
    reports were complete, it ran under the expected identity, and every selected
    file has one successful record. A failed batch, template, smoke test or
    cleanup, and any run outside CI, with a reused receipt or not, is rejected.
   */
  lemma ProducerAndCheckerAgree(id: Stamp, stamp: Stamp, files: seq<string>, batches: seq<seq<string>>, docs: bool,
                                ci: bool,
                                events: seq<Event>, outcome: Result, records: seq<Rec>, complete: bool, gate: Gate)
    requires files != [] && (forall i :: 0 <= i < |files| ==> Relative(files[i]))
    requires Flatten(batches) == files && forall j :: 0 <= j < |batches| ==> batches[j] != []
    requires Produced(ci, events, outcome, |files|, batches, docs, gate) && SuccessesBoundedBy(records)
    ensures Accepts(id, files, docs, Diagnostic(stamp, |files|, events, records, complete, gate)) <==>
      ci && outcome == Passed && complete && Clean(stamp) == id && OneSuccessEach(records, files)
  {
    if !ci {
      LocalRunIsRejected(id, stamp, files, docs, events, records, complete, gate);
    } else {
      if Accepts(id, files, docs, Diagnostic(stamp, |files|, events, records, complete, gate)) {
        AcceptedRunWasGood(id, stamp, files, batches, docs, events, outcome, records, complete);
      }
      if outcome == Passed && complete && Clean(stamp) == id && OneSuccessEach(records, files) {
        GoodRunIsAccepted(id, stamp, files, batches, docs, events, records);
      }
    }
  }

  /** The first event of a run outside CI is never one the checker takes. */
  lemma LocalRunIsRejected(id: Stamp, stamp: Stamp, files: seq<string>, docs: bool, events: seq<Event>,
                           records: seq<Rec>,
                           complete: bool, gate: Gate)
    requires LocalLog(events) && SuccessesBoundedBy(records)
    ensures !Accepts(id, files, docs, Diagnostic(stamp, |files|, events, records, complete, gate))
  {
    var m := Diagnostic(stamp, |files|, events, records, complete, gate);
    assert m.events[0].event == events[0];
    assert !EventOk(id, |files|, m.events[0]);
  }

  lemma AcceptedRunWasGood(id: Stamp, stamp: Stamp, files: seq<string>, batches: seq<seq<string>>, docs: bool,
                           events: seq<Event>, outcome: Result, records: seq<Rec>, complete: bool)
    requires Produced(true, events, outcome, |files|, batches, docs, CI_GATE) && SuccessesBoundedBy(records)
    requires Accepts(id, files, docs, Diagnostic(stamp, |files|, events, records, complete, CI_GATE))
    ensures outcome == Passed && complete && Clean(stamp) == id && OneSuccessEach(records, files)
  {
    var m := Diagnostic(stamp, |files|, events, records, complete, CI_GATE);
    assert m.events[|m.events| - 1].event == events[|events| - 1];
    assert EventOk(id, |files|, m.events[|m.events| - 1]);
    AcceptedRecordsAreGood(files, records, m);
  }

  lemma GoodRunIsAccepted(id: Stamp, stamp: Stamp, files: seq<string>, batches: seq<seq<string>>, docs: bool,
                          events: seq<Event>, records: seq<Rec>)
    requires files != [] && (forall i :: 0 <= i < |files| ==> Relative(files[i]))
    requires Flatten(batches) == files && forall j :: 0 <= j < |batches| ==> batches[j] != []
    requires CleanLog(events, |files|, batches, docs) && SuccessesBoundedBy(records)
    requires Clean(stamp) == id && OneSuccessEach(records, files)
    ensures Accepts(id, files, docs, Diagnostic(stamp, |files|, events, records, true, CI_GATE))
  {
    CleanLogIsAccepted(id, stamp, events, batches, files, docs);
    GoodFilesAreAccepted(id, stamp, files, docs, events, records);
  }

  lemma GoodFilesAreAccepted(id: Stamp, stamp: Stamp, files: seq<string>, docs: bool, events: seq<Event>,
                             records: seq<Rec>)
    requires forall i :: 0 <= i < |files| ==> Relative(files[i])
    requires EventsOk(id, |files|, docs, Stamped(stamp, events))
    requires SuccessesBoundedBy(records) && OneSuccessEach(records, files)
    ensures Accepts(id, files, docs, Diagnostic(stamp, |files|, events, records, true, CI_GATE))
  {
    GoodRecordsAreAccepted(files, records, Diagnostic(stamp, |files|, events, records, true, CI_GATE));
  }

  /** Everything a run of these files needs to go well, by what happens to it. */
  predicate WellDone(script: Script, mode: Mode, batches: nat, docs: bool, files: seq<string>) {
    && mode.Ci? && AllWell(script, batches, docs) && AllComplete(script, batches)
    && OneSuccessEach(Collected(script, batches), files)
  }

  /**
    The whole run, up to the manifest it leaves; `head` and `limit` are the
    command-line budget of a batch. The manifest is written as the last thing, so
    a run that is `killed` before leaves none.
   */
  method RunTests(files: seq<string>, docs: bool, stamp: Stamp, script: Script, mode: Mode, killed: bool, head: nat,
                  limit: nat)
    returns (manifest: Option<Manifest>, batches: nat)
    requires files != [] && forall i :: 0 <= i < |files| ==> Relative(files[i])
    ensures BatchNumber(files, head, limit, batches) && (manifest.None? <==> killed)
    ensures manifest.Some? ==> forall id ::
      Accepts(id, files, docs, manifest.value) <==> WellDone(script, mode, batches, docs, files) && Clean(stamp) == id
  {
    var pieces := TestBatches(files, head, limit);
    batches := |pieces|;
    var runner := new Runner(files, docs);
    runner.Report(pieces, script, mode);
    if killed { return None, batches; }
    SuccessesBounded(runner.records);
    var gate := Gate(runner.decision, runner.inputDigest);
    var m := Diagnostic(stamp, |files|, runner.events, runner.records, runner.complete, gate);
    PiecesAreNonempty(pieces, head, limit);
    ghost var events, outcome, records, complete := runner.events, runner.outcome, runner.records, runner.complete;
    forall id
      ensures Accepts(id, files, docs, m) <==>
        mode.Ci? && outcome == Passed && complete && Clean(stamp) == id && OneSuccessEach(records, files)
    {
      ProducerAndCheckerAgree(id, stamp, files, pieces, docs, mode.Ci?, events, outcome, records, complete, gate);
    }
    manifest := Some(m);
  }

  /** The same for a worker and its proof, over the files the plan gives it. */
  lemma WorkerEarnsProof(route: Json, plan: Json, w: Worker, node: string, attempt: string, m: Manifest,
                         files: seq<string>, docs: bool, stamp: Stamp, script: Script, mode: Mode, batches: nat)
    requires Fitting(route, plan, w, node, attempt) && files == FilesOf(plan, w) && docs == (ScopeOf(w) == DocsScope)
    requires forall id ::
      Accepts(id, files, docs, m) <==> WellDone(script, mode, batches, docs, files) && Clean(stamp) == id
    ensures Earns(m, route, plan, w, node, attempt) <==>
      WellDone(script, mode, batches, docs, files) && Identity(route, plan, w, node) == Some(Clean(stamp))
  {}

  /**
    A CI worker from its run to its proof: it runs the files the plan gives it, and
    the checker looks at the manifest it leaves, if any.
   */
  method RunWorker(hash: Hash, route: Json, plan: Json, w: Worker, node: string, attempt: string, stamp: Stamp,
                   script: Script, mode: Mode, killed: bool, head: nat, limit: nat)
    returns (proof: Option<Proof>, batches: nat)
    requires Fitting(route, plan, w, node, attempt)
    ensures BatchNumber(FilesOf(plan, w), head, limit, batches)
    ensures proof.Some? <==>
      && !killed && WellDone(script, mode, batches, ScopeOf(w) == DocsScope, FilesOf(plan, w))
      && Identity(route, plan, w, node) == Some(Clean(stamp))
    ensures proof.Some? ==> proof == Some(ExpectedProof(hash, route, plan, w, node, attempt))
  {
    FilesAreUsable(route, plan, w, node, attempt);
    var files, docs := FilesOf(plan, w), ScopeOf(w) == DocsScope;
    var manifest;
    manifest, batches := RunTests(files, docs, stamp, script, mode, killed, head, limit);
    if manifest.None? { return None, batches; }
    WorkerEarnsProof(route, plan, w, node, attempt, manifest.value, files, docs, stamp, script, mode, batches);
    proof := VerifyCiTestManifest(hash, manifest.value, route, plan, w, node, attempt);
  }

  lemma PiecesAreNonempty(pieces: seq<seq<string>>, head: nat, limit: nat)
    requires forall i :: 0 <= i < |pieces| ==> Fits(pieces[i], head, limit)
    ensures forall i :: 0 <= i < |pieces| ==> pieces[i] != []
  {}

  lemma FilesAreUsable(route: Json, plan: Json, w: Worker, node: string, attempt: string)
    requires Fitting(route, plan, w, node, attempt)
    ensures FilesOf(plan, w) != [] && Strict(ByText, FilesOf(plan, w))
    ensures forall i :: 0 <= i < |FilesOf(plan, w)| ==> Relative(FilesOf(plan, w)[i])
  {
    SelectedIsStrict(plan);
    var selected := Selected(plan).value;
    if ShardOf(w).Some? {
      var shard := ShardOf(w).value;
      PickIsStrict(selected, shard);
      PickMembers(selected, shard);
      forall i | 0 <= i < |FilesOf(plan, w)| ensures Relative(FilesOf(plan, w)[i]) {
        assert FilesOf(plan, w)[i] in Pick(selected, shard);
      }
    }
  }

  lemma SelectedIsStrict(plan: Json)
    requires Selected(plan).Some?
    ensures Strict(ByText, Selected(plan).value)
  {
    SortUniqueIsCanonical(Selected(plan).value);
  }
}
