/**
  The test runner as a producer of evidence (scripts/run-tests.mjs,
  scripts/test-runner-plan.mjs): phases append events, batches append file
  records, and a final block reports the outcome. In CI no receipt is read or
  written; a local run looks for one, and keeps one in the end.
 */
module TestRun {
  import opened Options
  import Receipts

  datatype Phase =
    | Fingerprint | CacheLookup | PackedTemplate | BatchExecution | PackageSmoke | Cleanup
    | TotalTime | ReceiptPersistence

  /** The results an event may carry; all but the first three come from local runs only. */
  datatype Result =
    | Passed | Failed | CiDisabled
    | Reused | Available | InputsUncertain | Looked(reason: Receipts.Reason)
    | Saved | Unavailable | FingerprintChanged | ObservationChanged

  datatype Event = Event(name: Phase, fileCount: nat, durationMs: nat, result: Result)

  datatype Rec = Rec(file: string, durationMs: nat, success: bool)

  // ---------- Batches ----------

  function Flatten(batches: seq<seq<string>>): seq<string> {
    if batches == [] then [] else Flatten(batches[..|batches| - 1]) + batches[|batches| - 1]
  }

  function Total(batches: seq<seq<string>>): nat {
    if batches == [] then 0 else Total(batches[..|batches| - 1]) + |batches[|batches| - 1]|
  }

  lemma {:induction false} TotalIsLength(batches: seq<seq<string>>)
    ensures Total(batches) == |Flatten(batches)|
  {
    if batches != [] {
      TotalIsLength(batches[..|batches| - 1]);
    }
  }

  /** What Windows counts for the words of a command line. */
  function Cost(words: seq<string>): nat {
    if words == [] then 0 else Cost(words[..|words| - 1]) + |words[|words| - 1]| + 3
  }

  lemma FlattenAppend(batches: seq<seq<string>>, batch: seq<string>)
    ensures Flatten(batches + [batch]) == Flatten(batches) + batch
  {
    assert (batches + [batch])[..|batches|] == batches;
  }

  lemma CostAppend(words: seq<string>, word: string)
    ensures Cost(words + [word]) == Cost(words) + |word| + 3
  {
    assert (words + [word])[..|words|] == words;
  }

  /** The words one after the other. */
  function Chars(words: seq<string>): string {
    if words == [] then "" else words[0] + Chars(words[1..])
  }

  /** Every word is counted with its quotes and a space. */
  lemma {:induction false} CostIsLength(words: seq<string>)
    ensures Cost(words) == |Chars(words)| + 3 * |words|
  {
    if words != [] {
      CostIsLength(words[1..]);
      CostFront(words);
    }
  }

  lemma {:induction false} CostFront(words: seq<string>)
    requires words != []
    ensures Cost(words) == |words[0]| + 3 + Cost(words[1..])
  {
    var n := |words| - 1;
    if n > 0 {
      CostFront(words[..n]);
      assert words[..n][1..] == words[1..][..n - 1];
    } else {
      assert words[..0] == [] && words[1..] == [];
    }
  }

  predicate Fits(batch: seq<string>, head: nat, limit: nat) {
    batch != [] && (|batch| == 1 || head + Cost(batch) <= limit)
  }

  /** The first file of the next batch had no room left in this one. */
  predicate Full(batch: seq<string>, next: seq<string>, head: nat, limit: nat) {
    next != [] && head + Cost(batch) + |next[0]| + 3 > limit
  }

  /** No batch could take one file more. */
  predicate Packed(batches: seq<seq<string>>, head: nat, limit: nat) {
    forall i :: 0 <= i < |batches| - 1 ==> Full(batches[i], batches[i + 1], head, limit)
  }

  /** Consecutive nonempty pieces of the files, each filled as far as the limit allows. */
  predicate IsSplit(batches: seq<seq<string>>, files: seq<string>, head: nat, limit: nat) {
    && Flatten(batches) == files && Packed(batches, head, limit)
    && forall i :: 0 <= i < |batches| ==> Fits(batches[i], head, limit)
  }

  lemma {:induction false} FlattenFront(batches: seq<seq<string>>)
    requires batches != []
    ensures Flatten(batches) == batches[0] + Flatten(batches[1..])
  {
    var n := |batches| - 1;
    if n > 0 {
      FlattenFront(batches[..n]);
      assert batches[..n][1..] == batches[1..][..n - 1];
      assert batches[1..][n - 1] == batches[n];
    } else {
      assert batches[..0] == [] && batches[1..] == [];
    }
  }

  lemma {:induction false} CostOfPrefix(words: seq<string>, n: nat)
    requires n <= |words|
    ensures Cost(words[..n]) <= Cost(words)
    decreases |words|
  {
    if n < |words| {
      var m := |words| - 1;
      CostOfPrefix(words[..m], n);
      assert words[..m][..n] == words[..n];
    } else {
      assert words[..n] == words;
    }
  }

  lemma SplitTail(batches: seq<seq<string>>, files: seq<string>, head: nat, limit: nat)
    requires IsSplit(batches, files, head, limit) && batches != []
    ensures |batches[0]| <= |files| && batches[0] == files[..|batches[0]|]
    ensures IsSplit(batches[1..], files[|batches[0]|..], head, limit)
  {
    FlattenFront(batches);
    var rest := batches[1..];
    forall i | 0 <= i < |rest| - 1 ensures Full(rest[i], rest[i + 1], head, limit) {
      assert Full(batches[i + 1], batches[i + 2], head, limit);
    }
  }

  /** The first batch could not take the file after it. */
  lemma NextDoesNotFit(batches: seq<seq<string>>, files: seq<string>, head: nat, limit: nat)
    requires IsSplit(batches, files, head, limit) && batches != [] && |batches[0]| < |files|
    ensures head + Cost(files[..|batches[0]| + 1]) > limit
  {
    SplitTail(batches, files, head, limit);
    var n, rest := |batches[0]|, batches[1..];
    assert rest != [];
    SplitTail(rest, files[n..], head, limit);
    assert Fits(batches[1], head, limit) && Full(batches[0], batches[1], head, limit);
    assert batches[1][0] == files[n..][0] == files[n];
    CostAppend(batches[0], files[n]);
    assert files[..n + 1] == batches[0] + [files[n]];
  }

  lemma FirstFits(batches: seq<seq<string>>, files: seq<string>, n: nat, head: nat, limit: nat)
    requires IsSplit(batches, files, head, limit) && batches != [] && 2 <= n <= |batches[0]|
    ensures n <= |files| && head + Cost(files[..n]) <= limit
  {
    SplitTail(batches, files, head, limit);
    assert Fits(batches[0], head, limit);
    CostOfPrefix(batches[0], n);
    assert batches[0][..n] == files[..n];
  }

  /** No split has a shorter first batch than another one. */
  lemma FirstIsFullest(a: seq<seq<string>>, b: seq<seq<string>>, files: seq<string>, head: nat, limit: nat)
    requires IsSplit(a, files, head, limit) && IsSplit(b, files, head, limit) && a != [] && b != []
    ensures |a[0]| >= |b[0]|
  {
    SplitTail(b, files, head, limit);
    assert Fits(a[0], head, limit);
    if |a[0]| < |b[0]| {
      NextDoesNotFit(a, files, head, limit);
      FirstFits(b, files, |a[0]| + 1, head, limit);
    }
  }

  /** There is one split of a list, so what depends on its batches depends on the files and the limit alone. */
  lemma {:induction false} SplitIsUnique(a: seq<seq<string>>, b: seq<seq<string>>, files: seq<string>,
                                         head: nat, limit: nat)
    requires IsSplit(a, files, head, limit) && IsSplit(b, files, head, limit)
    ensures a == b
    decreases |files|
  {
    if files == [] {
      NothingToSplit(a, head, limit);
      NothingToSplit(b, head, limit);
    } else {
      assert a != [] && b != [];
      FirstIsFullest(a, b, files, head, limit);
      FirstIsFullest(b, a, files, head, limit);
      SplitTail(a, files, head, limit);
      SplitTail(b, files, head, limit);
      assert Fits(a[0], head, limit);
      SplitIsUnique(a[1..], b[1..], files[|a[0]|..], head, limit);
      assert a == [a[0]] + a[1..] && b == [b[0]] + b[1..];
    }
  }

  lemma FilesAreThere(batches: seq<seq<string>>)
    requires batches != [] && batches[0] != []
    ensures Flatten(batches) != []
  {
    FlattenFront(batches);
  }

  lemma NothingToSplit(batches: seq<seq<string>>, head: nat, limit: nat)
    requires IsSplit(batches, [], head, limit)
    ensures batches == []
  {
    if batches != [] {
      FilesAreThere(batches);
    }
  }

  /** The number of batches these files are run in. */
  ghost predicate BatchNumber(files: seq<string>, head: nat, limit: nat, n: nat) {
    exists batches :: IsSplit(batches, files, head, limit) && |batches| == n
  }

  /** The files seen so far, in closed batches and an open one. */
  ghost predicate Cut(batches: seq<seq<string>>, batch: seq<string>, seen: seq<string>, head: nat, limit: nat) {
    && Flatten(batches) + batch == seen && (batch == [] ==> batches == []) && (batch != [] ==> Fits(batch, head, limit))
    && (forall i :: 0 <= i < |batches| ==> Fits(batches[i], head, limit)) && Packed(batches, head, limit)
    && (batches != [] ==> Full(batches[|batches| - 1], batch, head, limit))
  }

  lemma JoinBatch(batches: seq<seq<string>>, batch: seq<string>, seen: seq<string>, file: string, head: nat, limit: nat)
    requires Cut(batches, batch, seen, head, limit) && (batch == [] || head + Cost(batch) + |file| + 3 <= limit)
    ensures Cut(batches, batch + [file], seen + [file], head, limit)
  {
    CostAppend(batch, file);
    assert Flatten(batches) + (batch + [file]) == seen + [file];
  }

  lemma CloseBatch(batches: seq<seq<string>>, batch: seq<string>, seen: seq<string>, head: nat, limit: nat)
    requires Cut(batches, batch, seen, head, limit) && batch != []
    ensures Flatten(batches + [batch]) == seen && Packed(batches + [batch], head, limit)
    ensures forall i :: 0 <= i < |batches + [batch]| ==> Fits((batches + [batch])[i], head, limit)
  {
    FlattenAppend(batches, batch);
  }

  lemma NextBatch(batches: seq<seq<string>>, batch: seq<string>, seen: seq<string>, file: string, head: nat, limit: nat)
    requires Cut(batches, batch, seen, head, limit) && batch != [] && head + Cost(batch) + |file| + 3 > limit
    ensures Cut(batches + [batch], [file], seen + [file], head, limit)
  {
    CloseBatch(batches, batch, seen, head, limit);
  }

  /** `testBatches`: the list in consecutive nonempty pieces, each filled as far as the limit allows. */
  method TestBatches(files: seq<string>, head: nat, limit: nat) returns (batches: seq<seq<string>>)
    ensures IsSplit(batches, files, head, limit)
    ensures forall i :: 0 <= i < |batches| ==>
      |batches[i]| == 1 || (|batches[i]| > 1 && head + |Chars(batches[i])| + 3 * |batches[i]| <= limit)
    ensures forall i :: 0 < i < |batches| ==>
      head + |Chars(batches[i - 1] + [batches[i][0]])| + 3 * (|batches[i - 1]| + 1) > limit
  {
    batches := [];
    var batch: seq<string>, length := [], head;
    ghost var seen: seq<string> := [];
    for i := 0 to |files|
      invariant seen == files[..i] && Cut(batches, batch, seen, head, limit) && length == head + Cost(batch)
    {
      batches, batch, length := AddFile(batches, batch, length, files[i], head, limit, seen);
      seen := seen + [files[i]];
    }
    if |batch| > 0 {
      CloseBatch(batches, batch, files, head, limit);
      batches := batches + [batch];
    }
    SplitByLength(batches, files, head, limit);
  }

  lemma SplitByLength(batches: seq<seq<string>>, files: seq<string>, head: nat, limit: nat)
    requires IsSplit(batches, files, head, limit)
    ensures forall i :: 0 <= i < |batches| ==>
      |batches[i]| == 1 || (|batches[i]| > 1 && head + |Chars(batches[i])| + 3 * |batches[i]| <= limit)
    ensures forall i :: 0 < i < |batches| ==>
      batches[i] != [] && head + |Chars(batches[i - 1] + [batches[i][0]])| + 3 * (|batches[i - 1]| + 1) > limit
  {
    forall i | 0 <= i < |batches| ensures Cost(batches[i]) == |Chars(batches[i])| + 3 * |batches[i]| {
      CostIsLength(batches[i]);
    }
    forall i | 0 < i < |batches|
      ensures batches[i] != []
      ensures head + |Chars(batches[i - 1] + [batches[i][0]])| + 3 * (|batches[i - 1]| + 1) > limit
    {
      assert Full(batches[i - 1], batches[i - 1 + 1], head, limit);
      CostAppend(batches[i - 1], batches[i][0]);
      CostIsLength(batches[i - 1] + [batches[i][0]]);
    }
  }

  /** One turn of the loop: the open batch is closed first when the file has no room in it. */
  method AddFile(before: seq<seq<string>>, open: seq<string>, size: nat, file: string, head: nat, limit: nat,
                 ghost seen: seq<string>)
    returns (batches: seq<seq<string>>, batch: seq<string>, length: nat)
    requires Cut(before, open, seen, head, limit) && size == head + Cost(open)
    ensures Cut(batches, batch, seen + [file], head, limit) && length == head + Cost(batch)
  {
    batches, batch, length := before, open, size;
    var cost := |file| + 3;
    if |batch| > 0 && length + cost > limit {
      NextBatch(before, open, seen, file, head, limit);
      batches := batches + [batch];
      batch, length := [], head;
      assert [] + [file] == [file];
    } else {
      JoinBatch(before, open, seen, file, head, limit);
    }
    CostAppend(batch, file);
    batch, length := batch + [file], length + cost;
  }

  // ---------- What happens to a run ----------

  /** How one batch ends: the worker's exit code or an exception, the records of its report, a timeout record. */
  datatype BatchEnd = BatchEnd(threw: bool, code: int, records: seq<Rec>, complete: bool, timeout: Option<Rec>)

  datatype Script = Script(tempOk: bool, templateOk: bool, batchEnd: nat -> BatchEnd, smokeOk: bool, cleanupOk: bool,
                           clock: nat -> nat)

  /** Where a run takes place. A local one has receipts to look at, and answers to everything it asks about them. */
  datatype Mode =
    | Ci
    | Local(receipts: Receipts.Files, now: int, readable: bool, snapshot: Option<Receipts.Snapshot>, ifNeeded: bool,
            sharded: bool, invalidated: bool, after: Option<Receipts.Snapshot>, exactCheckout: bool, kept: bool)

  function SnapshotOf(mode: Mode): Option<Receipts.Snapshot> {
    if mode.Ci? then None else mode.snapshot
  }

  /** `receiptDecision` for this run. */
  function DecisionOf(mode: Mode, docs: bool): Receipts.Decision {
    var kind := if docs then Receipts.TestDocs else Receipts.Test;
    if mode.Ci? then Receipts.ReceiptDecision(map[], kind, None, 0, true, true)
    else Receipts.ReceiptDecision(mode.receipts, kind, mode.snapshot, mode.now, false, mode.readable)
  }

  function ReasonResult(reason: Receipts.Reason): Result {
    match reason
    case CiDisabled => CiDisabled
    case InputsUncertain => InputsUncertain
    case _ => Looked(reason)
  }

  /** Each kind of run has its own receipts. */
  function KindOf(docs: bool): Receipts.Kind {
    match docs
    case true => Receipts.TestDocs
    case false => Receipts.Test
  }

  lemma OutcomeExactly(script: Script, mode: Mode, batches: nat, docs: bool)
    ensures OutcomeOf(script, mode, batches, docs) == Reused <==>
      mode.Local? && mode.ifNeeded && mode.readable && mode.snapshot.Some?
      && Receipts.Fresh(mode.receipts, KindOf(docs), mode.snapshot.value.key, mode.now)
    ensures OutcomeOf(script, mode, batches, docs) in {Reused, Passed, Failed}
  {
    if mode.Local? {
      Receipts.DecisionExactly(mode.receipts, KindOf(docs), mode.snapshot, mode.now, false, mode.readable);
    }
  }

  /** A local run that may answer with a receipt, and has one. */
  predicate Reuses(mode: Mode, docs: bool) {
    mode.Local? && mode.ifNeeded && DecisionOf(mode, docs).reused
  }

  /** How a run ends, by everything that can happen to it. */
  function OutcomeOf(script: Script, mode: Mode, batches: nat, docs: bool): Result {
    if Reuses(mode, docs) then Reused
    else if (mode.Local? ==> mode.invalidated) && AllWell(script, batches, docs) then Passed
    else Failed
  }

  /** A timeout record replaces the record of its file. */
  function Upsert(records: seq<Rec>, rec: Rec): seq<Rec> {
    if records == [] then [rec]
    else if records[0].file == rec.file then [rec] + records[1..]
    else [records[0]] + Upsert(records[1..], rec)
  }

  /** The first record of the file gives way to the new one, and all others stay; without one it comes last. */
  lemma {:induction false} UpsertReplaces(records: seq<Rec>, rec: Rec, k: nat)
    requires k <= |records| && (forall i :: 0 <= i < k ==> records[i].file != rec.file)
    requires k < |records| ==> records[k].file == rec.file
    ensures Upsert(records, rec) == if k < |records| then records[k := rec] else records + [rec]
  {
    if records != [] && k > 0 {
      UpsertReplaces(records[1..], rec, k - 1);
      assert records == [records[0]] + records[1..];
    }
  }

  function Collected(script: Script, n: nat): seq<Rec> {
    if n == 0 then []
    else
      AddBatch(Collected(script, n - 1), script.batchEnd(n - 1))
  }

  function AddBatch(records: seq<Rec>, end: BatchEnd): seq<Rec> {
    var more := records + end.records;
    if end.timeout.Some? then Upsert(more, end.timeout.value) else more
  }

  predicate AllComplete(script: Script, n: nat) {
    forall i :: 0 <= i < n ==> script.batchEnd(i).complete
  }

  predicate BatchesPass(script: Script, n: nat) {
    forall i :: 0 <= i < n ==> !script.batchEnd(i).threw && script.batchEnd(i).code == 0
  }

  lemma OneMoreEnd(script: Script, n: nat)
    ensures BatchesPass(script, n + 1) <==>
      BatchesPass(script, n) && !script.batchEnd(n).threw && script.batchEnd(n).code == 0
    ensures AllComplete(script, n + 1) <==> AllComplete(script, n) && script.batchEnd(n).complete
  {}

  /** Everything the outcome depends on went well. */
  predicate AllWell(script: Script, n: nat, docs: bool) {
    script.tempOk && script.templateOk && BatchesPass(script, n) && (docs ==> script.smokeOk) && script.cleanupOk
  }

  // ---------- The log of a run ----------

  predicate Is(e: Event, name: Phase, fileCount: nat, result: Result) {
    e.name == name && e.fileCount == fileCount && e.result == result
  }

  /** The events up to and including the first `n` batches, all passed. */
  predicate OpeningLog(events: seq<Event>, total: nat, batches: seq<seq<string>>, n: nat) {
    && n <= |batches| && |events| == 3 + n
    && Is(events[0], Fingerprint, total, CiDisabled) && Is(events[1], CacheLookup, total, CiDisabled)
    && Is(events[2], PackedTemplate, total, Passed)
    && forall i :: 0 <= i < n ==> Is(events[3 + i], BatchExecution, |batches[i]|, Passed)
  }

  /** From `start` on, one passed event for each of the first `n` batches. */
  predicate BatchLog(events: seq<Event>, start: nat, batches: seq<seq<string>>, n: nat) {
    && n <= |batches| && |events| == start + n
    && forall i :: 0 <= i < n ==> Is(events[start + i], BatchExecution, |batches[i]|, Passed)
  }

  lemma OneMoreBatch(events: seq<Event>, e: Event, start: nat, batches: seq<seq<string>>, n: nat)
    requires BatchLog(events, start, batches, n) && n < |batches| && Is(e, BatchExecution, |batches[n]|, Passed)
    ensures BatchLog(events + [e], start, batches, n + 1)
  {
    var more := events + [e];
    assert forall i :: 0 <= i < |events| ==> more[i] == events[i];
    assert more[start + n] == e;
  }

  // ---------- The phases of a run ----------

  function Phases(events: seq<Event>): seq<Phase> {
    seq(|events|, i requires 0 <= i < |events| => events[i].name)
  }

  function Repeat(name: Phase, n: nat): seq<Phase> {
    seq(n, _ => name)
  }

  lemma OneMorePhase(before: seq<Event>, events: seq<Event>)
    requires |events| == |before| + 1 && events[..|before|] == before
    ensures Phases(events) == Phases(before) + [events[|before|].name]
  {
    assert forall i :: 0 <= i < |before| ==> events[i] == before[i];
  }

  lemma OneMoreTime(name: Phase, n: nat)
    ensures Repeat(name, n + 1) == Repeat(name, n) + [name]
  {}

  /** The batches that run: all of them, or those up to the first that throws. */
  predicate RanUntil(script: Script, n: nat, k: int) {
    && 0 <= k <= n && (forall i :: 0 <= i < k - 1 ==> !script.batchEnd(i).threw)
    && (k < n ==> k > 0 && script.batchEnd(k - 1).threw)
  }

  /**
    The phases of the tests: the template, batches only with one, the smoke test
    only for documentation of which every batch passed, and always the cleanup.
   */
  ghost predicate TestPhases(phases: seq<Phase>, script: Script, n: nat, docs: bool) {
    if !script.tempOk then phases == []
    else
      var smoke := docs && script.templateOk &&
        forall i :: 0 <= i < n ==> !script.batchEnd(i).threw && script.batchEnd(i).code == 0;
      exists k :: RanUntil(script, if script.templateOk then n else 0, k)
        && phases == [PackedTemplate] + Repeat(BatchExecution, k) + (if smoke then [PackageSmoke] else []) + [Cleanup]
  }

  /** A local success of the whole list and of known inputs has a receipt to keep. */
  predicate Keeps(mode: Mode) {
    mode.Local? && !mode.sharded && mode.snapshot.Some?
  }

  /** The phases after the first two, and before the two about a receipt that is kept. */
  function Tested(events: seq<Event>, kept: bool): seq<Phase> {
    if |events| < 4 then Phases(events)[if |events| < 2 then |events| else 2..]
    else Phases(events)[2..|events| - if kept then 2 else 0]
  }

  lemma TestedStays(tested: seq<Event>, events: seq<Event>, kept: bool)
    requires 2 <= |tested| <= |events| && events[..|tested|] == tested
    requires |events| == |tested| + if kept then 2 else 0
    ensures Tested(events, kept) == Phases(tested)[2..]
  {
    assert forall i :: 0 <= i < |tested| ==> events[i] == tested[i];
    assert Tested(events, kept) == Phases(events)[2..|tested|];
  }

  lemma PhasesAreTold(before: seq<Phase>, k: int, smoke: bool, after: seq<Phase>, script: Script, n: nat, docs: bool)
    requires script.tempOk && RanUntil(script, if script.templateOk then n else 0, k)
    requires after == before + [PackedTemplate] + Repeat(BatchExecution, k) + (if smoke then [PackageSmoke] else [])
      + [Cleanup]
    requires smoke <==> docs && script.templateOk && BatchesPass(script, n)
    ensures TestPhases(after[|before|..], script, n, docs)
  {
    var told := [PackedTemplate] + Repeat(BatchExecution, k) + (if smoke then [PackageSmoke] else []) + [Cleanup];
    assert after == before + told;
    assert after[|before|..] == told;
  }

  /** Every run first notes what it knows of its inputs and what was decided about their receipt. */
  predicate LookLog(events: seq<Event>, total: nat, mode: Mode, docs: bool) {
    && |events| >= 2
    && Is(events[0], Fingerprint, total,
          if mode.Ci? then CiDisabled else if mode.snapshot.Some? then Available else InputsUncertain)
    && events[1].name == CacheLookup && events[1].fileCount == total
    && Reports(events[1].result, DecisionOf(mode, docs).reason)
  }

  /** The result has the name of the reason. */
  predicate Reports(result: Result, reason: Receipts.Reason) {
    match result
    case CiDisabled => reason.CiDisabled?
    case InputsUncertain => reason.InputsUncertain?
    case Looked(named) => named == reason && !reason.CiDisabled? && !reason.InputsUncertain?
    case _ => false
  }

  /** The log of a local run that passed: the tests, and what became of its receipt when it had one to keep. */
  predicate LocalPassLog(events: seq<Event>, total: nat, batches: seq<seq<string>>, mode: Mode, docs: bool)
    requires mode.Local?
  {
    var kept := if mode.sharded || mode.snapshot.None? then 0 else 2;
    && |events| >= kept && TestLog(events[..|events| - kept], 2, total, batches, docs)
    && (kept == 2 ==>
          && Is(events[|events| - 2], Fingerprint, total, if mode.after.Some? then Available else InputsUncertain)
          && Is(events[|events| - 1], ReceiptPersistence, total, Persisted(mode, mode.snapshot.value, docs)))
  }

  /** The log of a run outside CI: it starts by saying so. */
  predicate LocalLog(events: seq<Event>) {
    events != [] && events[0].name == Fingerprint && events[0].result != CiDisabled
  }

  /** The log of a run in which everything went well. */
  predicate CleanLog(events: seq<Event>, total: nat, batches: seq<seq<string>>, docs: bool) {
    var n := 3 + |batches|;
    && |events| == n + (if docs then 3 else 2)
    && OpeningLog(events[..n], total, batches, |batches|)
    && (docs ==> Is(events[n], PackageSmoke, total, Passed))
    && Is(events[|events| - 2], Cleanup, total, Passed) && Is(events[|events| - 1], TotalTime, total, Passed)
  }

  /** The log of any other run: it says at the end that the run failed. */
  predicate FailedLog(events: seq<Event>, total: nat) {
    events != [] && Is(events[|events| - 1], TotalTime, total, Failed)
  }

  class Runner {
    const files: seq<string>
    const docs: bool
    var events: seq<Event>
    var records: seq<Rec>
    var complete: bool
    var outcome: Result
    var decision: Option<Receipts.Decision>
    var inputDigest: Option<string>

    predicate Unused()
      reads this
    {
      events == [] && records == [] && complete && outcome == Failed && decision.None? && inputDigest.None?
    }

    constructor (files: seq<string>, docs: bool)
      ensures this.files == files && this.docs == docs && Unused()
    {
      this.files, this.docs := files, docs;
      events, records, complete, outcome := [], [], true, Failed;
      decision, inputDigest := None, None;
    }

    /** `phase`: the event is appended whether the operation succeeds or throws. */
    method Record(name: Phase, script: Script, ok: bool)
      modifies this`events
      ensures |events| == |old(events)| + 1 && events[..|old(events)|] == old(events)
      ensures Is(events[|old(events)|], name, |files|, if ok then Passed else Failed)
    {
      events := events + [Event(name, |files|, script.clock(|events|), if ok then Passed else Failed)];
    }

    /** The runner overwrites the result, and for a batch the file count, of the event just appended. */
    method Amend(fileCount: nat, result: Result)
      requires events != []
      modifies this`events
      ensures |events| == |old(events)| && events[..|events| - 1] == old(events)[..|events| - 1]
      ensures Is(events[|events| - 1], old(events)[|events| - 1].name, fileCount, result)
    {
      var last := events[|events| - 1];
      events := events[..|events| - 1] + [last.(fileCount := fileCount, result := result)];
    }

    /** A phase whose event gets its own result afterwards. */
    method Tell(name: Phase, script: Script, result: Result)
      modifies this`events
      ensures |events| == |old(events)| + 1 && events[..|old(events)|] == old(events)
      ensures Is(events[|old(events)|], name, |files|, result)
    {
      Record(name, script, true);
      Amend(|files|, result);
    }

    /** The batches one after another; a failed batch does not stop the loop, an exception does. */
    method RunBatches(batches: seq<seq<string>>, script: Script) returns (threw: bool, failed: bool)
      requires records == [] && complete
      modifies this`events, this`records, this`complete
      ensures old(events) <= events
      ensures !threw && !failed <==> BatchesPass(script, |batches|)
      ensures !threw && !failed ==> BatchLog(events, |old(events)|, batches, |batches|)
      ensures !threw ==> records == Collected(script, |batches|) && complete == AllComplete(script, |batches|)
      ensures exists k :: RanUntil(script, |batches|, k) && (threw <==> k > 0 && script.batchEnd(k - 1).threw)
                          && Phases(events) == Phases(old(events)) + Repeat(BatchExecution, k)
    {
      threw, failed := false, false;
      for i := 0 to |batches|
        invariant Phases(events) == Phases(old(events)) + Repeat(BatchExecution, i)
        invariant forall j :: 0 <= j < i ==> !script.batchEnd(j).threw
        invariant old(events) <= events && (!failed <==> BatchesPass(script, i))
        invariant !failed ==> BatchLog(events, |old(events)|, batches, i)
        invariant records == Collected(script, i) && complete == AllComplete(script, i)
      {
        ghost var log := events;
        OneMoreEnd(script, i);
        var raised, passed := RunBatch(batches[i], script.batchEnd(i), script);
        OneMorePhase(log, events);
        OneMoreTime(BatchExecution, i);
        if raised {
          assert RanUntil(script, |batches|, i + 1);
          return true, failed;
        }
        if !passed {
          failed := true;
        } else if !failed {
          OneMoreBatch(log, events[|log|], |old(events)|, batches, i);
        }
      }
      assert RanUntil(script, |batches|, |batches|);
    }

    method RunBatch(batch: seq<string>, end: BatchEnd, script: Script) returns (threw: bool, passed: bool)
      modifies this`events, this`records, this`complete
      ensures |events| == |old(events)| + 1 && events == old(events) + [events[|old(events)|]]
      ensures threw == end.threw && events[|old(events)|].name == BatchExecution
      ensures !threw ==> (passed <==> end.code == 0)
      ensures !threw ==> Is(events[|old(events)|], BatchExecution, |batch|, if passed then Passed else Failed)
      ensures !threw ==> records == AddBatch(old(records), end) && complete == (old(complete) && end.complete)
    {
      Record(BatchExecution, script, !end.threw);
      if end.threw { return true, false; }
      passed := end.code == 0;
      Amend(|batch|, if passed then Passed else Failed);
      threw, complete := false, complete && end.complete;
      records := records + end.records;
      if end.timeout.Some? { records := Upsert(records, end.timeout.value); }
    }

    /**
      The tests themselves: template, batches, smoke test of a documentation run,
      cleanup; false when it throws or fails.
     */
    method RunAll(batches: seq<seq<string>>, script: Script) returns (passed: bool)
      requires records == [] && complete
      modifies this`events, this`records, this`complete
      ensures old(events) <= events && (passed <==> AllWell(script, |batches|, docs))
      ensures passed ==> records == Collected(script, |batches|) && complete == AllComplete(script, |batches|)
      ensures passed ==> TestLog(events, |old(events)|, |files|, batches, docs)
      ensures TestPhases(Phases(events)[|old(events)|..], script, |batches|, docs)
    {
      if !script.tempOk { return false; }
      var threw, failed, k := RunTemplate(batches, script);
      ghost var before := events;
      var smoke := !threw && !failed && docs;
      if smoke {
        Record(PackageSmoke, script, script.smokeOk);
        OneMorePhase(before, events);
        threw := !script.smokeOk;
        before := events;
      }
      Record(Cleanup, script, script.cleanupOk);
      OneMorePhase(before, events);
      PhasesAreTold(Phases(old(events)), k, smoke, Phases(events), script, |batches|, docs);
      passed := !threw && script.cleanupOk && !failed;
    }

    /** The template, and the batches when there is one. */
    method RunTemplate(batches: seq<seq<string>>, script: Script) returns (threw: bool, failed: bool, ghost k: int)
      requires records == [] && complete && script.tempOk
      modifies this`events, this`records, this`complete
      ensures |old(events)| < |events| && old(events) <= events
      ensures !threw && !failed <==> script.templateOk && BatchesPass(script, |batches|)
      ensures !threw && !failed ==> Is(events[|old(events)|], PackedTemplate, |files|, Passed)
      ensures !threw && !failed ==> BatchLog(events, |old(events)| + 1, batches, |batches|)
      ensures !threw ==> records == Collected(script, |batches|) && complete == AllComplete(script, |batches|)
      ensures RanUntil(script, if script.templateOk then |batches| else 0, k)
      ensures Phases(events) == Phases(old(events)) + [PackedTemplate] + Repeat(BatchExecution, k)
    {
      Record(PackedTemplate, script, script.templateOk);
      OneMorePhase(old(events), events);
      threw, failed, k := !script.templateOk, false, 0;
      if !threw {
        threw, failed := RunBatches(batches, script);
        k :| RanUntil(script, |batches|, k) && (threw <==> k > 0 && script.batchEnd(k - 1).threw)
          && Phases(events) == Phases(old(events)) + [PackedTemplate] + Repeat(BatchExecution, k);
      }
    }

    /** `execute`: fingerprint, receipt, the tests unless a receipt answers, and in a local run a receipt in the end. */
    method Execute(batches: seq<seq<string>>, script: Script, mode: Mode)
      requires Unused()
      modifies this
      ensures outcome == OutcomeOf(script, mode, |batches|, docs)
      // Only a fresh receipt of its own kind answers a run, and only when a local run asks for it.
      ensures outcome == Reused <==>
        && mode.Local? && mode.ifNeeded && mode.readable && mode.snapshot.Some?
        && Receipts.Fresh(mode.receipts, KindOf(docs), mode.snapshot.value.key, mode.now)
      // Otherwise it passes exactly when older receipts could be removed and nothing went wrong.
      ensures outcome == Passed <==>
        && outcome != Reused && (mode.Local? ==> mode.invalidated) && script.tempOk && script.templateOk
        && (forall i :: 0 <= i < |batches| ==> !script.batchEnd(i).threw && script.batchEnd(i).code == 0)
        && (docs ==> script.smokeOk) && script.cleanupOk
      ensures decision == Some(DecisionOf(mode, docs))
      ensures LookLog(events, |files|, mode, docs)
      ensures outcome == Reused || (mode.Local? && !mode.invalidated) ==> |events| == 2
      ensures outcome != Reused && (mode.Local? ==> mode.invalidated) ==>
        TestPhases(Tested(events, outcome == Passed && Keeps(mode)), script, |batches|, docs)
      ensures mode.Local? && outcome == Passed ==> LocalPassLog(events, |files|, batches, mode, docs)
      ensures inputDigest == if SnapshotOf(mode).Some? then Some(SnapshotOf(mode).value.key) else None
      ensures mode.Local? ==> LocalLog(events)
      ensures mode.Ci? && outcome == Passed ==>
        && records == Collected(script, |batches|) && complete == AllComplete(script, |batches|)
        && CleanStart(events, |files|, batches, docs)
    {
      Look(script, mode);
      OutcomeExactly(script, mode, |batches|, docs);
      ghost var start := events;
      if mode.Local? && mode.ifNeeded && decision.value.reused {
        outcome := Reused;
        return;
      }
      if mode.Local? && !mode.invalidated { return; }
      RunAndKeep(batches, script, mode);
      assert events[0] == start[0] && events[1] == start[1];
    }

    /** The tests, and the receipt of a success that may keep one. */
    method RunAndKeep(batches: seq<seq<string>>, script: Script, mode: Mode)
      requires records == [] && complete && outcome == Failed && |events| == 2
      modifies this`events, this`records, this`complete, this`outcome
      ensures old(events) <= events
      ensures outcome == if AllWell(script, |batches|, docs) then Passed else Failed
      ensures outcome == Passed ==>
        records == Collected(script, |batches|) && complete == AllComplete(script, |batches|)
      ensures TestPhases(Tested(events, outcome == Passed && Keeps(mode)), script, |batches|, docs)
      ensures mode.Local? && outcome == Passed ==> LocalPassLog(events, |files|, batches, mode, docs)
      ensures mode.Ci? && outcome == Passed ==> TestLog(events, 2, |files|, batches, docs)
    {
      var passed := RunAll(batches, script);
      if passed { outcome := Passed; }
      ghost var tested := events;
      if passed && mode.Local? && !mode.sharded && mode.snapshot.Some? {
        Keep(script, mode, mode.snapshot.value);
      }
      assert events[..|tested|] == tested;
      TestedStays(tested, events, passed && Keeps(mode));
    }

    /** The fingerprint of the inputs and the decision about their receipt. */
    method Look(script: Script, mode: Mode)
      requires events == []
      modifies this`events, this`decision, this`inputDigest
      ensures decision == Some(DecisionOf(mode, docs))
      ensures inputDigest == if SnapshotOf(mode).Some? then Some(SnapshotOf(mode).value.key) else None
      ensures |events| == 2 && (mode.Local? ==> LocalLog(events)) && LookLog(events, |files|, mode, docs)
      ensures mode.Ci? ==>
        Is(events[0], Fingerprint, |files|, CiDisabled) && Is(events[1], CacheLookup, |files|, CiDisabled)
    {
      var snapshot := SnapshotOf(mode);
      Tell(Fingerprint, script, if mode.Ci? then CiDisabled else if snapshot.Some? then Available else InputsUncertain);
      inputDigest := if snapshot.Some? then Some(snapshot.value.key) else None;
      decision := Some(DecisionOf(mode, docs));
      ghost var first := events[0];
      Tell(CacheLookup, script, ReasonResult(decision.value.reason));
      assert events[0] == first;
    }

    /** The inputs are looked at again, and a receipt is kept when they held still. */
    method Keep(script: Script, mode: Mode, snapshot: Receipts.Snapshot)
      requires mode.Local?
      modifies this`events
      ensures old(events) <= events && |events| == |old(events)| + 2
      ensures Is(events[|events| - 2], Fingerprint, |files|, if mode.after.Some? then Available else InputsUncertain)
      ensures Is(events[|events| - 1], ReceiptPersistence, |files|, Persisted(mode, snapshot, docs))
    {
      Tell(Fingerprint, script, if mode.after.Some? then Available else InputsUncertain);
      Tell(ReceiptPersistence, script, Persisted(mode, snapshot, docs));
    }

    /** The final block: whatever happened, the total is reported last. */
    method Report(batches: seq<seq<string>>, script: Script, mode: Mode)
      requires Unused()
      modifies this
      ensures outcome == OutcomeOf(script, mode, |batches|, docs)
      ensures decision == Some(DecisionOf(mode, docs))
      ensures inputDigest == if SnapshotOf(mode).Some? then Some(SnapshotOf(mode).value.key) else None
      ensures events != [] && Is(events[|events| - 1], TotalTime, |files|, outcome)
      ensures mode.Local? ==> LocalLog(events)
      ensures mode.Ci? && outcome == Passed ==>
        && CleanLog(events, |files|, batches, docs)
        && records == Collected(script, |batches|) && complete == AllComplete(script, |batches|)
    {
      Execute(batches, script, mode);
      ghost var before := events;
      events := events + [Event(TotalTime, |files|, script.clock(|events|), outcome)];
      if mode.Ci? && outcome == Passed {
        CleanEnd(before, events[|before|], |files|, batches, docs);
      }
    }
  }

  /** What a local run that passed says about its receipt. */
  function Persisted(mode: Mode, snapshot: Receipts.Snapshot, docs: bool): Result
    requires mode.Local?
  {
    if mode.after.None? then InputsUncertain
    else if mode.after == Some(snapshot) && (docs ==> mode.exactCheckout)
    then (if mode.kept then Saved else Unavailable)
    else if mode.after.value.key != snapshot.key then FingerprintChanged
    else ObservationChanged
  }

  /** What is said about the receipt: it is saved exactly when the inputs held still and saving worked. */
  lemma PersistedExactly(mode: Mode, snapshot: Receipts.Snapshot, docs: bool)
    requires mode.Local?
    ensures var said := Persisted(mode, snapshot, docs);
      var still := mode.after.Some? && mode.after.value.key == snapshot.key && mode.after.value.stamp == snapshot.stamp
        && (mode.exactCheckout || !docs);
      && (said == Saved <==> still && mode.kept) && (said == Unavailable <==> still && !mode.kept)
      && (said == InputsUncertain <==> mode.after.None?)
      && (said == FingerprintChanged <==> mode.after.Some? && mode.after.value.key != snapshot.key)
      && (said == ObservationChanged <==> mode.after.Some? && mode.after.value.key == snapshot.key && !still)
  {}

  /** From `start` on: the template, the batches, the smoke test of a documentation run and the cleanup, all passed. */
  predicate TestLog(events: seq<Event>, start: nat, total: nat, batches: seq<seq<string>>, docs: bool) {
    var n := start + 1 + |batches|;
    && |events| == n + (if docs then 2 else 1)
    && Is(events[start], PackedTemplate, total, Passed)
    && (forall i :: 0 <= i < |batches| ==> Is(events[start + 1 + i], BatchExecution, |batches[i]|, Passed))
    && (docs ==> Is(events[n], PackageSmoke, total, Passed)) && Is(events[|events| - 1], Cleanup, total, Passed)
  }

  /** A clean log but for its last event. */
  predicate CleanStart(events: seq<Event>, total: nat, batches: seq<seq<string>>, docs: bool) {
    && |events| >= 2 && Is(events[0], Fingerprint, total, CiDisabled) && Is(events[1], CacheLookup, total, CiDisabled)
    && TestLog(events, 2, total, batches, docs)
  }

  lemma CleanEnd(events: seq<Event>, last: Event, total: nat, batches: seq<seq<string>>, docs: bool)
    requires CleanStart(events, total, batches, docs) && Is(last, TotalTime, total, Passed)
    ensures CleanLog(events + [last], total, batches, docs)
  {
    var n, log := 3 + |batches|, events + [last];
    forall i | 0 <= i < |batches| ensures Is(log[..n][3 + i], BatchExecution, |batches[i]|, Passed) {
      assert log[..n][3 + i] == events[2 + 1 + i];
    }
  }
}
