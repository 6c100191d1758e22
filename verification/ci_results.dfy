/**
  CI completion as evidence (scripts/ci-results.mjs, the worker table of
  scripts/ci-plan.mjs): which manifest earns a proof, and which proofs make a
  platform complete.
 */
module CiResults {
  import opened Options
  import opened Text
  import opened Decimals
  import opened Json
  import opened JsonText
  import opened RawDiff
  import opened ChangeFacts
  import opened GatePlan
  import opened TestRun
  import opened Shards
  import opened GateDiagnostics

  // ---------- Workers ----------

  datatype Worker =
    | FullLinux | FullMacos | FullWindows1 | FullWindows2
    | DocsLinux | DocsMacos | DocsWindows
    | PackageUbuntu | PackageMacos | PackageWindows | ClientsUbuntu | ClientsWindows

  predicate IsTest(w: Worker) {
    !w.PackageUbuntu? && !w.PackageMacos? && !w.PackageWindows? && !w.ClientsUbuntu? && !w.ClientsWindows?
  }

  function PlatformOf(w: Worker): Platform {
    match w
    case FullLinux => Linux case DocsLinux => Linux case PackageUbuntu => Linux case ClientsUbuntu => Linux
    case FullMacos => Darwin case DocsMacos => Darwin case PackageMacos => Darwin
    case FullWindows1 => Win32 case FullWindows2 => Win32 case DocsWindows => Win32
    case PackageWindows => Win32 case ClientsWindows => Win32
  }

  function ScopeOf(w: Worker): Scope
    requires IsTest(w)
  {
    if w.DocsLinux? || w.DocsMacos? || w.DocsWindows? then DocsScope else FullScope
  }

  function ShardOf(w: Worker): (s: Option<Shard>)
    ensures s.Some? ==> IsShard(s.value)
  {
    if w.FullWindows1? then Some(Shard(1, 2)) else if w.FullWindows2? then Some(Shard(2, 2)) else None
  }

  /** `platformTestWorkers`, sorted by worker id. */
  function PlatformWorkers(platform: Platform): seq<Worker> {
    match platform
    case Linux => [DocsLinux, FullLinux]
    case Darwin => [DocsMacos, FullMacos]
    case Win32 => [DocsWindows, FullWindows1, FullWindows2]
    case AnotherPlatform => []
  }

  lemma PlatformWorkersAreTheTests(platform: Platform, w: Worker)
    requires !platform.AnotherPlatform?
    ensures w in PlatformWorkers(platform) <==> IsTest(w) && PlatformOf(w) == platform
  {
    match platform
    case Linux => assert PlatformWorkers(platform)[0] == DocsLinux && PlatformWorkers(platform)[1] == FullLinux;
    case Darwin => assert PlatformWorkers(platform)[0] == DocsMacos && PlatformWorkers(platform)[1] == FullMacos;
    case Win32 =>
      assert PlatformWorkers(platform)[0] == DocsWindows && PlatformWorkers(platform)[1] == FullWindows1
        && PlatformWorkers(platform)[2] == FullWindows2;
  }

  // ---------- Expected proofs ----------

  /** `^v24\.\d+\.\d+$` */
  predicate Node24(s: string) {
    PlainVersion(s) && Split('.', s[1..])[0] == "24"
  }

  predicate Relative(file: string) {
    TestPath(file) && ':' !in file && '\\' !in file
    && forall i :: 0 <= i < |Split('/', file)| ==> Split('/', file)[i] !in ["", ".", ".."]
  }

  /** A worker's claim that its files ran; it names the planner's route and the attempt it ran in. */
  datatype Proof = Proof(worker: Worker, routeDigest: string, runId: Option<Tree>, runAttempt: string,
                         targetCommit: Option<Tree>, targetTree: Option<Tree>, planDigest: Option<Tree>,
                         scope: Scope, platform: Platform, node: string, shard: Option<Shard>,
                         fileCount: nat, filesDigest: string, concurrency: nat, packageSmoke: bool)

  function ScopeText(scope: Scope): string {
    if scope == DocsScope then "docs" else "full"
  }

  predicate SameFacts(route: Json, plan: Json) {
    && Field(route, "targetCommit") == Field(plan, "targetCommit")
    && Field(route, "targetTree") == Field(plan, "targetTree")
    && Field(route, "planDigest") == Field(plan, "planDigest")
    && Field(route, "selectionDigest") == Field(plan, "selectionDigest")
    && Field(route, "discoveryDigest") == Field(plan, "discoveryDigest")
  }

  function RouteAttempt(route: Json): Option<string> {
    var attempt := Text1(Field(route, "runAttempt"));
    if attempt.Some? && Positive(attempt.value) then attempt else None
  }

  predicate InTime(route: Json, attempt: string) {
    RouteAttempt(route).Some? && Positive(attempt) && Value(attempt) >= Value(RouteAttempt(route).value)
  }

  /** The selected files, when they are a nonempty sorted list of test paths. */
  function Selected(plan: Json): Option<seq<string>> {
    var files := Strings(Field(plan, "selectedFiles"));
    if files.Some? && files.value != [] && files.value == SortUnique(files.value)
      && (forall i :: 0 <= i < |files.value| ==> Relative(files.value[i])) then files else None
  }

  predicate Fitting(route: Json, plan: Json, w: Worker, node: string, attempt: string) {
    && InTime(route, attempt) && IsTest(w) && Node24(node) && SameFacts(route, plan)
    && Field(route, "scope") == Some(TStr(ScopeText(ScopeOf(w)))) && Field(plan, "scope") == Field(route, "scope")
    && Selected(plan).Some? && ShardFiles(Selected(plan).value, ShardOf(w)).Some?
  }

  function FilesOf(plan: Json, w: Worker): seq<string>
    requires Selected(plan).Some? && ShardFiles(Selected(plan).value, ShardOf(w)).Some?
  {
    ShardFiles(Selected(plan).value, ShardOf(w)).value
  }

  function Concurrency(w: Worker): nat {
    if PlatformOf(w) == Win32 then 3 else 4
  }

  /** `expectedProof`. */
  function ExpectedProof(hash: Hash, route: Json, plan: Json, w: Worker, node: string, attempt: string): Proof
    requires Fitting(route, plan, w, node, attempt)
  {
    var files := FilesOf(plan, w);
    Proof(w, HashPlan(hash, route), Field(route, "runId"), attempt,
          Field(route, "targetCommit"), Field(route, "targetTree"),
          Field(route, "planDigest"), ScopeOf(w), PlatformOf(w), node, ShardOf(w), |files|, Digest(hash, files),
          Concurrency(w), ScopeOf(w) == DocsScope)
  }

  // ---------- Manifests ----------

  /** The identity every event must carry; absent when the route lacks a fact it needs. */
  function Identity(route: Json, plan: Json, w: Worker, node: string): Option<Stamp>
    requires IsTest(w)
  {
    var commit, tree := Text1(Field(route, "targetCommit")), Text1(Field(route, "targetTree"));
    var planDigest, selectionDigest := Text1(Field(plan, "planDigest")), Text1(Field(plan, "selectionDigest"));
    var docs := ScopeOf(w) == DocsScope;
    if commit.None? || tree.None? || (docs && (planDigest.None? || selectionDigest.None?)) then None
    else Some(Stamp(commit, tree, PlatformOf(w), Some(node), ScopeOf(w), if docs then planDigest else None,
                    if docs then selectionDigest else None, ShardOf(w), Concurrency(w), true))
  }

  function Count(events: seq<OutEvent>, name: Phase): nat {
    if events == [] then 0
    else Count(events[..|events| - 1], name) + if events[|events| - 1].event.name == name then 1 else 0
  }

  function BatchSum(events: seq<OutEvent>): nat {
    if events == [] then 0
    else
      var e := events[|events| - 1].event;
      BatchSum(events[..|events| - 1]) + if e.name == BatchExecution then e.fileCount else 0
  }

  predicate EventOk(id: Stamp, n: nat, e: OutEvent) {
    && e.stamp == id && e.event.fileCount >= 1
    && e.event.result == (if e.event.name == Fingerprint || e.event.name == CacheLookup then CiDisabled else Passed)
    && (e.event.name == BatchExecution || e.event.fileCount == n)
  }

  predicate Allowed(name: Phase, smoke: bool) {
    match name
    case PackageSmoke => smoke
    case ReceiptPersistence => false
    case _ => true
  }

  predicate EventsOk(id: Stamp, n: nat, smoke: bool, events: seq<OutEvent>) {
    && events != [] && (forall i :: 0 <= i < |events| ==> EventOk(id, n, events[i]))
    && PhasesOk(n, smoke, events) && events[|events| - 1].event.name == TotalTime
  }

  /** Every phase the right number of times, no other phase, and batches that add up to the files. */
  predicate PhasesOk(n: nat, smoke: bool, events: seq<OutEvent>) {
    && (forall i :: 0 <= i < |events| ==> Allowed(events[i].event.name, smoke))
    && Count(events, Fingerprint) == 1 && Count(events, CacheLookup) == 1 && Count(events, PackedTemplate) == 1
    && Count(events, Cleanup) == 1 && Count(events, TotalTime) == 1 && (smoke ==> Count(events, PackageSmoke) == 1)
    && Count(events, BatchExecution) > 0 && BatchSum(events) == n
  }

  function Names(files: seq<Rec>): seq<string> {
    seq(|files|, i requires 0 <= i < |files| => files[i].file)
  }

  predicate FilesOk(files: seq<string>, m: Manifest) {
    && |m.files| == |files| && (forall i :: 0 <= i < |m.files| ==> Relative(m.files[i].file) && m.files[i].success)
    && Sort(ByText, Names(m.files)) == files
    && m.counts == Counts(|files|, Some(|files|), Some(|files|), Some(0))
  }

  /** What a manifest must say to earn the proof of its worker. */
  predicate Accepts(id: Stamp, files: seq<string>, smoke: bool, m: Manifest) {
    && m.decision == Some(Receipts.Decision(false, Receipts.CiDisabled)) && m.inputDigest.None?
    && FilesOk(files, m) && EventsOk(id, |files|, smoke, m.events)
  }

  method VerifyFiles(files: seq<string>, m: Manifest) returns (ok: bool)
    ensures ok <==> FilesOk(files, m)
  {
    if |m.files| != |files| { return false; }
    var actual: seq<string> := [];
    for i := 0 to |m.files|
      invariant forall j :: 0 <= j < i ==> Relative(m.files[j].file) && m.files[j].success
      invariant |actual| == i && forall j :: 0 <= j < i ==> actual[j] == m.files[j].file
    {
      if !Relative(m.files[i].file) || !m.files[i].success { return false; }
      actual := actual + [m.files[i].file];
    }
    assert actual == Names(m.files);
    return Sort(ByText, actual) == files && m.counts == Counts(|files|, Some(|files|), Some(|files|), Some(0));
  }

  function At(phases: map<Phase, nat>, name: Phase): nat {
    if name in phases then phases[name] else 0
  }

  /** `phases` counts the events by name. */
  ghost predicate Tallies(phases: map<Phase, nat>, events: seq<OutEvent>) {
    forall name :: At(phases, name) == Count(events, name) && (name in phases <==> Count(events, name) > 0)
  }

  /** The loop over the events: each is checked and counted. */
  method TallyEvents(id: Stamp, n: nat, events: seq<OutEvent>)
    returns (ok: bool, phases: map<Phase, nat>, batchCount: nat)
    ensures ok <==> forall i :: 0 <= i < |events| ==> EventOk(id, n, events[i])
    ensures ok ==> Tallies(phases, events) && batchCount == BatchSum(events)
  {
    ok, phases, batchCount := true, map[], 0;
    for i := 0 to |events|
      invariant ok && forall j :: 0 <= j < i ==> EventOk(id, n, events[j])
      invariant Tallies(phases, events[..i]) && batchCount == BatchSum(events[..i])
    {
      if !EventOk(id, n, events[i]) { return false, phases, batchCount; }
      OneMoreTally(phases, events, i);
      var e := events[i].event;
      phases := phases[e.name := At(phases, e.name) + 1];
      if e.name == BatchExecution { batchCount := batchCount + e.fileCount; }
    }
    assert events[..|events|] == events;
  }

  lemma OneMoreTally(phases: map<Phase, nat>, events: seq<OutEvent>, i: nat)
    requires i < |events| && Tallies(phases, events[..i])
    ensures Tallies(phases[events[i].event.name := At(phases, events[i].event.name) + 1], events[..i + 1])
    ensures BatchSum(events[..i + 1]) ==
      BatchSum(events[..i]) + if events[i].event.name == BatchExecution then events[i].event.fileCount else 0
  {
    assert events[..i + 1][..i] == events[..i];
  }

  method VerifyEvents(id: Stamp, n: nat, smoke: bool, events: seq<OutEvent>) returns (ok: bool)
    ensures ok <==> EventsOk(id, n, smoke, events)
  {
    if events == [] { return false; }
    var phases, batchCount;
    ok, phases, batchCount := TallyEvents(id, n, events);
    if !ok { return; }
    NamesAreCounted(events, smoke);
    ok := At(phases, Fingerprint) == 1 && At(phases, CacheLookup) == 1 && At(phases, PackedTemplate) == 1
      && At(phases, Cleanup) == 1 && At(phases, TotalTime) == 1 && (smoke ==> At(phases, PackageSmoke) == 1)
      && At(phases, BatchExecution) > 0 && batchCount == n
      && (forall name :: name in phases ==> Allowed(name, smoke)) && events[|events| - 1].event.name == TotalTime;
  }

  lemma NamesAreCounted(events: seq<OutEvent>, smoke: bool)
    ensures (forall i :: 0 <= i < |events| ==> Allowed(events[i].event.name, smoke)) <==>
      forall name :: Count(events, name) > 0 ==> Allowed(name, smoke)
  {
    forall name ensures Count(events, name) > 0 <==> exists i :: 0 <= i < |events| && events[i].event.name == name {
      CountMembers(events, name);
    }
  }

  lemma {:induction false} CountMembers(events: seq<OutEvent>, name: Phase)
    ensures Count(events, name) > 0 <==> exists i :: 0 <= i < |events| && events[i].event.name == name
  {
    if events != [] {
      CountMembers(events[..|events| - 1], name);
      assert forall i :: 0 <= i < |events| - 1 ==> events[..|events| - 1][i] == events[i];
    }
  }

  method VerifyAgainst(id: Stamp, files: seq<string>, smoke: bool, m: Manifest) returns (ok: bool)
    ensures ok <==> Accepts(id, files, smoke, m)
  {
    if m.decision != Some(Receipts.Decision(false, Receipts.CiDisabled)) || m.inputDigest.Some? { return false; }
    ok := VerifyFiles(files, m);
    if ok { ok := VerifyEvents(id, |files|, smoke, m.events); }
  }

  method VerifyIdentity(id: Option<Stamp>, files: seq<string>, smoke: bool, m: Manifest) returns (ok: bool)
    ensures ok <==> id.Some? && Accepts(id.value, files, smoke, m)
  {
    ok := id.Some?;
    if ok { ok := VerifyAgainst(id.value, files, smoke, m); }
  }

  /** The manifest earns the proof of this worker for this route and attempt. */
  predicate Earns(m: Manifest, route: Json, plan: Json, w: Worker, node: string, attempt: string) {
    Fitting(route, plan, w, node, attempt) &&
    var id := Identity(route, plan, w, node);
    id.Some? && Accepts(id.value, FilesOf(plan, w), ScopeOf(w) == DocsScope, m)
  }

  /** `verifyCiTestManifest`: the proof, or a refusal. */
  method VerifyCiTestManifest(hash: Hash, m: Manifest, route: Json, plan: Json, w: Worker, node: string,
                              attempt: string)
    returns (proof: Option<Proof>)
    ensures proof.Some? <==> Earns(m, route, plan, w, node, attempt)
    ensures proof.Some? ==> proof == Some(ExpectedProof(hash, route, plan, w, node, attempt))
  {
    var earned := VerifyWorker(m, route, plan, w, node, attempt);
    proof := if earned then Some(ExpectedProof(hash, route, plan, w, node, attempt)) else None;
  }

  method VerifyWorker(m: Manifest, route: Json, plan: Json, w: Worker, node: string, attempt: string) returns (ok: bool)
    ensures ok <==> Earns(m, route, plan, w, node, attempt)
  {
    ok := Fitting(route, plan, w, node, attempt);
    if ok {
      ok := VerifyIdentity(Identity(route, plan, w, node), FilesOf(plan, w), ScopeOf(w) == DocsScope, m);
    }
  }
}
