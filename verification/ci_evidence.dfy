/**
  What counts as evidence of a CI run, written out
  (scripts/ci-results.mjs, the worker table of scripts/ci-plan.mjs).
 */
module CiEvidence {
  import opened Options
  import opened Text
  import opened Decimals
  import opened Json
  import opened JsonText
  import opened RawDiff
  import opened ChangeFacts
  import opened PlanFacts
  import opened TestRun
  import opened Shards
  import opened GateDiagnostics
  import opened CiResults
  import opened CiAggregate
  import GatePlan

  // ---------- The worker table ----------

  datatype Row = Row(platform: Platform, scope: Scope, shard: Option<Shard>, concurrency: nat)

  /** The test workers; three files at a time on Windows, four elsewhere. */
  function TestRow(w: Worker): Option<Row> {
    match w
    case FullLinux => Some(Row(Linux, FullScope, None, 4))
    case FullMacos => Some(Row(Darwin, FullScope, None, 4))
    case FullWindows1 => Some(Row(Win32, FullScope, Some(Shard(1, 2)), 3))
    case FullWindows2 => Some(Row(Win32, FullScope, Some(Shard(2, 2)), 3))
    case DocsLinux => Some(Row(Linux, DocsScope, None, 4))
    case DocsMacos => Some(Row(Darwin, DocsScope, None, 4))
    case DocsWindows => Some(Row(Win32, DocsScope, None, 3))
    case _ => None
  }

  lemma TableExactly(w: Worker)
    ensures IsTest(w) <==> TestRow(w).Some?
    ensures IsTest(w) ==> TestRow(w) == Some(Row(PlatformOf(w), ScopeOf(w), ShardOf(w), Concurrency(w)))
  {}

  // ---------- Versions and paths ----------

  /** Version 24 with two more numbers. */
  ghost predicate NodeVersion(s: string) {
    exists minor, patch :: s == "v24." + minor + "." + patch && Number(minor) && Number(patch)
  }

  lemma NoDots(s: string)
    requires Number(s)
    ensures '.' !in s
  {}

  lemma NodeVersions(s: string)
    ensures Node24(s) <==> NodeVersion(s)
  {
    if Node24(s) {
      var parts := Split('.', s[1..]);
      SplitThenJoin('.', s[1..]);
      JoinOfThree('.', parts);
      assert s == "v" + s[1..];
      assert s == "v24." + parts[1] + "." + parts[2];
    }
    if NodeVersion(s) {
      var minor, patch :| s == "v24." + minor + "." + patch && Number(minor) && Number(patch);
      var parts := ["24", minor, patch];
      NoDots(minor);
      NoDots(patch);
      JoinThenSplit('.', parts);
      JoinOfThree('.', parts);
      assert s[1..] == Join('.', parts);
      assert Number("24");
    }
  }

  lemma JoinOfThree(sep: char, parts: seq<string>)
    requires |parts| == 3
    ensures Join(sep, parts) == parts[0] + [sep] + parts[1] + [sep] + parts[2]
  {
    assert parts[1..][1..] == [parts[2]];
    assert Join(sep, parts[1..]) == parts[1] + [sep] + parts[2];
  }

  // ---------- What survives in a manifest ----------

  predicate ThreeNumbers(major: string, minor: string, patch: string) {
    Number(major) && Number(minor) && Number(patch)
  }

  predicate Joins(s: string, major: string, minor: string, patch: string) {
    s == "v" + major + "." + minor + "." + patch && ThreeNumbers(major, minor, patch)
  }

  ghost predicate NumbersOnly(s: string) {
    exists major, minor, patch :: Joins(s, major, minor, patch)
  }

  lemma VersionsOfNumbers(s: string)
    ensures PlainVersion(s) <==> NumbersOnly(s)
  {
    if PlainVersion(s) {
      var parts := Split('.', s[1..]);
      SplitThenJoin('.', s[1..]);
      JoinOfThree('.', parts);
      assert s == "v" + s[1..];
      assert Joins(s, parts[0], parts[1], parts[2]);
    }
    if NumbersOnly(s) {
      var major, minor, patch :| Joins(s, major, minor, patch);
      NoDots(major);
      NoDots(minor);
      NoDots(patch);
      JoinThenSplit('.', [major, minor, patch]);
      JoinOfThree('.', [major, minor, patch]);
      assert s[1..] == Join('.', [major, minor, patch]);
    }
  }

  /** A dash and some letters, digits, dots and dashes. */
  predicate IsTag(tag: string) {
    |tag| > 1 && tag[0] == '-' && forall c :: c in tag ==> BranchChar(c) && c != '_' && c != '/'
  }

  ghost predicate Tagged(s: string) {
    exists version, tag :: s == version + tag && NumbersOnly(version) && IsTag(tag)
  }

  lemma TagChars(c: char)
    ensures TagChar(c) <==> BranchChar(c) && c != '_' && c != '/'
  {
    RefChars(c);
  }

  lemma TagsAreChars(tag: string)
    ensures IsTag(tag) <==> |tag| > 1 && tag[0] == '-' && forall j :: 0 < j < |tag| ==> TagChar(tag[j])
  {
    forall j | 0 <= j < |tag| ensures tag[j] in tag && (TagChar(tag[j]) <==> BranchChar(tag[j]) && tag[j] !in "_/") {
      TagChars(tag[j]);
    }
    TagChars('-');
  }

  lemma TaggedAt(s: string, i: nat)
    requires i < |s| - 1
    ensures NumbersOnly(s[..i]) && IsTag(s[i..]) <==>
      s[i] == '-' && PlainVersion(s[..i]) && forall j :: i < j < |s| ==> TagChar(s[j])
  {
    VersionsOfNumbers(s[..i]);
    TagsAreChars(s[i..]);
    assert forall j :: i < j < |s| ==> s[j] == s[i..][j - i];
    assert forall j :: 0 < j < |s[i..]| ==> s[i..][j] == s[i + j];
  }

  lemma VersionsAreTagged(s: string)
    ensures Version(s) <==> NumbersOnly(s) || Tagged(s)
  {
    VersionsOfNumbers(s);
    if i :| 0 <= i < |s| - 1 && s[i] == '-' && PlainVersion(s[..i]) && forall j :: i < j < |s| ==> TagChar(s[j]) {
      TaggedAt(s, i);
      assert s == s[..i] + s[i..];
    }
    if Tagged(s) {
      var version, tag :| s == version + tag && NumbersOnly(version) && IsTag(tag);
      assert s[..|version|] == version && s[|version|..] == tag;
      TaggedAt(s, |version|);
    }
  }

  lemma CleanNames(s: Stamp)
    ensures forall c :: Clean(s).commit == Some(c) <==> s.commit == Some(c) && FullName(c)
    ensures forall t :: Clean(s).tree == Some(t) <==> s.tree == Some(t) && FullName(t)
    ensures forall n :: Clean(s).node == Some(n) <==> s.node == Some(n) && (NumbersOnly(n) || Tagged(n))
  {
    if s.commit.Some? { FullNames(s.commit.value); }
    if s.tree.Some? { FullNames(s.tree.value); }
    if s.node.Some? { VersionsAreTagged(s.node.value); }
  }

  lemma CleanDigests(s: Stamp)
    ensures forall d :: Clean(s).planDigest == Some(d) <==> s.planDigest == Some(d) && |d| == 64 && FullName(d)
    ensures forall d :: Clean(s).selectionDigest == Some(d) <==>
      s.selectionDigest == Some(d) && |d| == 64 && FullName(d)
  {
    if s.planDigest.Some? { FullNames(s.planDigest.value); }
    if s.selectionDigest.Some? { FullNames(s.selectionDigest.value); }
  }

  /** An identity keeps exactly the facts that have their form. */
  lemma CleanKeeps(s: Stamp)
    ensures forall c :: Clean(s).commit == Some(c) <==> s.commit == Some(c) && FullName(c)
    ensures forall t :: Clean(s).tree == Some(t) <==> s.tree == Some(t) && FullName(t)
    ensures forall n :: Clean(s).node == Some(n) <==> s.node == Some(n) && (NumbersOnly(n) || Tagged(n))
    ensures forall d :: Clean(s).planDigest == Some(d) <==> s.planDigest == Some(d) && |d| == 64 && FullName(d)
    ensures forall d :: Clean(s).selectionDigest == Some(d) <==>
      s.selectionDigest == Some(d) && |d| == 64 && FullName(d)
    ensures forall h :: Clean(s).shard == Some(h) <==> s.shard == Some(h) && h.part >= 1 && h.count >= 1
    ensures Clean(s).platform == s.platform && Clean(s).scope == s.scope && Clean(s).concurrency == s.concurrency
    ensures Clean(s).realFsync == s.realFsync
  {
    CleanNames(s);
    CleanDigests(s);
  }

  /** A record is shown exactly when its path is relative and made of plain names. */
  ghost predicate PlainRelative(file: string) {
    && '\\' !in file && !HasPart(file, "") && !HasPart(file, ".") && !HasPart(file, "..")
    && !(|file| >= 3 && (file[0] in LOWER || file[0] in UPPER) && file[1..3] == ":/")
  }

  lemma PlainRelatives(file: string)
    ensures RelativeFile(file) <==> PlainRelative(file)
  {
    PartsAreSplit(file, "");
    PartsAreSplit(file, ".");
    PartsAreSplit(file, "..");
    NoneOfThree(Split('/', file));
    if |file| >= 3 {
      LowerChars(file[0]);
      UpperChars(file[0]);
      assert file[1..3] == [file[1], file[2]];
    }
    assert file == [] ==> Part(file, 0, 0) && file[0..0] == "";
  }

  lemma {:induction false} ShownExactly(records: seq<Rec>)
    ensures forall r :: r in Shown(records) <==> r in records && PlainRelative(r.file)
  {
    if records != [] {
      var n := |records| - 1;
      ShownExactly(records[..n]);
      PlainRelatives(records[n].file);
      assert records == records[..n] + [records[n]];
    }
  }

  /** A test file by a path of plain names, without a colon. */
  ghost predicate PortablePath(file: string) {
    && TestFile(file) && ':' !in file && '\\' !in file
    && !HasPart(file, "") && !HasPart(file, ".") && !HasPart(file, "..")
  }

  lemma PortablePaths(file: string)
    ensures Relative(file) <==> PortablePath(file)
  {
    TestFiles(file);
    PartsAreSplit(file, "");
    PartsAreSplit(file, ".");
    PartsAreSplit(file, "..");
    NoneOfThree(Split('/', file));
  }

  // ---------- Who may run for a route ----------

  /** The plan selects exactly these files: some, sorted, and each a path that every platform can name. */
  ghost predicate Takes(plan: Json, files: seq<string>) {
    && Strings(Field(plan, "selectedFiles")) == Some(files) && files != [] && Strict(ByText, files)
    && forall x :: x in files ==> PortablePath(x)
  }

  lemma SelectedExactly(plan: Json, files: seq<string>)
    ensures Selected(plan) == Some(files) <==> Takes(plan, files)
  {
    SortUniqueIsCanonical(files);
    if Strict(ByText, files) {
      StrictIsUnique(ByText, files, SortUnique(files));
    }
    forall i | 0 <= i < |files| ensures files[i] in files && (Relative(files[i]) <==> PortablePath(files[i])) {
      PortablePaths(files[i]);
    }
    forall x | x in files ensures Relative(x) <==> PortablePath(x) {
      PortablePaths(x);
    }
  }

  /** The attempt is the planner's or a later one. */
  ghost predicate Since(route: Json, attempt: string) {
    exists planner :: Field(route, "runAttempt") == Some(TStr(planner)) && Positive(planner) && Positive(attempt)
      && AtLeast(attempt, planner)
  }

  lemma SinceExactly(route: Json, attempt: string)
    ensures InTime(route, attempt) <==> Since(route, attempt)
  {
    if RouteAttempt(route).Some? && Positive(attempt) {
      NumbersAreOrdered(attempt, RouteAttempt(route).value);
    }
  }

  predicate ForScope(route: Json, scope: Scope) {
    Field(route, "scope") == Some(TStr(match scope case FullScope => "full" case DocsScope => "docs"))
  }

  const SHARED := {"targetCommit", "targetTree", "planDigest", "selectionDigest", "discoveryDigest"}

  predicate Agree(route: Json, plan: Json) {
    forall key :: key in SHARED ==> Field(route, key) == Field(plan, key)
  }

  /** A worker may run for a route and a plan: a test worker of their scope, with files to run. */
  ghost predicate MayRun(route: Json, plan: Json, w: Worker, node: string, attempt: string) {
    && TestRow(w).Some? && ForScope(route, TestRow(w).value.scope) && ForScope(plan, TestRow(w).value.scope)
    && Since(route, attempt) && NodeVersion(node) && Agree(route, plan)
    && exists files :: Takes(plan, files) && (w == FullWindows2 ==> |files| >= 2)
  }

  lemma SecondShard(files: seq<string>)
    ensures Pick(files, Shard(2, 2)) != [] <==> |files| >= 2
    ensures Pick(files, Shard(1, 2)) != [] <==> |files| >= 1
  {
    PickMembers(files, Shard(2, 2));
    PickMembers(files, Shard(1, 2));
    if |files| >= 2 {
      assert InShard(files, Shard(2, 2), 1);
      assert files[1] in Pick(files, Shard(2, 2));
    }
    if |files| >= 1 {
      assert InShard(files, Shard(1, 2), 0);
      assert files[0] in Pick(files, Shard(1, 2));
    }
    if Pick(files, Shard(2, 2)) != [] {
      assert Pick(files, Shard(2, 2))[0] in Pick(files, Shard(2, 2));
    }
    if Pick(files, Shard(1, 2)) != [] {
      assert Pick(files, Shard(1, 2))[0] in Pick(files, Shard(1, 2));
    }
  }

  lemma SharedFacts(route: Json, plan: Json)
    ensures SameFacts(route, plan) <==> Agree(route, plan)
  {
    assert "targetCommit" in SHARED && "targetTree" in SHARED && "planDigest" in SHARED;
    assert "selectionDigest" in SHARED && "discoveryDigest" in SHARED;
  }

  lemma ScopeTexts(route: Json, plan: Json, w: Worker)
    requires IsTest(w)
    ensures ForScope(route, ScopeOf(w)) && ForScope(plan, ScopeOf(w)) <==>
      Field(route, "scope") == Some(TStr(ScopeText(ScopeOf(w)))) && Field(plan, "scope") == Field(route, "scope")
  {}

  lemma FilesAreTaken(plan: Json, w: Worker)
    ensures Selected(plan).Some? && ShardFiles(Selected(plan).value, ShardOf(w)).Some? <==>
      exists files :: Takes(plan, files) && (w == FullWindows2 ==> |files| >= 2)
  {
    forall files ensures Selected(plan) == Some(files) <==> Takes(plan, files) {
      SelectedExactly(plan, files);
    }
    if Selected(plan).Some? {
      SecondShard(Selected(plan).value);
    }
  }

  lemma FittingExactly(route: Json, plan: Json, w: Worker, node: string, attempt: string)
    ensures Fitting(route, plan, w, node, attempt) <==> MayRun(route, plan, w, node, attempt)
  {
    TableExactly(w);
    SinceExactly(route, attempt);
    NodeVersions(node);
    SharedFacts(route, plan);
    FilesAreTaken(plan, w);
    if IsTest(w) {
      ScopeTexts(route, plan, w);
    }
  }

  // ---------- What a proof says ----------

  /** A file of the selection that falls to the worker by its position. */
  predicate FallsTo(selected: seq<string>, shard: Option<Shard>, x: string) {
    match shard
    case None => x in selected
    case Some(s) => s.count > 0 && exists i :: 0 <= i < |selected| && i % s.count == s.part - 1 && selected[i] == x
  }

  /** The files of a worker: sorted, and exactly those that fall to it. */
  ghost predicate FallTo(plan: Json, shard: Option<Shard>, files: seq<string>) {
    && Strict(ByText, files) && files != []
    && exists selected :: Takes(plan, selected) && forall x :: x in files <==> FallsTo(selected, shard, x)
  }

  lemma FilesFallTo(plan: Json, w: Worker)
    requires Selected(plan).Some? && ShardFiles(Selected(plan).value, ShardOf(w)).Some?
    ensures FallTo(plan, ShardOf(w), FilesOf(plan, w))
  {
    var selected := Selected(plan).value;
    SelectedExactly(plan, selected);
    if ShardOf(w).Some? {
      var shard := ShardOf(w).value;
      PickMembers(selected, shard);
      PickIsStrict(selected, shard);
      forall x ensures x in FilesOf(plan, w) <==> FallsTo(selected, ShardOf(w), x) {
        if FallsTo(selected, ShardOf(w), x) {
          var i :| 0 <= i < |selected| && i % shard.count == shard.part - 1 && selected[i] == x;
          assert InShard(selected, shard, i);
        }
      }
    }
  }

  /** What is said about the worker and the run, by the worker table and the route. */
  predicate SaysRun(hash: Hash, p: Proof, route: Json, w: Worker, row: Row, node: string, attempt: string) {
    && p.worker == w && p.platform == row.platform && p.scope == row.scope && p.shard == row.shard
    && p.concurrency == row.concurrency && p.packageSmoke == row.scope.DocsScope?
    && p.node == node && p.runAttempt == attempt && p.routeDigest == HashPlan(hash, route)
    && p.runId == Field(route, "runId") && p.targetCommit == Field(route, "targetCommit")
    && p.targetTree == Field(route, "targetTree") && p.planDigest == Field(route, "planDigest")
  }

  /** The proof has the number and the digest of the files that fall to this shard. */
  ghost predicate SaysFiles(hash: Hash, p: Proof, plan: Json, shard: Option<Shard>) {
    exists files :: FallTo(plan, shard, files) && p.fileCount == |files|
      && p.filesDigest == GatePlan.Digest(hash, files)
  }

  /** The one proof a worker can earn: its row of the table, the route it ran for, and the files that fall to it. */
  lemma ProofExactly(hash: Hash, route: Json, plan: Json, w: Worker, node: string, attempt: string)
    requires Fitting(route, plan, w, node, attempt)
    ensures var p := ExpectedProof(hash, route, plan, w, node, attempt);
      && TestRow(w).Some? && SaysRun(hash, p, route, w, TestRow(w).value, node, attempt)
      && SaysFiles(hash, p, plan, TestRow(w).value.shard)
  {
    TableExactly(w);
    FilesFallTo(plan, w);
  }

  // ---------- What a manifest must say ----------

  function PhasesOf(events: seq<OutEvent>): seq<Phase> {
    seq(|events|, i requires 0 <= i < |events| => events[i].event.name)
  }

  lemma {:induction false} CountIsMultiplicity(events: seq<OutEvent>, name: Phase)
    ensures Count(events, name) == multiset(PhasesOf(events))[name]
  {
    if events != [] {
      var n := |events| - 1;
      CountIsMultiplicity(events[..n], name);
      assert PhasesOf(events) == PhasesOf(events[..n]) + [events[n].event.name];
    }
  }

  /** How often a phase may be told; the batches are as many as there are. */
  predicate Often(name: Phase, smoke: bool, times: nat) {
    match name
    case BatchExecution => times >= 1
    case PackageSmoke => times == if smoke then 1 else 0
    case ReceiptPersistence => times == 0
    case _ => times == 1
  }

  /** The phases of a whole run, each as often as it happens. */
  ghost predicate WholeRun(events: seq<OutEvent>, smoke: bool) {
    forall name :: Often(name, smoke, multiset(PhasesOf(events))[name])
  }

  lemma PhasesExactly(n: nat, smoke: bool, events: seq<OutEvent>)
    ensures PhasesOk(n, smoke, events) <==> WholeRun(events, smoke) && BatchSum(events) == n
  {
    forall name ensures Count(events, name) == multiset(PhasesOf(events))[name] {
      CountIsMultiplicity(events, name);
    }
    NamesAreCounted(events, smoke);
    if WholeRun(events, smoke) {
      forall name | Count(events, name) > 0 ensures Allowed(name, smoke) {
        assert Often(name, smoke, multiset(PhasesOf(events))[name]);
      }
      assert Often(Fingerprint, smoke, Count(events, Fingerprint));
      assert Often(CacheLookup, smoke, Count(events, CacheLookup));
      assert Often(PackedTemplate, smoke, Count(events, PackedTemplate));
      assert Often(Cleanup, smoke, Count(events, Cleanup));
      assert Often(TotalTime, smoke, Count(events, TotalTime));
      assert Often(PackageSmoke, smoke, Count(events, PackageSmoke));
      assert Often(BatchExecution, smoke, Count(events, BatchExecution));
    }
    if PhasesOk(n, smoke, events) {
      forall name ensures Often(name, smoke, Count(events, name)) {
        assert Count(events, name) > 0 ==> Allowed(name, smoke);
      }
    }
  }

  /** One event of a CI run in which nothing failed. */
  predicate SaysWell(id: Stamp, n: nat, e: OutEvent) {
    e.stamp == id && e.event.fileCount > 0 &&
    match e.event.name
    case BatchExecution => e.event.result == Passed
    case Fingerprint => e.event.result == TestRun.CiDisabled && e.event.fileCount == n
    case CacheLookup => e.event.result == TestRun.CiDisabled && e.event.fileCount == n
    case _ => e.event.result == Passed && e.event.fileCount == n
  }

  /** A whole CI run in which each of these files succeeded once and no receipt answered. */
  ghost predicate Evidence(id: Stamp, files: seq<string>, smoke: bool, m: Manifest) {
    && m.decision == Some(Receipts.Decision(false, Receipts.CiDisabled)) && m.inputDigest.None?
    && multiset(Names(m.files)) == multiset(files)
    && (forall r :: r in m.files ==> r.success && PortablePath(r.file))
    && m.counts.selected == |files| && m.counts.completed == Some(|files|) && m.counts.passed == Some(|files|)
    && m.counts.failed == Some(0)
    && m.events != [] && m.events[|m.events| - 1].event.name == TotalTime
    && (forall e :: e in m.events ==> SaysWell(id, |files|, e))
    && WholeRun(m.events, smoke) && BatchSum(m.events) == |files|
  }

  lemma EventsExactly(id: Stamp, n: nat, events: seq<OutEvent>)
    ensures (forall i :: 0 <= i < |events| ==> EventOk(id, n, events[i])) <==>
      forall e :: e in events ==> SaysWell(id, n, e)
  {
    forall i | 0 <= i < |events|
      ensures events[i] in events && (EventOk(id, n, events[i]) <==> SaysWell(id, n, events[i]))
    {}
  }

  lemma FilesExactly(files: seq<string>, m: Manifest)
    requires Strict(ByText, files)
    ensures FilesOk(files, m) <==>
      && multiset(Names(m.files)) == multiset(files) && (forall r :: r in m.files ==> r.success && PortablePath(r.file))
      && m.counts == Counts(|files|, Some(|files|), Some(|files|), Some(0))
  {
    SortsTo(ByText, Names(m.files), files);
    SortSorts(ByText, Names(m.files));
    assert |multiset(Names(m.files))| == |m.files| && |multiset(files)| == |files|;
    forall i | 0 <= i < |m.files|
      ensures m.files[i] in m.files && (Relative(m.files[i].file) <==> PortablePath(m.files[i].file))
    {
      PortablePaths(m.files[i].file);
    }
    forall r | r in m.files ensures Relative(r.file) <==> PortablePath(r.file) {
      PortablePaths(r.file);
    }
  }

  lemma AcceptsExactly(id: Stamp, files: seq<string>, smoke: bool, m: Manifest)
    requires Strict(ByText, files)
    ensures Accepts(id, files, smoke, m) <==> Evidence(id, files, smoke, m)
  {
    FilesExactly(files, m);
    EventsExactly(id, |files|, m.events);
    PhasesExactly(|files|, smoke, m.events);
  }

  /** The identity of a worker's events: its row, commit and tree of the route, and for documentation the plan. */
  lemma IdentityExactly(route: Json, plan: Json, w: Worker, node: string, id: Stamp)
    requires IsTest(w)
    ensures Identity(route, plan, w, node) == Some(id) <==>
      var row := TestRow(w).value;
      && id.commit.Some? && Field(route, "targetCommit") == Some(TStr(id.commit.value))
      && id.tree.Some? && Field(route, "targetTree") == Some(TStr(id.tree.value))
      && id.platform == row.platform && id.node == Some(node) && id.scope == row.scope && id.shard == row.shard
      && id.concurrency == row.concurrency && id.realFsync
      && (if row.scope.DocsScope? then
            && id.planDigest.Some? && Field(plan, "planDigest") == Some(TStr(id.planDigest.value))
            && id.selectionDigest.Some? && Field(plan, "selectionDigest") == Some(TStr(id.selectionDigest.value))
          else id.planDigest.None? && id.selectionDigest.None?)
  {
    TableExactly(w);
  }

  // ---------- When a platform is complete ----------

  /** A proof still counts: it is the worker's own, for this route, from an attempt no later than this one. */
  ghost predicate StillCounts(hash: Hash, route: Json, plan: Json, w: Worker, p: Proof, attempt: string)
    requires TestRow(w).Some?
  {
    && Positive(p.runAttempt) && AtLeast(attempt, p.runAttempt)
    && MayRun(route, plan, w, p.node, p.runAttempt)
    && SaysRun(hash, p, route, w, TestRow(w).value, p.node, p.runAttempt)
    && SaysFiles(hash, p, plan, TestRow(w).value.shard)
  }

  /** A job that the route plans for succeeded with such a proof, and any other was skipped. */
  ghost predicate JobDone(hash: Hash, route: Json, plan: Json, w: Worker, job: Job, attempt: string)
    requires TestRow(w).Some?
  {
    if ForScope(route, TestRow(w).value.scope) then
      job.result.Succeeded? && job.proof.Some? && StillCounts(hash, route, plan, w, job.proof.value, attempt)
    else job.result.Skipped? && job.proof.None?
  }

  /** The planner succeeded with this route, and the jobs are those of the platform's test workers, each done. */
  ghost predicate Complete(hash: Hash, route: Json, plan: Json, platform: Platform, needs: Needs, attempt: string) {
    && platform in {Linux, Darwin, Win32} && Since(route, attempt)
    && needs.plannerOk && needs.route.Some? && HashPlan(hash, needs.route.value) == HashPlan(hash, route)
    && AllDone(hash, route, plan, platform, needs.jobs, attempt)
  }

  lemma FallToIsUnique(plan: Json, shard: Option<Shard>, a: seq<string>, b: seq<string>)
    requires FallTo(plan, shard, a) && FallTo(plan, shard, b)
    ensures a == b
  {
    var s :| Takes(plan, s) && forall x :: x in a <==> FallsTo(s, shard, x);
    var t :| Takes(plan, t) && forall x :: x in b <==> FallsTo(t, shard, x);
    assert s == t;
    StrictIsUnique(ByText, a, b);
  }

  lemma ProofIs(hash: Hash, route: Json, plan: Json, w: Worker, p: Proof)
    requires TestRow(w).Some?
    ensures Fitting(route, plan, w, p.node, p.runAttempt) ==>
      (p == ExpectedProof(hash, route, plan, w, p.node, p.runAttempt) <==>
        SaysRun(hash, p, route, w, TestRow(w).value, p.node, p.runAttempt)
        && SaysFiles(hash, p, plan, TestRow(w).value.shard))
  {
    if Fitting(route, plan, w, p.node, p.runAttempt) {
      TableExactly(w);
      FilesFallTo(plan, w);
      forall files | FallTo(plan, ShardOf(w), files) ensures files == FilesOf(plan, w) {
        FallToIsUnique(plan, ShardOf(w), files, FilesOf(plan, w));
      }
    }
  }

  lemma AttemptsCompared(a: string, b: string)
    requires Positive(a)
    ensures Positive(b) ==> (Value(b) <= Value(a) <==> AtLeast(a, b))
  {
    if Positive(b) {
      NumbersAreOrdered(a, b);
    }
  }

  lemma ProofOkExactly(hash: Hash, route: Json, plan: Json, w: Worker, p: Proof, attempt: string)
    requires Positive(attempt) && TestRow(w).Some?
    ensures ProofOk(hash, route, plan, w, p, attempt) <==> StillCounts(hash, route, plan, w, p, attempt)
  {
    FittingExactly(route, plan, w, p.node, p.runAttempt);
    AttemptsCompared(attempt, p.runAttempt);
    ProofIs(hash, route, plan, w, p);
  }

  lemma JobsExactly(hash: Hash, route: Json, plan: Json, w: Worker, job: Job, attempt: string)
    requires Positive(attempt) && TestRow(w).Some?
    ensures IsTest(w) && (JobOk(hash, route, plan, w, job, attempt) <==> JobDone(hash, route, plan, w, job, attempt))
  {
    TableExactly(w);
    if job.proof.Some? {
      ProofOkExactly(hash, route, plan, w, job.proof.value, attempt);
    }
  }

  lemma WorkersOf(platform: Platform, w: Worker)
    requires !platform.AnotherPlatform?
    ensures w in PlatformWorkers(platform) <==> TestRow(w).Some? && TestRow(w).value.platform == platform
    ensures WorkersAreTests(platform)
  {
    TableExactly(w);
    PlatformWorkersAreTheTests(platform, w);
  }

  /** The jobs are those of the platform's test workers, each done. */
  ghost predicate AllDone(hash: Hash, route: Json, plan: Json, platform: Platform, jobs: map<Worker, Job>,
                          attempt: string)
  {
    && (forall w :: w in jobs <==> TestRow(w).Some? && TestRow(w).value.platform == platform)
    && (forall w :: w in jobs ==> JobDone(hash, route, plan, w, jobs[w], attempt))
  }

  lemma AllDoneExactly(hash: Hash, route: Json, plan: Json, platform: Platform, jobs: map<Worker, Job>, attempt: string)
    requires Positive(attempt) && !platform.AnotherPlatform? && WorkersAreTests(platform)
    ensures JobsOk(hash, route, plan, PlatformWorkers(platform), jobs, attempt) <==>
      AllDone(hash, route, plan, platform, jobs, attempt)
  {
    forall w ensures w in PlatformWorkers(platform) <==> TestRow(w).Some? && TestRow(w).value.platform == platform {
      WorkersOf(platform, w);
    }
    JobsAreDone(hash, route, plan, platform, PlatformWorkers(platform), jobs, attempt);
    DoneJobs(hash, route, plan, platform, PlatformWorkers(platform), jobs, attempt);
  }

  lemma DoneJobs(hash: Hash, route: Json, plan: Json, platform: Platform, workers: seq<Worker>, jobs: map<Worker, Job>,
                 attempt: string)
    requires Positive(attempt) && forall i :: 0 <= i < |workers| ==> IsTest(workers[i])
    requires forall w :: w in workers <==> TestRow(w).Some? && TestRow(w).value.platform == platform
    ensures AllDone(hash, route, plan, platform, jobs, attempt) ==>
      JobsOk(hash, route, plan, workers, jobs, attempt)
  {
    if AllDone(hash, route, plan, platform, jobs, attempt) {
      forall i | 0 <= i < |workers| ensures WorkerOk(hash, route, plan, workers[i], jobs, attempt) {
        assert workers[i] in workers && workers[i] in jobs;
        JobsExactly(hash, route, plan, workers[i], jobs[workers[i]], attempt);
      }
    }
  }

  lemma JobsAreDone(hash: Hash, route: Json, plan: Json, platform: Platform, workers: seq<Worker>,
                    jobs: map<Worker, Job>, attempt: string)
    requires Positive(attempt) && forall i :: 0 <= i < |workers| ==> IsTest(workers[i])
    requires forall w :: w in workers <==> TestRow(w).Some? && TestRow(w).value.platform == platform
    ensures JobsOk(hash, route, plan, workers, jobs, attempt) ==>
      AllDone(hash, route, plan, platform, jobs, attempt)
  {
    if JobsOk(hash, route, plan, workers, jobs, attempt) {
      forall w | w in workers ensures w in jobs && JobDone(hash, route, plan, w, jobs[w], attempt) {
        var i :| 0 <= i < |workers| && workers[i] == w;
        assert WorkerOk(hash, route, plan, workers[i], jobs, attempt);
        JobsExactly(hash, route, plan, w, jobs[w], attempt);
      }
    }
  }

  /** `verifyCiAggregate` accepts a platform exactly when it is complete. */
  lemma AggregateExactly(hash: Hash, route: Json, plan: Json, platform: Platform, needs: Needs, attempt: string)
    ensures AggregateOk(hash, route, plan, platform, needs, attempt) <==>
      Complete(hash, route, plan, platform, needs, attempt)
  {
    SinceExactly(route, attempt);
    if !platform.AnotherPlatform? && Since(route, attempt) {
      WorkersOf(platform, FullLinux);
      AllDoneExactly(hash, route, plan, platform, needs.jobs, attempt);
    }
  }
}
