/**
  Immutable gate plans (scripts/change-plan.mjs): how one is made from the facts
  of a repository.
 */
module GatePlan {
  import opened Options
  import opened Text
  import opened Json
  import opened JsonText
  import opened RawDiff
  import opened ChangeFacts

  // ---------- Inputs ----------

  /** What git says about a repository. An absent key is a call that fails. */
  datatype Repo = Repo(
    commits: map<string, string>,
    trees: map<string, seq<Entry>>,
    blobs: map<string, Json>,
    shallow: bool,
    ancestors: set<(string, string)>,
    diffs: map<(string, string), string>)

  datatype Event = Event(kind: Option<string>, ref: Option<string>, headCommit: Option<string>)

  function Resolve(repo: Repo, oid: Option<string>): Option<string> {
    if oid.Some? && IsOid(oid.value) && oid.value in repo.commits && IsOid(repo.commits[oid.value])
    then Some(repo.commits[oid.value]) else None
  }

  function ReadTree(repo: Repo, tree: string): Option<seq<Entry>> {
    if tree in repo.trees then Some(repo.trees[tree]) else None
  }

  predicate TreeTest(file: string) {
    && (StartsWith(file, "tests/") || StartsWith(file, "packages/")) && EndsWith(file, ".test.mjs")
    && forall i :: 0 <= i < |Split('/', file)| ==> Split('/', file)[i] !in ["node_modules", ".git"]
  }

  function Filter(files: seq<string>, keep: string -> bool): seq<string> {
    if files == [] then []
    else
      var rest := Filter(files[..|files| - 1], keep);
      if keep(files[|files| - 1]) then rest + [files[|files| - 1]] else rest
  }

  predicate AllBlobs(entries: seq<Entry>) {
    forall i :: 0 <= i < |entries| ==> entries[i].kind == "blob"
  }

  function DiscoverTreeTests(entries: seq<Entry>): seq<string> {
    Sort(ByText, Filter(PathsOf(entries), TreeTest))
  }

  datatype Facts = Facts(tree: string, entries: seq<Entry>, discovery: seq<string>, manifest: Option<Json>)

  /** `targetFacts`: the tree to be gated, or a refusal to plan at all. */
  function TargetFacts(repo: Repo, target: string): Option<Facts> {
    var tree := Resolve(repo, Some(target));
    if tree.None? then None
    else
      var entries := ReadTree(repo, tree.value);
      if entries.None? || exists i :: 0 <= i < |entries.value| && !ValidPath(entries.value[i].path) then None
      else if !AllBlobs(entries.value) || DiscoverTreeTests(entries.value) == [] then None
      else Some(Facts(tree.value, entries.value, DiscoverTreeTests(entries.value), ReadManifest(repo, entries.value)))
  }

  function ReadManifest(repo: Repo, entries: seq<Entry>): Option<Json> {
    var entry := At(entries, MANIFEST_PATH);
    if entry.None? || entry.value.kind != "blob" || entry.value.mode != "100644" || entry.value.oid !in repo.blobs
      || repo.blobs[entry.value.oid].Null?
    then None else Some(repo.blobs[entry.value.oid])
  }

  // ---------- Context ----------

  /** The policy context of an event: what is recorded, and whether a weaker gate is allowed at all. */
  datatype Context = Context(kind: string, ref: Option<string>, head: Option<string>, allowed: bool)

  predicate RefChar(c: char) {
    Digit(c) || 'a' <= c <= 'z' || 'A' <= c <= 'Z' || c in "._/-"
  }

  /** `^refs/heads/[a-zA-Z0-9._/-]+$` */
  predicate BranchRef(ref: string) {
    StartsWith(ref, "refs/heads/") && |ref| > 11 && forall i :: 11 <= i < |ref| ==> RefChar(ref[i])
  }

  /** `^refs/heads/release(?:[/-]|$)` */
  predicate ReleaseRef(ref: string) {
    StartsWith(ref, "refs/heads/release") && (|ref| == 18 || ref[18] == '/' || ref[18] == '-')
  }

  const MAIN := "refs/heads/main"

  function EventContext(event: Event, target: string): Context {
    if event.kind == Some("push") then
      if event.ref.Some? && BranchRef(event.ref.value)
      then Context("push", event.ref, None, event.ref.value != MAIN && !ReleaseRef(event.ref.value))
      else Context("push", None, None, false)
    else if event.kind == Some("pr") then
      var head := if event.headCommit.None? then target else event.headCommit.value;
      if IsOid(head) then Context("pr", None, Some(head), true) else Context("pr", None, None, false)
    else Context(if event.kind == Some("release") then "release" else "unknown", None, None, false)
  }

  // ---------- History ----------

  datatype History = History(base: Option<string>, baseTree: Option<string>, changes: seq<Change>,
                             complete: bool, ancestryVerified: bool, ambiguous: bool)

  predicate Linked(repo: Repo, base: string, target: string, head: Option<string>) {
    && !repo.shallow && (base, target) in repo.ancestors
    && (head.Some? ==> Resolve(repo, head).Some? && (head.value, target) in repo.ancestors)
  }

  function ReadHistory(repo: Repo, target: string, entries: seq<Entry>, base: Option<string>,
                       head: Option<string>): History {
    var baseTree := Resolve(repo, base);
    if baseTree.None? then History(None, None, [], false, false, false)
    else if !Linked(repo, base.value, target, head) then History(base, baseTree, [], false, false, false)
    else
      var changes := if (base.value, target) in repo.diffs then Parse(repo.diffs[(base.value, target)]) else None;
      var baseEntries := ReadTree(repo, baseTree.value);
      if changes.None? then History(base, baseTree, [], false, true, false)
      else if baseEntries.None? then History(base, baseTree, changes.value, false, true, false)
      else History(base, baseTree, changes.value, true, true,
                   CopyOriginAmbiguous(changes.value, baseEntries.value, entries))
  }

  // ---------- Reasons ----------

  const EVENT := "event:"
  const REF := "ref:"
  const HEAD := "head-commit:"
  const BASE := "base-commit:"

  function Tag(prefix: string, value: Option<string>): seq<string> {
    if value.None? then [] else [prefix + value.value]
  }

  function Note(condition: bool, reason: string): seq<string> {
    if condition then [reason] else []
  }

  const ACCEPTANCE := "tests/acceptance/"
  const PROCESS := "tests/process/"
  const TEST := ".test.mjs"

  const EXTERNAL_READERS := [
    ACCEPTANCE + "package-links" + TEST, ACCEPTANCE + "packaging" + TEST, ACCEPTANCE + "recorded-candidate" + TEST,
    "tests/" + "package-certification" + TEST, PROCESS + "orchestration-is-absent" + TEST,
    PROCESS + "session-resolution" + TEST, PROCESS + "surface-coverage" + TEST]

  predicate DocsTest(file: string) {
    StartsWith(file, "tests/docs/")
  }

  function Readers(manifest: Option<Json>): seq<string> {
    if manifest.None? then []
    else
      var field := Field(manifest.value, "externalReaders");
      if field.Some? && field.value.TArr? then Texts(field.value.items) else []
  }

  function Texts(items: seq<Tree>): seq<string> {
    if items == [] then [] else (if items[0].TStr? then [items[0].text] else []) + Texts(items[1..])
  }

  function SelectedDocs(facts: Facts): seq<string> {
    var readers := Readers(facts.manifest);
    Filter(facts.discovery, file => DocsTest(file) || file in readers)
  }

  /** A reader that the manifest lists and the tree has. */
  predicate Covered(facts: Facts, reader: string) {
    reader in Readers(facts.manifest) && reader in facts.discovery
  }

  predicate SelectionIncomplete(facts: Facts) {
    || !ValidManifest(facts.manifest)
    || (exists i :: 0 <= i < |EXTERNAL_READERS| && !Covered(facts, EXTERNAL_READERS[i]))
    || !exists i :: 0 <= i < |SelectedDocs(facts)| && DocsTest(SelectedDocs(facts)[i])
  }

  predicate AuditDrift(hash: Hash, facts: Facts) {
    facts.manifest.None? || Field(facts.manifest.value, "sourceDigest") != Some(TStr(SourceDigest(hash, facts.entries)))
  }

  predicate Unsupported(facts: Facts) {
    exists i :: 0 <= i < |facts.entries| &&
      (facts.entries[i].kind != "blob" || facts.entries[i].mode !in ["100644", "100755"])
  }

  function VerdictOf(facts: Facts, history: History): Verdict {
    Classify(history.changes, history.complete, history.ancestryVerified, facts.manifest)
  }

  /** The weaker gate needs every one of these. */
  predicate DocsScope(hash: Hash, facts: Facts, context: Context, history: History) {
    && context.allowed && !history.ambiguous && VerdictOf(facts, history).docs
    && !SelectionIncomplete(facts) && !AuditDrift(hash, facts) && !Unsupported(facts)
  }

  /** What is noted besides the context: a reason for each doubt, and the verdict on the changes. */
  function NotesOn(event: bool, copies: bool, partial: bool, verdict: string, selection: bool, drift: bool,
                   topology: bool)
    : seq<string>
  {
    Note(event, "event-requires-full") + Note(copies, "copy-origin-ambiguous") + Note(partial, "history-incomplete")
    + [verdict] + Note(selection, "docs-selection-incomplete") + Note(drift, "reader-audit-drift")
    + Note(topology, "target-topology-unsupported")
  }

  function Notes(hash: Hash, facts: Facts, context: Context, history: History): seq<string> {
    NotesOn(!context.allowed, history.ambiguous, !history.complete, VerdictOf(facts, history).reason,
            SelectionIncomplete(facts), AuditDrift(hash, facts), Unsupported(facts))
  }

  function Tags(context: Context, history: History): seq<string> {
    [EVENT + context.kind] + Tag(REF, context.ref) + Tag(HEAD, context.head) + Tag(BASE, history.base)
  }

  function Reasons(hash: Hash, facts: Facts, context: Context, history: History): seq<string> {
    SortUnique(Tags(context, history) + Notes(hash, facts, context, history))
  }

  // ---------- Making a plan ----------

  function StrArr(xs: seq<string>): Json {
    Arr(seq(|xs|, i requires 0 <= i < |xs| => Str(xs[i])))
  }

  function Digest(hash: Hash, files: seq<string>): string {
    hash(Write(StrArr(files), []))
  }

  function OrNull(s: Option<string>): Json {
    if s.None? then Null else Str(s.value)
  }

  function ManifestDigest(hash: Hash, facts: Facts): string {
    if facts.manifest.Some? then HashPlan(hash, facts.manifest.value)
    else HashPlan(hash, Obj([Member("unavailable", OrNull(OidAt(facts.entries, Some(MANIFEST_PATH))))]))
  }

  function Body(hash: Hash, target: string, facts: Facts, docs: bool, baseTree: Option<string>,
                reasons: seq<string>): seq<Member> {
    var selected := if docs then SelectedDocs(facts) else facts.discovery;
    [Member("schema", Num("1")),
     Member("scope", Str(if docs then "docs" else "full")),
     Member("targetCommit", Str(target)),
     Member("targetTree", Str(facts.tree)),
     Member("baseTree", OrNull(baseTree)),
     Member("manifestDigest", Str(ManifestDigest(hash, facts))),
     Member("discoveryDigest", Str(Digest(hash, facts.discovery))),
     Member("selectionDigest", Str(Digest(hash, selected))),
     Member("selectedFiles", StrArr(selected)),
     Member("requiredLanes", StrArr(["attribution", "package", "syntax", if docs then "test-docs" else "test"])),
     Member("reasons", StrArr(reasons))]
  }

  function Sealed(hash: Hash, body: seq<Member>): Json {
    Obj(body + [Member("planDigest", Str(HashPlan(hash, Obj(body))))])
  }

  function PlanFrom(hash: Hash, target: string, facts: Facts, context: Context, history: History): Json {
    Sealed(hash, Body(hash, target, facts, DocsScope(hash, facts, context, history), history.baseTree,
                      Reasons(hash, facts, context, history)))
  }

  function Create(repo: Repo, hash: Hash, target: string, base: Option<string>, event: Event): Option<Json> {
    var facts := TargetFacts(repo, target);
    if facts.None? then None
    else
      var context := EventContext(event, target);
      Some(PlanFrom(hash, target, facts.value, context,
                    ReadHistory(repo, target, facts.value.entries, base, context.head)))
  }
}
