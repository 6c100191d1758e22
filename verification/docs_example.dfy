/**
  A repository in which a documentation plan is made, although the documentation
  it lets change takes over the bytes of a source file: the documentation claims
  are about plans that exist, and the copy check cannot be read as covering
  modified files.
 */
module DocsExample {
  import opened Options
  import opened Text
  import opened Json
  import opened JsonText
  import opened RawDiff
  import opened ChangeFacts
  import opened GatePlan
  import opened PlanCheck
  import PlanSelection

  // ---------- Paths ----------

  /** A character that a path component of the example may start with. */
  predicate Head(c: char) {
    c != '/' && c != '.' && c != 'n'
  }

  predicate Plain(c: char) {
    c != '\\' && c != NUL && !LineEnd(c)
  }

  predicate OkAt(file: string, i: nat) {
    i < |file| && Plain(file[i]) && (file[i] == '/' ==> i + 1 < |file| && Head(file[i + 1]))
  }

  /** A path whose components are neither empty nor start with a dot or an `n`. */
  predicate Tidy(file: string) {
    file != [] && Head(file[0]) && forall i :: 0 <= i < |file| ==> OkAt(file, i)
  }

  lemma {:induction false} TidyParts(file: string)
    requires file != [] && forall i :: 0 <= i < |file| ==> OkAt(file, i)
    ensures var parts := Split('/', file);
      && (file[0] != '/' ==> parts[0] != [] && parts[0][0] == file[0])
      && (forall i :: 1 <= i < |parts| ==> parts[i] != [] && Head(parts[i][0]))
    decreases |file|
  {
    assert OkAt(file, 0);
    var parts, rest := Split('/', file), Split('/', file[1..]);
    if |file| > 1 {
      forall i | 0 <= i < |file| - 1 ensures OkAt(file[1..], i) {
        assert OkAt(file, i + 1);
      }
      TidyParts(file[1..]);
      forall i | 1 <= i < |parts| ensures parts[i] != [] && Head(parts[i][0]) {
        assert parts[i] == if file[0] == '/' then rest[i - 1] else rest[i];
      }
    }
  }

  lemma TidyIsValid(file: string)
    requires Tidy(file)
    ensures ValidPath(file) && forall i :: 0 <= i < |file| ==> Plain(file[i])
    ensures forall i :: 0 <= i < |Split('/', file)| ==> Split('/', file)[i] !in ["node_modules", ".git"]
  {
    TidyParts(file);
    forall i | 0 <= i < |file| ensures Plain(file[i]) {
      assert OkAt(file, i);
    }
    forall i | 0 <= i < |Split('/', file)|
      ensures Split('/', file)[i] !in ["", ".", ".."] && Split('/', file)[i] !in ["node_modules", ".git"]
    {
      var part := Split('/', file)[i];
      assert part != [] && Head(part[0]);
      assert "node_modules"[0] == 'n' && ".git"[0] == '.' && "."[0] == '.' && ".."[0] == '.';
    }
  }

  // ---------- Test files ----------

  predicate Letter(c: char) {
    'a' <= c <= 'z' || c == '-'
  }

  /** A directory of tests, with its closing slash. */
  predicate TestDir(dir: string) {
    "tests/" <= dir && dir[|dir| - 1] == '/' && forall i :: 0 <= i < |dir| - 1 ==> OkAt(dir, i)
  }

  predicate Stem(stem: string) {
    stem != [] && Head(stem[0]) && forall i :: 0 <= i < |stem| ==> Letter(stem[i])
  }

  function TestFile(dir: string, stem: string): string {
    dir + stem + TEST
  }

  lemma TestFileIsTidy(dir: string, stem: string)
    requires TestDir(dir) && Stem(stem)
    ensures Tidy(TestFile(dir, stem)) && Between(TestFile(dir, stem), "tests/", TEST)
  {
    var file := TestFile(dir, stem);
    forall i | 0 <= i < |file| ensures OkAt(file, i) {
      if i < |dir| - 1 {
        assert OkAt(dir, i) && file[i] == dir[i] && file[i + 1] == dir[i + 1];
      } else if i < |dir| {
        assert file[i] == '/' && file[i + 1] == stem[0];
      } else if i < |dir| + |stem| {
        assert file[i] == stem[i - |dir|];
      } else {
        assert file[i] == TEST[i - |dir| - |stem|];
      }
    }
    assert file[0] == dir[0] && file[|file| - |TEST|..] == TEST;
    assert file[..|dir|] == dir;
  }

  lemma TestDirs()
    ensures TestDir("tests/") && TestDir(ACCEPTANCE) && TestDir(PROCESS) && TestDir("tests/docs/")
  {}

  lemma Stems()
    ensures Stem("package-links") && Stem("packaging") && Stem("recorded-candidate") && Stem("a")
  {}

  lemma MoreStems()
    ensures Stem("package-certification") && Stem("orchestration-is-absent")
    ensures Stem("session-resolution") && Stem("surface-coverage")
  {}

  // ---------- Trees ----------

  const README := "README.md"
  const SOURCE := "bin"

  /** Every path of the example but the README. */
  const TAIL: seq<string> := EXTERNAL_READERS + [TestFile("tests/docs/", "a"), MANIFEST_PATH, SOURCE]

  function Oid(c: char): (oid: string)
    ensures |oid| == 40 && (HexChar(c) ==> IsOid(oid)) && oid[0] == c
  {
    seq(40, _ => c)
  }

  function TailEntries(): seq<Entry> {
    seq(|TAIL|, i requires 0 <= i < |TAIL| =>
      Entry("100644", "blob", if TAIL[i] == SOURCE then Oid('6') else Oid('7'), TAIL[i]))
  }

  function TreeOf(readme: string): seq<Entry> {
    [Entry("100644", "blob", readme, README)] + TailEntries()
  }

  lemma ShortPathsAreTidy()
    ensures Tidy(README) && Tidy(SOURCE)
  {}

  lemma ManifestPathIsTidy()
    ensures Tidy(MANIFEST_PATH)
  {}

  lemma ReadersAreTests(i: nat)
    requires i < |EXTERNAL_READERS|
    ensures exists dir, stem :: TestDir(dir) && Stem(stem) && EXTERNAL_READERS[i] == TestFile(dir, stem)
  {
    TestDirs();
    Stems();
    MoreStems();
    assert EXTERNAL_READERS[0] == TestFile(ACCEPTANCE, "package-links");
    assert EXTERNAL_READERS[1] == TestFile(ACCEPTANCE, "packaging");
    assert EXTERNAL_READERS[2] == TestFile(ACCEPTANCE, "recorded-candidate");
    assert EXTERNAL_READERS[3] == TestFile("tests/", "package-certification");
    assert EXTERNAL_READERS[4] == TestFile(PROCESS, "orchestration-is-absent");
    assert EXTERNAL_READERS[5] == TestFile(PROCESS, "session-resolution");
    assert EXTERNAL_READERS[6] == TestFile(PROCESS, "surface-coverage");
  }

  predicate TidyTest(file: string) {
    Tidy(file) && Between(file, "tests/", TEST)
  }

  lemma TestsAreTidy()
    ensures forall i :: 0 <= i < 8 ==> TidyTest(TAIL[i])
  {
    forall i | 0 <= i < 7 ensures TidyTest(TAIL[i]) {
      ReadersAreTests(i);
      var dir, stem :| TestDir(dir) && Stem(stem) && EXTERNAL_READERS[i] == TestFile(dir, stem);
      TestFileIsTidy(dir, stem);
    }
    TestDirs();
    Stems();
    TestFileIsTidy("tests/docs/", "a");
  }

  lemma AllTidy(i: nat)
    requires i < |TAIL|
    ensures Tidy(TAIL[i])
  {
    TestsAreTidy();
    ShortPathsAreTidy();
    ManifestPathIsTidy();
    assert i < 8 || TAIL[i] == MANIFEST_PATH || TAIL[i] == SOURCE;
  }

  lemma PathsDiffer()
    ensures NoRepeats([README] + TAIL)
  {
    var paths := [README] + TAIL;
    var sizes := [9, 39, 35, 44, 36, 46, 41, 39, 21, 30, 3];
    assert |paths| == 11 && forall i :: 0 <= i < 11 ==> |paths[i]| == sizes[i];
    assert paths[1][6] == 'a' && paths[7][6] == 'p';
  }

  lemma TreeIsTree(readme: string)
    ensures IsTree(TreeOf(readme)) && AllBlobs(TreeOf(readme))
    ensures forall i :: 0 <= i < |TreeOf(readme)| ==> ValidPath(TreeOf(readme)[i].path)
    ensures forall i :: 0 <= i < |TreeOf(readme)| ==> TreeOf(readme)[i].mode == "100644"
  {
    var tree := TreeOf(readme);
    PathsDiffer();
    assert PathsOf(tree) == [README] + TAIL;
    forall i | 0 <= i < |tree| ensures ValidPath(tree[i].path) {
      if i > 0 {
        AllTidy(i - 1);
      }
      ShortPathsAreTidy();
      TidyIsValid(tree[i].path);
    }
  }

  /** Two trees of the example agree but for the README. */
  lemma EntriesOf(readme: string, path: string)
    ensures At(TreeOf(readme), path) ==
      if path == README then Some(Entry("100644", "blob", readme, README)) else At(TailEntries(), path)
  {
    assert TreeOf(readme)[1..] == TailEntries();
  }

  lemma TailEntry(i: nat)
    requires i < |TAIL|
    ensures At(TailEntries(), TAIL[i]) == Some(TailEntries()[i]) && TAIL[i] != README
  {
    PathsDiffer();
    var all, tail := [README] + TAIL, TailEntries();
    assert PathsOf(tail) == TAIL;
    forall j, k | 0 <= j < k < |TAIL| ensures TAIL[j] != TAIL[k] {
      assert all[j + 1] != all[k + 1];
    }
    AtIsUnique(tail, i);
    assert all[0] != all[i + 1];
  }

  // ---------- The manifest ----------

  function ManifestOf(docs: seq<string>, roots: seq<string>, readers: seq<string>, digest: string): seq<Member> {
    [Member("schema", Num("1")), Member("documentation", StrArr(docs)), Member("documentationRoots", StrArr(roots)),
     Member("externalReaders", StrArr(readers)), Member("sourceDigest", Str(digest))]
  }

  lemma ManifestKeys(docs: seq<string>, roots: seq<string>, readers: seq<string>, digest: string)
    ensures NoRepeats(Keys(ManifestOf(docs, roots, readers, digest)))
  {
    var ms := ManifestOf(docs, roots, readers, digest);
    var sizes := [6, 13, 18, 15, 12];
    assert forall i :: 0 <= i < 5 ==> |Keys(ms)[i]| == sizes[i];
  }

  lemma ManifestFields(docs: seq<string>, roots: seq<string>, readers: seq<string>, digest: string)
    ensures var m := Obj(ManifestOf(docs, roots, readers, digest));
      && Field(m, "schema") == Some(TNum("1")) && Field(m, "documentation") == Some(Meaning(StrArr(docs)))
      && Field(m, "documentationRoots") == Some(Meaning(StrArr(roots)))
      && Field(m, "externalReaders") == Some(Meaning(StrArr(readers))) && Field(m, "sourceDigest") == Some(TStr(digest))
  {
    var ms := ManifestOf(docs, roots, readers, digest);
    ManifestKeys(docs, roots, readers, digest);
    FieldOf(ms, 0);
    FieldOf(ms, 1);
    FieldOf(ms, 2);
    FieldOf(ms, 3);
    FieldOf(ms, 4);
  }

  lemma ManifestIsValid(docs: seq<string>, roots: seq<string>, readers: seq<string>, digest: string)
    requires Sort(ByText, docs) == DOCS && Sort(ByText, roots) == ROOTS && |digest| == 64 && IsHex(digest)
    requires forall i :: 0 <= i < |readers| ==> ValidPath(readers[i]) && TestPath(readers[i])
    ensures ValidManifest(Some(Obj(ManifestOf(docs, roots, readers, digest))))
  {
    ManifestFields(docs, roots, readers, digest);
    StrArrMeans(docs);
    StrArrMeans(roots);
    StrArrMeans(readers);
  }

  lemma {:induction false} TextsOf(xs: seq<string>)
    ensures Texts(Meaning(StrArr(xs)).items) == xs
  {
    var items := Meaning(StrArr(xs)).items;
    StrArrMeans(xs);
    assert forall i :: 0 <= i < |xs| ==> items[i] == TStr(Strings(Some(TArr(items))).value[i]);
    if xs != [] {
      var rest := Meaning(StrArr(xs[1..])).items;
      StrArrMeans(xs[1..]);
      assert forall i :: 0 <= i < |rest| ==> rest[i] == TStr(Strings(Some(TArr(rest))).value[i]);
      TextsOf(xs[1..]);
      assert items[1..] == rest;
    }
  }

  lemma ReadersOf(docs: seq<string>, roots: seq<string>, readers: seq<string>, digest: string)
    ensures Readers(Some(Obj(ManifestOf(docs, roots, readers, digest)))) == readers
  {
    ManifestFields(docs, roots, readers, digest);
    TextsOf(readers);
  }

  lemma DocsAreSorted()
    ensures Sort(ByText, DOCS) == DOCS && Sort(ByText, ROOTS) == ROOTS
  {
    assert DOCS[0][0] == 'A' && DOCS[1][0] == 'C' && DOCS[2][0] == 'R' && DOCS[3][0] == 'S';
    assert Strict(ByText, DOCS);
    assert ROOTS[0][0] == 'd' && ROOTS[1][0] == 'e';
    assert Strict(ByText, ROOTS);
    SortsTo(ByText, DOCS, DOCS);
    SortsTo(ByText, ROOTS, ROOTS);
  }

  lemma ReadersAreUsable()
    ensures forall i :: 0 <= i < |EXTERNAL_READERS| ==> ValidPath(EXTERNAL_READERS[i]) && TestPath(EXTERNAL_READERS[i])
  {
    TestsAreTidy();
    forall i | 0 <= i < |EXTERNAL_READERS| ensures ValidPath(EXTERNAL_READERS[i]) && TestPath(EXTERNAL_READERS[i]) {
      assert TAIL[i] == EXTERNAL_READERS[i];
      TidyIsValid(TAIL[i]);
    }
  }

  // ---------- The repository ----------

  const TARGET := Oid('1')
  const BASE_COMMIT := Oid('2')
  const CHANGE := Change('M', Some(README), Some(README), Some("100644"), Some("100644"))
  const META := Meta("5", "6", "0")

  /** The README of the base has its own bytes; that of the target has those of `bin`. */
  function Base(): seq<Entry> {
    TreeOf(Oid('5'))
  }

  function Target(): seq<Entry> {
    TreeOf(Oid('6'))
  }

  lemma ChangeIsPrintable()
    ensures AreChanges([CHANGE]) && AreMetas([META])
  {
    assert NUL !in README;
    assert "100644"[0] != "000000"[0];
  }

  function Diff(): string {
    ChangeIsPrintable();
    Print([CHANGE], [META])
  }

  function Manifest(hash: Hash): Json {
    Obj(ManifestOf(DOCS, ROOTS, EXTERNAL_READERS, SourceDigest(hash, Target())))
  }

  function Example(hash: Hash): Repo {
    Repo(map[TARGET := Oid('3'), BASE_COMMIT := Oid('4')], map[Oid('3') := Target(), Oid('4') := Base()],
         map[Oid('7') := Manifest(hash)], false, {(BASE_COMMIT, TARGET)}, map[(BASE_COMMIT, TARGET) := Diff()])
  }

  const PUSH := Event(Some("push"), Some("refs/heads/topic"), None)

  lemma PushIsAllowed()
    ensures EventContext(PUSH, TARGET) == Context("push", Some("refs/heads/topic"), None, true)
  {
    var ref := "refs/heads/topic";
    assert BranchRef(ref);
    assert ref[11] == 't' && MAIN[11] == 'm' && "refs/heads/release"[11] == 'r';
  }

  /** What the planner reads about the target. */
  function TargetFactsOf(hash: Hash): Facts {
    Facts(Oid('3'), Target(), DiscoverTreeTests(Target()), Some(Manifest(hash)))
  }

  lemma TestsAreDiscovered(i: nat)
    requires i < 8
    ensures TAIL[i] in DiscoverTreeTests(Target())
  {
    TestsAreTidy();
    assert TidyTest(TAIL[i]);
    TidyIsValid(TAIL[i]);
    assert TreeTest(TAIL[i]);
    assert Target()[i + 1].path == TAIL[i];
    assert PathsOf(Target())[i + 1] == TAIL[i];
    PlanSelection.DiscoveryIsTests(Target());
  }

  lemma ManifestIsRead(hash: Hash)
    ensures ReadManifest(Example(hash), Target()) == Some(Manifest(hash))
  {
    assert TAIL[8] == MANIFEST_PATH && |MANIFEST_PATH| != |SOURCE|;
    TailEntry(8);
    EntriesOf(Oid('6'), MANIFEST_PATH);
  }

  lemma FactsAreRead(hash: Hash)
    ensures TargetFacts(Example(hash), TARGET) == Some(TargetFactsOf(hash))
  {
    TreeIsTree(Oid('6'));
    ManifestIsRead(hash);
    TestsAreDiscovered(0);
    CommitsResolve(hash);
    FactsFrom(Example(hash), TARGET, Oid('3'), Target(), Some(Manifest(hash)));
  }

  lemma CommitsResolve(hash: Hash)
    ensures Resolve(Example(hash), Some(TARGET)) == Some(Oid('3'))
    ensures ReadTree(Example(hash), Oid('3')) == Some(Target())
    ensures Resolve(Example(hash), Some(BASE_COMMIT)) == Some(Oid('4'))
    ensures ReadTree(Example(hash), Oid('4')) == Some(Base())
  {
    assert TARGET[0] == '1' && BASE_COMMIT[0] == '2' && Oid('3')[0] == '3' && Oid('4')[0] == '4';
  }

  lemma FactsFrom(repo: Repo, target: string, tree: string, entries: seq<Entry>, manifest: Option<Json>)
    requires Resolve(repo, Some(target)) == Some(tree) && ReadTree(repo, tree) == Some(entries)
    requires (forall i :: 0 <= i < |entries| ==> ValidPath(entries[i].path)) && AllBlobs(entries)
    requires DiscoverTreeTests(entries) != [] && ReadManifest(repo, entries) == manifest
    ensures TargetFacts(repo, target) == Some(Facts(tree, entries, DiscoverTreeTests(entries), manifest))
  {}

  function HistoryOf(): History {
    History(Some(BASE_COMMIT), Some(Oid('4')), [CHANGE], true, true, false)
  }

  lemma HistoryIsRead(hash: Hash)
    ensures ReadHistory(Example(hash), TARGET, Target(), Some(BASE_COMMIT), None) == HistoryOf()
  {
    DiffIsRead();
    assert !CopyOriginAmbiguous([CHANGE], Base(), Target());
    CommitsResolve(hash);
  }

  lemma ReadmeIsDocumentation()
    ensures DocumentationPath(README) && Ordinary(CHANGE)
  {
    ShortPathsAreTidy();
    TidyIsValid(README);
    assert DOCS[2] == README;
  }

  lemma SourceIsSource()
    ensures !DocumentationPath(SOURCE)
  {
    assert forall i :: 0 <= i < |DOCS| ==> |DOCS[i]| > 3;
  }

  ghost predicate HexHash(hash: Hash) {
    forall s :: Sha(hash(s))
  }

  predicate Sha(s: string) {
    |s| == 64 && IsHex(s)
  }

  lemma ManifestIsAccepted(hash: Hash)
    requires HexHash(hash)
    ensures ValidManifest(Some(Manifest(hash))) && Readers(Some(Manifest(hash))) == EXTERNAL_READERS
  {
    var digest := SourceDigest(hash, Target());
    DigestIsSha(hash);
    DocsAreSorted();
    ReadersAreUsable();
    ManifestIsValid(DOCS, ROOTS, EXTERNAL_READERS, digest);
    ReadersOf(DOCS, ROOTS, EXTERNAL_READERS, digest);
  }

  lemma SelectionIsComplete(hash: Hash)
    requires HexHash(hash)
    ensures !SelectionIncomplete(TargetFactsOf(hash))
  {
    ManifestIsAccepted(hash);
    ReadersAreDiscovered();
    DocsTestIsSelected(TargetFactsOf(hash));
    CompleteSelection(TargetFactsOf(hash));
  }

  lemma ReadersAreDiscovered()
    ensures forall i :: 0 <= i < |EXTERNAL_READERS| ==> EXTERNAL_READERS[i] in DiscoverTreeTests(Target())
  {
    forall i | 0 <= i < |EXTERNAL_READERS| ensures EXTERNAL_READERS[i] in DiscoverTreeTests(Target()) {
      TestsAreDiscovered(i);
      assert TAIL[i] == EXTERNAL_READERS[i];
    }
  }

  lemma CompleteSelection(facts: Facts)
    requires ValidManifest(facts.manifest) && Readers(facts.manifest) == EXTERNAL_READERS
    requires forall i :: 0 <= i < |EXTERNAL_READERS| ==> EXTERNAL_READERS[i] in facts.discovery
    requires exists i :: 0 <= i < |SelectedDocs(facts)| && DocsTest(SelectedDocs(facts)[i])
    ensures !SelectionIncomplete(facts)
  {}

  lemma DigestIsSha(hash: Hash)
    requires HexHash(hash)
    ensures Sha(SourceDigest(hash, Target()))
  {
    assert Sha(hash(Write(Arr(SourceRows(SourceEntries(Target()))), [])));
  }

  lemma DocsTestIsSelected(facts: Facts)
    requires facts.entries == Target() && facts.discovery == DiscoverTreeTests(Target())
    ensures exists i :: 0 <= i < |SelectedDocs(facts)| && DocsTest(SelectedDocs(facts)[i])
  {
    var file := TAIL[7];
    TestsAreDiscovered(7);
    PlanSelection.SelectedRuns(facts, true);
    PlanSelection.DiscoveryIsTests(Target());
    assert file == "tests/docs/" + ("a" + TEST);
    assert DocsTest(file);
    assert PlanSelection.Runs(facts.entries, Readers(facts.manifest), true, file);
    assert file in PlanSelection.SelectedIn(facts, true);
  }

  lemma ScopeIsDocs(hash: Hash)
    requires HexHash(hash)
    ensures DocsScope(hash, TargetFactsOf(hash), EventContext(PUSH, TARGET), HistoryOf())
  {
    var facts := TargetFactsOf(hash);
    PushIsAllowed();
    ManifestIsAccepted(hash);
    SelectionIsComplete(hash);
    ReadmeIsDocumentation();
    NothingDrifted(hash);
    assert AllOrdinary(HistoryOf().changes);
  }

  lemma NothingDrifted(hash: Hash)
    ensures !AuditDrift(hash, TargetFactsOf(hash)) && !Unsupported(TargetFactsOf(hash))
  {
    ManifestFields(DOCS, ROOTS, EXTERNAL_READERS, SourceDigest(hash, Target()));
    TreeIsTree(Oid('6'));
  }

  /** A documentation plan is made for the example. */
  lemma DocsPlanIsMade(hash: Hash)
    requires HexHash(hash)
    ensures var plan := Create(Example(hash), hash, TARGET, Some(BASE_COMMIT), PUSH);
      plan.Some? && Field(plan.value, "scope") == Some(TStr("docs"))
  {
    var facts, context := TargetFactsOf(hash), EventContext(PUSH, TARGET);
    FactsAreRead(hash);
    PushIsAllowed();
    HistoryIsRead(hash);
    ScopeIsDocs(hash);
    PlanHeadFields(hash, TARGET, facts, true, HistoryOf().baseTree, Reasons(hash, facts, context, HistoryOf()));
  }

  lemma DiffDescribes()
    ensures Describes([CHANGE], Base(), Target()) && RealChanges([CHANGE], Base(), Target())
  {
    forall path ensures Reported([CHANGE], path, At(Base(), path), At(Target(), path)) {
      EntriesOf(Oid('5'), path);
      EntriesOf(Oid('6'), path);
      assert ReportsNew([CHANGE][0], "MT", README, "100644");
    }
    EntriesOf(Oid('5'), README);
    EntriesOf(Oid('6'), README);
    assert Oid('5')[0] != Oid('6')[0];
  }

  lemma DiffIsRead()
    ensures Parse(Diff()) == Some([CHANGE])
  {
    ChangeIsPrintable();
    ParseUndoesPrint([CHANGE], [META]);
  }

  /** The trees and the diff behind the two commits of the example. */
  lemma ExampleTrees(hash: Hash)
    ensures var repo := Example(hash);
      && BASE_COMMIT in repo.commits && TARGET in repo.commits && (BASE_COMMIT, TARGET) in repo.diffs
      && repo.commits[BASE_COMMIT] in repo.trees && repo.commits[TARGET] in repo.trees
      && repo.trees[repo.commits[BASE_COMMIT]] == Base() && repo.trees[repo.commits[TARGET]] == Target()
      && repo.diffs[(BASE_COMMIT, TARGET)] == Diff()
  {
    CommitsResolve(hash);
  }

  /** The diff of the example is exact. */
  lemma DiffIsTrue(hash: Hash)
    ensures DiffIsExact(Example(hash), BASE_COMMIT, TARGET)
  {
    ExampleTrees(hash);
    DiffIsRead();
    DiffDescribes();
    TreeIsTree(Oid('5'));
    TreeIsTree(Oid('6'));
  }

  /** A changed documentation file with exactly the bytes of a source file of the base. */
  ghost predicate TakesSourceBytes(base: seq<Entry>, target: seq<Entry>, doc: string, source: string) {
    && DocumentationPath(doc) && !DocumentationPath(source)
    && At(target, doc).Some? && At(base, doc) != At(target, doc) && At(base, source).Some?
    && At(target, doc).value.oid == At(base, source).value.oid
  }

  lemma ReadmeTakesSourceBytes()
    ensures TakesSourceBytes(Base(), Target(), README, SOURCE)
  {
    EntriesOf(Oid('5'), README);
    EntriesOf(Oid('6'), README);
    EntriesOf(Oid('5'), SOURCE);
    assert TAIL[9] == SOURCE;
    TailEntry(9);
    ReadmeIsDocumentation();
    SourceIsSource();
    assert Oid('5')[0] != Oid('6')[0];
  }

  lemma TakenBytesAreForeign(base: seq<Entry>, target: seq<Entry>, doc: string, source: string)
    requires TakesSourceBytes(base, target, doc, source)
    ensures !NoForeignBytes(base, target)
  {
    var i :| 0 <= i < |base| && base[i] == At(base, source).value;
    assert Foreign(base, At(target, doc).value.oid);
  }

  /**
    For every hash with the form of SHA-256 there is a repository with an exact
    diff in which a documentation plan is made, and yet a documentation file that
    it lets change takes over the bytes of a source file.
   */
  lemma ModifiedDocsMayCarrySourceBytes(hash: Hash)
    requires HexHash(hash)
    ensures var repo := Example(hash);
      var plan := Create(repo, hash, TARGET, Some(BASE_COMMIT), PUSH);
      && plan.Some? && Field(plan.value, "scope") == Some(TStr("docs")) && DiffIsExact(repo, BASE_COMMIT, TARGET)
      && var b, t := repo.trees[repo.commits[BASE_COMMIT]], repo.trees[repo.commits[TARGET]];
      TakesSourceBytes(b, t, README, SOURCE) && !NoForeignBytes(b, t)
  {
    DocsPlanIsMade(hash);
    DiffIsTrue(hash);
    ExampleTrees(hash);
    ReadmeTakesSourceBytes();
    TakenBytesAreForeign(Base(), Target(), README, SOURCE);
  }

  /** A pull request whose head is not an object id. */
  const MALFORMED := Event(Some("pr"), None, Some("x"))

  /** A plan is made for a pull request with a malformed head, and the check refuses it. */
  lemma MalformedHeadIsRejected(hash: Hash)
    requires CollisionFree(hash)
    ensures var plan := Create(Example(hash), hash, TARGET, Some(BASE_COMMIT), MALFORMED);
      plan.Some? && !Validate(Example(hash), hash, plan.value, None)
  {
    FactsAreRead(hash);
    CreatedIsAccepted(Example(hash), hash, TARGET, Some(BASE_COMMIT), MALFORMED);
  }
}
