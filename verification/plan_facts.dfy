/**
  When a gate plan is made and which facts about a repository let it be a
  documentation plan, told from the repository itself
  (scripts/change-plan.mjs, scripts/change-plan-git.mjs).
 */
module PlanFacts {
  import opened Options
  import opened Text
  import opened Json
  import opened JsonText
  import opened RawDiff
  import opened ChangeFacts
  import opened GatePlan
  import opened PlanCheck
  import opened PlanSelection

  // ---------- Names and paths ----------

  /** A full object name. */
  predicate FullName(oid: string) {
    (|oid| == 40 || |oid| == 64) && forall c :: c in oid ==> c in "0123456789abcdef"
  }

  lemma FullNames(oid: string)
    ensures IsOid(oid) <==> FullName(oid)
  {
    forall c ensures HexChar(c) <==> c in "0123456789abcdef" {
      HexDigits(c);
    }
    assert IsOid(oid) ==> forall c :: c in oid ==> HexChar(c);
    assert FullName(oid) ==> forall i :: 0 <= i < |oid| ==> oid[i] in oid;
  }

  lemma HexDigits(c: char)
    ensures HexChar(c) <==> c in "0123456789abcdef"
  {
    var digits := "0123456789abcdef";
    if HexChar(c) {
      var k := if Digit(c) then c as int - '0' as int else c as int - 'a' as int + 10;
      assert digits[k] == c;
    }
  }

  /** Part of a path: a piece without a slash that ends at slashes or at the ends of the path. */
  predicate Part(file: string, i: int, j: int) {
    0 <= i <= j <= |file| && '/' !in file[i..j] && (i == 0 || file[i - 1] == '/') && (j == |file| || file[j] == '/')
  }

  ghost predicate HasPart(file: string, name: string) {
    exists i, j :: Part(file, i, j) && file[i..j] == name
  }

  lemma PartsAreSplit(file: string, name: string)
    ensures HasPart(file, name) <==> name in Split('/', file)
  {
    if name in Split('/', file) {
      var k :| 0 <= k < |Split('/', file)| && Split('/', file)[k] == name;
      var i, j := SplitIsPart(file, k);
    }
    forall i, j | Part(file, i, j) ensures file[i..j] in Split('/', file) {
      var k := PartIsSplit(file, i, j);
    }
  }

  lemma {:induction false} SplitIsPart(file: string, k: nat) returns (i: nat, j: nat)
    requires k < |Split('/', file)|
    ensures Part(file, i, j) && file[i..j] == Split('/', file)[k] && (k == 0 <==> i == 0)
    decreases |file|
  {
    i, j := 0, 0;
    if file != [] && !(file[0] == '/' && k == 0) {
      var rest := file[1..];
      var a, b := SplitIsPart(rest, if file[0] == '/' then k - 1 else k);
      assert rest[a..b] == file[a + 1..b + 1];
      i, j := if k == 0 then 0 else a + 1, b + 1;
      assert k == 0 ==> file[0..j] == [file[0]] + rest[0..b];
    }
  }

  lemma TailPart(file: string, i: nat, j: nat)
    requires Part(file, i, j) && i > 0
    ensures Part(file[1..], i - 1, j - 1) && file[1..][i - 1..j - 1] == file[i..j]
    ensures file[0] == '/' || i > 1
  {
    assert file[1..][i - 1..j - 1] == file[i..j];
  }

  lemma SplitTail(file: string)
    requires file != []
    ensures var all, rest := Split('/', file), Split('/', file[1..]);
      if file[0] == '/' then all == [""] + rest else |all| == |rest| && all[1..] == rest[1..]
  {}

  lemma {:induction false} PartIsSplit(file: string, i: nat, j: nat) returns (k: nat)
    requires Part(file, i, j)
    ensures k < |Split('/', file)| && file[i..j] == Split('/', file)[k] && (k == 0 <==> i == 0)
    decreases |file|
  {
    k := 0;
    if i > 0 {
      var rest := Split('/', file[1..]);
      TailPart(file, i, j);
      SplitTail(file);
      k := PartIsSplit(file[1..], i - 1, j - 1);
      if file[0] == '/' {
        k := k + 1;
      } else {
        assert Split('/', file)[1..][k - 1] == rest[1..][k - 1];
      }
    } else {
      FirstPart(file, j);
    }
  }

  lemma {:induction false} FirstPart(file: string, j: nat)
    requires Part(file, 0, j)
    ensures file[..j] == Split('/', file)[0]
    decreases |file|
  {
    if j > 0 {
      var rest := file[1..];
      assert file[0..j][0] == file[0];
      assert file[0..j] == [file[0]] + rest[0..j - 1];
      FirstPart(rest, j - 1);
    }
  }

  /** A path as `ls-tree` names files: no backslash or NUL, and every part is a name of its own. */
  ghost predicate PlainPath(file: string) {
    '\\' !in file && NUL !in file && !HasPart(file, "") && !HasPart(file, ".") && !HasPart(file, "..")
  }

  lemma PlainPaths(file: string)
    ensures ValidPath(file) <==> PlainPath(file)
  {
    PartsAreSplit(file, "");
    PartsAreSplit(file, ".");
    PartsAreSplit(file, "..");
    assert file == [] ==> Part(file, 0, 0) && file[0..0] == "";
    NoneOfThree(Split('/', file));
  }

  lemma NoneOfThree(parts: seq<string>)
    ensures (forall k :: 0 <= k < |parts| ==> parts[k] !in ["", ".", ".."]) <==>
      "" !in parts && "." !in parts && ".." !in parts
  {
    forall k | 0 <= k < |parts| ensures parts[k] in ["", ".", ".."] <==> parts[k] in {"", ".", ".."} {}
  }

  /** The name is this prefix, something, and this suffix. */
  predicate Framed(file: string, prefix: string, middle: string, suffix: string) {
    middle != [] && file == prefix + middle + suffix
  }

  ghost predicate SomeFramed(file: string, prefix: string, suffix: string) {
    exists middle :: Framed(file, prefix, middle, suffix)
  }

  lemma BetweenFrames(file: string, prefix: string, suffix: string)
    ensures Between(file, prefix, suffix) <==> SomeFramed(file, prefix, suffix)
    ensures Between(file, prefix, suffix) ==>
      Framed(file, prefix, file[|prefix|..|file| - |suffix|], suffix)
  {
    if Between(file, prefix, suffix) {
      var k := |file| - |suffix|;
      assert file == file[..|prefix|] + file[|prefix|..k] + file[k..];
      assert Framed(file, prefix, file[|prefix|..k], suffix);
    }
  }

  /** One of four files at the top, or a Markdown file under docs or examples. */
  ghost predicate DocsName(file: string) {
    PlainPath(file) &&
    (file in {"README.md", "AGENTS.md", "SECURITY.md", "CHANGELOG.md"}
     || SomeFramed(file, "docs/", ".md") || SomeFramed(file, "examples/", ".md"))
  }

  lemma DocsNames(file: string)
    ensures DocumentationPath(file) <==> DocsName(file)
  {
    PlainPaths(file);
    BetweenFrames(file, "docs/", ".md");
    BetweenFrames(file, "examples/", ".md");
    assert file in DOCS <==> file in {"README.md", "AGENTS.md", "SECURITY.md", "CHANGELOG.md"};
  }

  /** A test of the tree: under tests or packages, outside installed modules and repositories. */
  ghost predicate TestName(file: string) {
    && ("tests/" <= file || "packages/" <= file) && EndsWith(file, ".test.mjs")
    && !HasPart(file, "node_modules") && !HasPart(file, ".git")
  }

  lemma TestNames(file: string)
    ensures TreeTest(file) <==> TestName(file)
  {
    PartsAreSplit(file, "node_modules");
    PartsAreSplit(file, ".git");
    NoneOfTwo(Split('/', file));
  }

  lemma NoneOfTwo(parts: seq<string>)
    ensures (forall k :: 0 <= k < |parts| ==> parts[k] !in ["node_modules", ".git"]) <==>
      "node_modules" !in parts && ".git" !in parts
  {
    forall k | 0 <= k < |parts|
      ensures parts[k] in ["node_modules", ".git"] <==> parts[k] in {"node_modules", ".git"}
    {}
  }

  // ---------- Events ----------

  const LOWER := "abcdefghijklmnopqrstuvwxyz"
  const UPPER := "ABCDEFGHIJKLMNOPQRSTUVWXYZ"

  predicate BranchChar(c: char) {
    c in LOWER || c in UPPER || c in "0123456789" || c in "._/-"
  }

  /** A branch other than main, release and the branches named after release. */
  predicate OrdinaryBranch(branch: string) {
    && branch != [] && (forall c :: c in branch ==> BranchChar(c))
    && branch != "main" && branch != "release" && !StartsWith(branch, "release/") && !StartsWith(branch, "release-")
  }

  /** A branch by a name of letters, digits, dots, underscores, slashes and dashes. */
  predicate BranchName(ref: string) {
    StartsWith(ref, "refs/heads/") && ref != "refs/heads/" && forall c :: c in ref[11..] ==> BranchChar(c)
  }

  /** The head of a pull request: the one it names, or else the target. */
  function HeadOf(event: Event, target: string): string {
    match event.headCommit
    case Some(head) => head
    case None => target
  }

  /** A push to an ordinary branch, or a pull request with a full head; nothing else may do with less than all tests. */
  predicate AllowsDocs(event: Event, target: string) {
    match event.kind
    case None => false
    case Some(kind) =>
      || (kind == "push" && event.ref.Some? && StartsWith(event.ref.value, "refs/heads/")
          && OrdinaryBranch(event.ref.value[11..]))
      || (kind == "pr" && FullName(HeadOf(event, target)))
  }

  lemma LowerChars(c: char)
    ensures 'a' <= c <= 'z' <==> c in LOWER
  {
    assert 'a' <= c <= 'z' ==> LOWER[c as int - 'a' as int] == c;
  }

  lemma UpperChars(c: char)
    ensures 'A' <= c <= 'Z' <==> c in UPPER
  {
    assert 'A' <= c <= 'Z' ==> UPPER[c as int - 'A' as int] == c;
  }

  lemma Digits(c: char)
    ensures Digit(c) <==> c in "0123456789"
  {
    assert Digit(c) ==> "0123456789"[c as int - '0' as int] == c;
  }

  lemma RefChars(c: char)
    ensures RefChar(c) <==> BranchChar(c)
  {
    LowerChars(c);
    UpperChars(c);
    Digits(c);
  }

  lemma BranchNames(ref: string)
    ensures BranchRef(ref) <==> BranchName(ref)
  {
    if StartsWith(ref, "refs/heads/") {
      var branch := ref[11..];
      assert ref == "refs/heads/" + branch;
      forall c ensures RefChar(c) <==> BranchChar(c) {
        RefChars(c);
      }
      assert forall i :: 11 <= i < |ref| ==> ref[i] == branch[i - 11];
      assert forall i :: 0 <= i < |branch| ==> branch[i] == ref[i + 11];
    }
  }

  lemma BranchRefs(ref: string)
    ensures StartsWith(ref, "refs/heads/") ==>
      (OrdinaryBranch(ref[11..]) <==> BranchRef(ref) && ref != MAIN && !ReleaseRef(ref))
  {
    BranchNames(ref);
    if StartsWith(ref, "refs/heads/") {
      var branch := ref[11..];
      assert ref == "refs/heads/" + branch;
      assert MAIN == "refs/heads/" + "main";
      ReleaseRefs(branch);
    }
  }

  lemma ReleaseRefs(branch: string)
    ensures ReleaseRef("refs/heads/" + branch) <==>
      branch == "release" || StartsWith(branch, "release/") || StartsWith(branch, "release-")
  {
    var ref := "refs/heads/" + branch;
    assert ref[11..] == branch;
    assert "refs/heads/release"[11..] == "release" && "refs/heads/" + "release" == "refs/heads/release";
    if StartsWith(ref, "refs/heads/release") {
      assert branch[..7] == ref[11..18] == "refs/heads/release"[11..18] == "release";
      assert |branch| > 7 ==> branch[7] == ref[18];
    }
    if StartsWith(branch, "release") {
      assert ref[..18] == "refs/heads/" + branch[..7];
    }
  }

  lemma ContextAllows(event: Event, target: string)
    ensures EventContext(event, target).allowed <==> AllowsDocs(event, target)
    ensures EventContext(event, target).head ==
      if event.kind == Some("pr") && FullName(HeadOf(event, target)) then Some(HeadOf(event, target)) else None
    ensures EventContext(event, target).kind ==
      if event.kind in {Some("push"), Some("pr"), Some("release")} then event.kind.value else "unknown"
    ensures EventContext(event, target).ref ==
      if event.kind == Some("push") && event.ref.Some? && BranchName(event.ref.value) then event.ref else None
  {
    FullNames(HeadOf(event, target));
    if event.ref.Some? {
      BranchRefs(event.ref.value);
      BranchNames(event.ref.value);
    }
    assert "pr"[1] != "push"[1];
  }

  // ---------- History ----------

  /** A commit that git knows, with its tree. */
  predicate Known(repo: Repo, oid: string) {
    FullName(oid) && oid in repo.commits && FullName(repo.commits[oid])
  }

  /**
    The changes since the base are known: base, ancestry and the head of a pull
    request in a repository that is not shallow, the difference, and the base tree.
   */
  predicate HistoryKnown(repo: Repo, target: string, base: Option<string>, event: Event) {
    && base.Some? && Known(repo, base.value) && !repo.shallow && (base.value, target) in repo.ancestors
    && (event.kind == Some("pr") && FullName(HeadOf(event, target)) ==>
          Known(repo, HeadOf(event, target)) && (HeadOf(event, target), target) in repo.ancestors)
    && (base.value, target) in repo.diffs && Parse(repo.diffs[(base.value, target)]).Some?
    && repo.commits[base.value] in repo.trees
  }

  lemma KnownResolves(repo: Repo, oid: Option<string>)
    ensures Resolve(repo, oid) == if oid.Some? && Known(repo, oid.value) then Some(repo.commits[oid.value]) else None
  {
    if oid.Some? {
      FullNames(oid.value);
      if oid.value in repo.commits {
        FullNames(repo.commits[oid.value]);
      }
    }
  }

  /** What the planner reads of the history, as the repository has it. */
  lemma HistoryFacts(repo: Repo, target: string, entries: seq<Entry>, base: Option<string>, event: Event)
    ensures var history := ReadHistory(repo, target, entries, base, EventContext(event, target).head);
      && (history.complete <==> HistoryKnown(repo, target, base, event))
      && (history.complete ==> history.ancestryVerified
                               && Some(history.changes) == Parse(repo.diffs[(base.value, target)]))
      && (history.ambiguous ==> history.complete)
      && (history.complete ==>
            history.ambiguous == CopyOriginAmbiguous(history.changes, repo.trees[repo.commits[base.value]], entries))
      && history.baseTree == (if base.Some? && Known(repo, base.value) then Some(repo.commits[base.value]) else None)
  {
    ContextAllows(event, target);
    KnownResolves(repo, base);
    KnownResolves(repo, Some(HeadOf(event, target)));
  }

  // ---------- Changes ----------

  ghost predicate PlainDocs(path: Option<string>, mode: Option<string>) {
    path.Some? && DocsName(path.value) && mode == Some("100644")
  }

  /** Plain documentation on either side that is there; a modification stays in its place. */
  ghost predicate DocsChange(c: Change) {
    && c.status in "ADMRC"
    && (if c.status == 'A' then c.oldPath.None? && c.oldMode.None? else PlainDocs(c.oldPath, c.oldMode))
    && (if c.status == 'D' then c.newPath.None? && c.newMode.None? else PlainDocs(c.newPath, c.newMode))
    && (c.status == 'M' ==> c.oldPath == c.newPath)
  }

  lemma DocsChanges(c: Change)
    ensures Ordinary(c) <==> DocsChange(c)
  {
    if c.oldPath.Some? {
      DocsNames(c.oldPath.value);
    }
    if c.newPath.Some? {
      DocsNames(c.newPath.value);
    }
  }

  /** A base file that is not plain documentation has these bytes. */
  ghost predicate SourceBytes(base: seq<Entry>, oid: string) {
    exists e :: e in base && e.oid == oid && !(DocsName(e.path) && e.mode == "100644")
  }

  lemma SourceBytesAreForeign(base: seq<Entry>, oid: string)
    ensures Foreign(base, oid) <==> SourceBytes(base, oid)
  {
    forall i | 0 <= i < |base| ensures DocumentationPath(base[i].path) <==> DocsName(base[i].path) {
      DocsNames(base[i].path);
    }
    if SourceBytes(base, oid) {
      var e :| e in base && e.oid == oid && !(DocsName(e.path) && e.mode == "100644");
      var i :| 0 <= i < |base| && base[i] == e;
    }
  }

  /** A copy or a rename keeps the bytes of the file it came from, and new documentation takes none of a source file. */
  ghost predicate OwnBytes(c: Change, base: seq<Entry>, target: seq<Entry>) {
    && c.newPath.Some?
    && (At(target, c.newPath.value).Some? ==> !SourceBytes(base, At(target, c.newPath.value).value.oid))
    && (c.status != 'A' ==>
          c.oldPath.Some? && At(base, c.oldPath.value).Some? && At(target, c.newPath.value).Some?
          && At(base, c.oldPath.value).value.oid == At(target, c.newPath.value).value.oid)
  }

  /** A documentation file that is added, copied or renamed, and whose bytes are not known to be its own. */
  ghost predicate Borrows(c: Change, base: seq<Entry>, target: seq<Entry>) {
    && (c.status == 'A' || c.status == 'C' || c.status == 'R') && c.newPath.Some? && DocsName(c.newPath.value)
    && !OwnBytes(c, base, target)
  }

  lemma BorrowsAreAmbiguous(c: Change, base: seq<Entry>, target: seq<Entry>)
    ensures Ambiguous(c, base, target) <==> Borrows(c, base, target)
  {
    if c.newPath.Some? {
      DocsNames(c.newPath.value);
      if At(target, c.newPath.value).Some? {
        SourceBytesAreForeign(base, At(target, c.newPath.value).value.oid);
      }
    }
  }

  /** Some change, and nothing but changes of documentation that borrow no bytes. */
  ghost predicate DocsOnly(changes: seq<Change>, base: seq<Entry>, target: seq<Entry>) {
    && changes != []
    && forall c :: c in changes ==> DocsChange(c) && !Borrows(c, base, target)
  }

  lemma DocsOnlyExactly(changes: seq<Change>, base: seq<Entry>, target: seq<Entry>)
    ensures AllOrdinary(changes) <==> forall c :: c in changes ==> DocsChange(c)
    ensures CopyOriginAmbiguous(changes, base, target) <==> exists c :: c in changes && Borrows(c, base, target)
  {
    forall i | 0 <= i < |changes|
      ensures changes[i] in changes && (Ordinary(changes[i]) <==> DocsChange(changes[i]))
      ensures Ambiguous(changes[i], base, target) <==> Borrows(changes[i], base, target)
    {
      DocsChanges(changes[i]);
      BorrowsAreAmbiguous(changes[i], base, target);
    }
    forall c | c in changes ensures exists i :: 0 <= i < |changes| && changes[i] == c {}
  }

  // ---------- The manifest and the tests ----------

  /** This field lists exactly these strings, in any order. */
  predicate Lists(m: Json, key: string, items: multiset<string>) {
    Strings(Field(m, key)).Some? && multiset(Strings(Field(m, key)).value) == items
  }

  predicate OneLine(text: string) {
    forall c :: c in text ==> !LineEnd(c)
  }

  ghost predicate TestUnder(file: string, folder: string) {
    exists middle :: Framed(file, folder, middle, TEST) && OneLine(middle)
  }

  /** A test file by its name alone, on one line. */
  ghost predicate TestFile(file: string) {
    TestUnder(file, "tests/") || TestUnder(file, "packages/")
  }

  predicate AuditedNames(m: Json) {
    && Lists(m, "documentation", multiset{"README.md", "AGENTS.md", "SECURITY.md", "CHANGELOG.md"})
    && Lists(m, "documentationRoots", multiset{"examples", "docs"})
  }

  ghost predicate AuditedReaders(m: Json) {
    var readers := Strings(Field(m, "externalReaders"));
    readers.Some? && forall x :: x in readers.value ==> PlainPath(x) && TestFile(x)
  }

  ghost predicate AuditedDigest(m: Json) {
    exists digest :: Field(m, "sourceDigest") == Some(TStr(digest)) && |digest| == 64 && FullName(digest)
  }

  /** What an audit of the readers of documentation leaves behind. */
  ghost predicate AuditManifest(manifest: Option<Json>) {
    manifest.Some? && Field(manifest.value, "schema") == Some(TNum("1")) && AuditedNames(manifest.value)
    && AuditedReaders(manifest.value) && AuditedDigest(manifest.value)
  }

  lemma TestsUnder(file: string, folder: string)
    requires OneLine(folder)
    ensures Between(file, folder, TEST) && (forall i :: 0 <= i < |file| ==> !LineEnd(file[i])) <==>
      TestUnder(file, folder)
  {
    assert OneLine(TEST);
    BetweenFrames(file, folder, TEST);
    if TestUnder(file, folder) {
      var middle :| Framed(file, folder, middle, TEST) && OneLine(middle);
      assert SomeFramed(file, folder, TEST);
      forall i | 0 <= i < |file| ensures !LineEnd(file[i]) {
        assert file[i] in folder + middle + TEST;
      }
    }
    if Between(file, folder, TEST) && forall i :: 0 <= i < |file| ==> !LineEnd(file[i]) {
      assert OneLine(file[|folder|..|file| - |TEST|]);
    }
  }

  lemma TestFiles(file: string)
    ensures TestPath(file) <==> TestFile(file)
  {
    assert OneLine("tests/") && OneLine("packages/");
    TestsUnder(file, "tests/");
    TestsUnder(file, "packages/");
  }

  lemma ListsSorted(m: Json, key: string, names: seq<string>)
    requires Strict(ByText, names)
    ensures Lists(m, key, multiset(names)) <==>
      Strings(Field(m, key)).Some? && Sort(ByText, Strings(Field(m, key)).value) == names
  {
    if Strings(Field(m, key)).Some? {
      SortsTo(ByText, Strings(Field(m, key)).value, names);
    }
  }

  lemma ListedNames(m: Json)
    ensures Lists(m, "documentation", multiset{"README.md", "AGENTS.md", "SECURITY.md", "CHANGELOG.md"}) <==>
      Lists(m, "documentation", multiset(DOCS))
    ensures Lists(m, "documentationRoots", multiset{"examples", "docs"}) <==>
      Lists(m, "documentationRoots", multiset(ROOTS))
  {
    assert multiset(DOCS) == multiset{"README.md", "AGENTS.md", "SECURITY.md", "CHANGELOG.md"};
    assert multiset(ROOTS) == multiset{"examples", "docs"};
  }

  lemma NamesAreSorted()
    ensures Strict(ByText, DOCS) && Strict(ByText, ROOTS)
  {}

  /** The two lists of a manifest, as the planner compares them. */
  predicate NamesListed(m: Json) {
    var documentation, roots := Strings(Field(m, "documentation")), Strings(Field(m, "documentationRoots"));
    && documentation.Some? && Sort(ByText, documentation.value) == DOCS
    && roots.Some? && Sort(ByText, roots.value) == ROOTS
  }

  lemma NamesAreListed(m: Json)
    ensures NamesListed(m) <==> AuditedNames(m)
  {
    NamesAreSorted();
    ListedNames(m);
    ListsSorted(m, "documentation", DOCS);
    ListsSorted(m, "documentationRoots", ROOTS);
  }

  predicate ReadersListed(m: Json) {
    var readers := Strings(Field(m, "externalReaders"));
    readers.Some? && forall i :: 0 <= i < |readers.value| ==> ValidPath(readers.value[i]) && TestPath(readers.value[i])
  }

  lemma ReadersAreAudited(m: Json)
    ensures ReadersListed(m) <==> AuditedReaders(m)
  {
    if Strings(Field(m, "externalReaders")).Some? {
      ReaderPaths(Strings(Field(m, "externalReaders")).value);
    }
  }

  predicate DigestListed(m: Json) {
    var digest := Text1(Field(m, "sourceDigest"));
    digest.Some? && |digest.value| == 64 && IsHex(digest.value)
  }

  lemma Digests(m: Json)
    ensures DigestListed(m) <==> AuditedDigest(m)
  {
    var digest := Text1(Field(m, "sourceDigest"));
    if digest.Some? {
      FullNames(digest.value);
    }
  }

  lemma ManifestParts(m: Json)
    ensures ValidManifest(Some(m)) <==>
      Field(m, "schema") == Some(TNum("1")) && NamesListed(m) && ReadersListed(m) && DigestListed(m)
  {}

  lemma ManifestIsAudit(manifest: Option<Json>)
    ensures ValidManifest(manifest) <==> AuditManifest(manifest)
  {
    if manifest.Some? {
      ManifestParts(manifest.value);
      NamesAreListed(manifest.value);
      ReadersAreAudited(manifest.value);
      Digests(manifest.value);
    }
  }

  lemma ReaderPaths(readers: seq<string>)
    ensures (forall i :: 0 <= i < |readers| ==> ValidPath(readers[i]) && TestPath(readers[i])) <==>
      forall x :: x in readers ==> PlainPath(x) && TestFile(x)
  {
    forall x | x in readers ensures ValidPath(x) && TestPath(x) <==> PlainPath(x) && TestFile(x) {
      PlainPaths(x);
      TestFiles(x);
    }
  }

  /** Every external reader of documentation is listed and there, and some test of the documentation is. */
  ghost predicate SelectionReady(entries: seq<Entry>, manifest: Option<Json>) {
    && AuditManifest(manifest)
    && (forall x :: x in EXTERNAL_READERS ==>
          x in Strings(Field(manifest.value, "externalReaders")).value && x in PathsOf(entries) && TestName(x))
    && exists x :: x in PathsOf(entries) && TestName(x) && StartsWith(x, "tests/docs/")
  }

  lemma {:induction false} TextsOfStrings(items: seq<Tree>)
    requires forall i :: 0 <= i < |items| ==> items[i].TStr?
    ensures |Texts(items)| == |items| && forall i :: 0 <= i < |items| ==> Texts(items)[i] == items[i].text
  {
    if items != [] {
      TextsOfStrings(items[1..]);
    }
  }

  lemma ReadersAreListed(manifest: Option<Json>)
    requires manifest.Some? && Strings(Field(manifest.value, "externalReaders")).Some?
    ensures Readers(manifest) == Strings(Field(manifest.value, "externalReaders")).value
  {
    TextsOfStrings(Field(manifest.value, "externalReaders").value.items);
  }

  lemma SelectionIsReady(facts: Facts)
    requires facts.discovery == DiscoverTreeTests(facts.entries)
    ensures SelectionIncomplete(facts) <==> !SelectionReady(facts.entries, facts.manifest)
  {
    ManifestIsAudit(facts.manifest);
    if AuditManifest(facts.manifest) {
      ReadersAreListed(facts.manifest);
      ReadersAreCovered(facts);
      DocsAreTested(facts);
    }
  }

  lemma Discovered(entries: seq<Entry>, file: string)
    ensures file in DiscoverTreeTests(entries) <==> file in PathsOf(entries) && TestName(file)
  {
    DiscoveryIsTests(entries);
    TestNames(file);
  }

  lemma ReadersAreCovered(facts: Facts)
    requires facts.discovery == DiscoverTreeTests(facts.entries)
    ensures (exists i :: 0 <= i < |EXTERNAL_READERS| && !Covered(facts, EXTERNAL_READERS[i])) <==>
      exists x :: x in EXTERNAL_READERS && !(x in Readers(facts.manifest) && x in PathsOf(facts.entries) && TestName(x))
  {
    AllCovered(facts, EXTERNAL_READERS);
  }

  lemma AllCovered(facts: Facts, readers: seq<string>)
    requires facts.discovery == DiscoverTreeTests(facts.entries)
    ensures (exists i :: 0 <= i < |readers| && !Covered(facts, readers[i])) <==>
      exists x :: x in readers && !(x in Readers(facts.manifest) && x in PathsOf(facts.entries) && TestName(x))
  {
    forall i | 0 <= i < |readers|
      ensures readers[i] in readers
      ensures Covered(facts, readers[i]) <==>
        readers[i] in Readers(facts.manifest) && readers[i] in PathsOf(facts.entries) && TestName(readers[i])
    {
      Discovered(facts.entries, readers[i]);
    }
    forall x | x in readers ensures exists i :: 0 <= i < |readers| && readers[i] == x {}
  }

  lemma DocsAreTested(facts: Facts)
    requires facts.discovery == DiscoverTreeTests(facts.entries)
    ensures (exists i :: 0 <= i < |SelectedDocs(facts)| && DocsTest(SelectedDocs(facts)[i])) <==>
      exists x :: x in PathsOf(facts.entries) && TestName(x) && StartsWith(x, "tests/docs/")
  {
    var files := SelectedDocs(facts);
    SelectedRuns(facts, true);
    forall i | 0 <= i < |files| && DocsTest(files[i])
      ensures files[i] in PathsOf(facts.entries) && TestName(files[i]) && StartsWith(files[i], "tests/docs/")
    {
      assert files[i] in SelectedIn(facts, true);
      TestNames(files[i]);
    }
    forall x | x in PathsOf(facts.entries) && TestName(x) && StartsWith(x, "tests/docs/")
      ensures exists i :: 0 <= i < |files| && DocsTest(files[i])
    {
      TestNames(x);
      assert x in SelectedIn(facts, true) && DocsTest(x);
    }
  }

  // ---------- When a plan is made ----------

  /** The target can be planned for: plain files only, with usable names, and a test among them. */
  ghost predicate Plannable(repo: Repo, target: string) {
    && Known(repo, target) && repo.commits[target] in repo.trees
    && var entries := repo.trees[repo.commits[target]];
       && (forall e :: e in entries ==> PlainPath(e.path) && e.kind == "blob")
       && exists x :: x in PathsOf(entries) && TestName(x)
  }

  lemma PlansAreMade(repo: Repo, target: string)
    ensures TargetFacts(repo, target).Some? <==> Plannable(repo, target)
    ensures TargetFacts(repo, target).Some? ==>
      var facts := TargetFacts(repo, target).value;
      && facts.tree == repo.commits[target] && facts.entries == repo.trees[facts.tree]
      && facts.discovery == DiscoverTreeTests(facts.entries) && facts.manifest == ReadManifest(repo, facts.entries)
  {
    KnownResolves(repo, Some(target));
    if Known(repo, target) && repo.commits[target] in repo.trees {
      var entries := repo.trees[repo.commits[target]];
      EntriesArePlain(entries);
      TestsAreFound(entries);
    }
  }

  lemma EntriesArePlain(entries: seq<Entry>)
    ensures (exists i :: 0 <= i < |entries| && !ValidPath(entries[i].path)) || !AllBlobs(entries) <==>
      !forall e :: e in entries ==> PlainPath(e.path) && e.kind == "blob"
  {
    forall i | 0 <= i < |entries| ensures ValidPath(entries[i].path) <==> PlainPath(entries[i].path) {
      PlainPaths(entries[i].path);
    }
    forall e | e in entries ensures exists i :: 0 <= i < |entries| && entries[i] == e {}
  }

  lemma TestsAreFound(entries: seq<Entry>)
    ensures DiscoverTreeTests(entries) != [] <==> exists x :: x in PathsOf(entries) && TestName(x)
  {
    var tests := DiscoverTreeTests(entries);
    if tests != [] {
      Discovered(entries, tests[0]);
    }
    forall x | x in PathsOf(entries) && TestName(x) ensures x in tests {
      Discovered(entries, x);
    }
  }

  // ---------- When it is a documentation plan ----------

  /** The source files are those of the audit, and the tree holds regular files only. */
  predicate Audited(hash: Hash, entries: seq<Entry>, manifest: Option<Json>) {
    manifest.Some? && Field(manifest.value, "sourceDigest") == Some(TStr(SourceDigest(hash, entries)))
  }

  predicate Regular(entries: seq<Entry>) {
    forall e :: e in entries ==> e.kind == "blob" && (e.mode == "100644" || e.mode == "100755")
  }

  lemma UnsupportedTrees(facts: Facts)
    ensures Unsupported(facts) <==> !Regular(facts.entries)
  {
    forall i | 0 <= i < |facts.entries| ensures facts.entries[i] in facts.entries {}
    forall e | e in facts.entries ensures exists i :: 0 <= i < |facts.entries| && facts.entries[i] == e {}
  }

  /** Everything that a documentation plan for this target needs. */
  ghost predicate DocsWillDo(repo: Repo, hash: Hash, target: string, base: Option<string>, event: Event)
    requires Plannable(repo, target)
  {
    var entries := repo.trees[repo.commits[target]];
    var manifest := ReadManifest(repo, entries);
    && AllowsDocs(event, target) && HistoryKnown(repo, target, base, event)
    && DocsOnly(Parse(repo.diffs[(base.value, target)]).value, repo.trees[repo.commits[base.value]], entries)
    && SelectionReady(entries, manifest) && Audited(hash, entries, manifest) && Regular(entries)
  }

  /**
    A plan is made exactly for a target that can be planned for, and it is a
    documentation plan exactly when the event allows one, the history since the
    base is known and changes nothing but documentation, and the audited readers
    of documentation are all there.
   */
  lemma DocsExactly(repo: Repo, hash: Hash, target: string, base: Option<string>, event: Event)
    ensures Create(repo, hash, target, base, event).Some? <==> Plannable(repo, target)
    ensures Create(repo, hash, target, base, event).Some? ==>
      (IsDocs(Create(repo, hash, target, base, event).value) <==> DocsWillDo(repo, hash, target, base, event))
  {
    PlansAreMade(repo, target);
    if Plannable(repo, target) {
      var facts := TargetFacts(repo, target).value;
      var context := EventContext(event, target);
      var history := ReadHistory(repo, target, facts.entries, base, context.head);
      var docs, reasons := DocsScope(hash, facts, context, history), Reasons(hash, facts, context, history);
      PlanHeadFields(hash, target, facts, docs, history.baseTree, reasons);
      assert "docs"[0] != "full"[0];
      ScopeExactly(repo, hash, target, facts, base, event);
    }
  }

  lemma ScopeExactly(repo: Repo, hash: Hash, target: string, facts: Facts, base: Option<string>, event: Event)
    requires TargetFacts(repo, target) == Some(facts) && Plannable(repo, target)
    ensures var context := EventContext(event, target);
      var history := ReadHistory(repo, target, facts.entries, base, context.head);
      DocsScope(hash, facts, context, history) <==> DocsWillDo(repo, hash, target, base, event)
  {
    var context := EventContext(event, target);
    var history := ReadHistory(repo, target, facts.entries, base, context.head);
    PlansAreMade(repo, target);
    ContextAllows(event, target);
    HistoryAllows(repo, target, facts.entries, base, event);
    ScopeParts(hash, facts, context, history);
    SelectionIsReady(facts);
    UnsupportedTrees(facts);
  }

  /** The verdict on the changes and the copy check, together. */
  predicate HistoryOfDocs(history: History) {
    history.complete && !history.ambiguous && history.ancestryVerified && history.changes != []
    && AllOrdinary(history.changes)
  }

  lemma ScopeParts(hash: Hash, facts: Facts, context: Context, history: History)
    ensures DocsScope(hash, facts, context, history) <==>
      context.allowed && HistoryOfDocs(history) && !SelectionIncomplete(facts)
      && Audited(hash, facts.entries, facts.manifest) && !Unsupported(facts)
  {}

  lemma HistoryAllows(repo: Repo, target: string, entries: seq<Entry>, base: Option<string>, event: Event)
    ensures HistoryOfDocs(ReadHistory(repo, target, entries, base, EventContext(event, target).head)) <==>
      HistoryKnown(repo, target, base, event)
      && DocsOnly(Parse(repo.diffs[(base.value, target)]).value, repo.trees[repo.commits[base.value]], entries)
  {
    var history := ReadHistory(repo, target, entries, base, EventContext(event, target).head);
    HistoryFacts(repo, target, entries, base, event);
    if history.complete {
      DocsOnlyExactly(history.changes, repo.trees[repo.commits[base.value]], entries);
    }
  }

  // ---------- What a plan records ----------

  /** A blob of the tree at this path with this mode, and what it holds. */
  predicate Holds(repo: Repo, entries: seq<Entry>, path: string, mode: string, value: Json) {
    var entry := At(entries, path);
    && entry.Some? && entry.value.kind == "blob" && entry.value.mode == mode
    && entry.value.oid in repo.blobs && repo.blobs[entry.value.oid] == value
  }

  /** What stands for a manifest that cannot be read: the object at its path, if there is one. */
  function Unavailable(entries: seq<Entry>): Json {
    var entry := At(entries, "scripts/validation-impact.json");
    Obj([Member("unavailable", if entry.Some? then Str(entry.value.oid) else Null)])
  }

  /** The context a plan records: what kind of event it is, and its ref, head and base when they are usable. */
  lemma PlanRecordsContext(repo: Repo, hash: Hash, target: string, base: Option<string>, event: Event)
    requires Create(repo, hash, target, base, event).Some?
    ensures var reasons := Strings(Field(Create(repo, hash, target, base, event).value, "reasons"));
      && reasons.Some? && Unambiguous(reasons.value)
      && Cut(reasons.value, "event:") ==
           Some(if event.kind in {Some("push"), Some("pr"), Some("release")} then event.kind.value else "unknown")
      && Cut(reasons.value, "ref:") ==
           (if event.kind == Some("push") && event.ref.Some? && BranchName(event.ref.value) then event.ref else None)
      && Cut(reasons.value, "head-commit:") ==
           (if event.kind == Some("pr") && FullName(HeadOf(event, target)) then Some(HeadOf(event, target)) else None)
      && Cut(reasons.value, "base-commit:") == (if base.Some? && Known(repo, base.value) then base else None)
  {
    var reasons := ReasonsOfMade(repo, hash, target, base, event);
    ContextAllows(event, target);
    KnownResolves(repo, base);
  }

  lemma ReasonsOfMade(repo: Repo, hash: Hash, target: string, base: Option<string>, event: Event)
    returns (reasons: seq<string>)
    requires Create(repo, hash, target, base, event).Some?
    ensures Strings(Field(Create(repo, hash, target, base, event).value, "reasons")) == Some(reasons)
    ensures Unambiguous(reasons)
    ensures var context := EventContext(event, target);
      && Cut(reasons, "event:") == Some(context.kind) && Cut(reasons, "ref:") == context.ref
      && Cut(reasons, "head-commit:") == context.head
      && Cut(reasons, "base-commit:") == if Resolve(repo, base).Some? then base else None
  {
    var facts := TargetFacts(repo, target).value;
    var context := EventContext(event, target);
    var history := ReadHistory(repo, target, facts.entries, base, context.head);
    reasons := Reasons(hash, facts, context, history);
    PlanFields(hash, target, facts, DocsScope(hash, facts, context, history), history.baseTree, reasons);
    ReasonsRecordContext(hash, facts, context, history);
    assert RecordedEvent(reasons) == Event(Cut(reasons, EVENT), Cut(reasons, REF), Cut(reasons, HEAD));
  }

  /** A plan names its target, and the trees of its target and of its base when git knows that. */
  lemma PlanRecordsTrees(repo: Repo, hash: Hash, target: string, base: Option<string>, event: Event)
    requires Create(repo, hash, target, base, event).Some?
    ensures Plannable(repo, target)
    ensures var plan := Create(repo, hash, target, base, event).value;
      && Field(plan, "targetCommit") == Some(TStr(target))
      && Field(plan, "targetTree") == Some(TStr(repo.commits[target]))
      && Field(plan, "baseTree") ==
           Some(if base.Some? && Known(repo, base.value) then TStr(repo.commits[base.value]) else TNull)
  {
    PlansAreMade(repo, target);
    var facts, docs, baseTree, reasons := MadeFrom(repo, hash, target, base, event);
    PlanHeadFields(hash, target, facts, docs, baseTree, reasons);
    PlanTrees(hash, target, facts, docs, baseTree, reasons);
  }

  ghost predicate DigestsManifest(repo: Repo, hash: Hash, entries: seq<Entry>, digest: string) {
    && (forall m :: m != Null && Holds(repo, entries, "scripts/validation-impact.json", "100644", m) ==>
          digest == HashPlan(hash, m))
    && ((forall m :: Holds(repo, entries, "scripts/validation-impact.json", "100644", m) ==> m == Null) ==>
          digest == HashPlan(hash, Unavailable(entries)))
  }

  lemma ManifestIsDigested(repo: Repo, hash: Hash, facts: Facts)
    requires facts.manifest == ReadManifest(repo, facts.entries)
    ensures DigestsManifest(repo, hash, facts.entries, ManifestDigest(hash, facts))
  {
    ManifestRead(repo, facts.entries);
    assert MANIFEST_PATH == "scripts/validation-impact.json";
  }

  /** A plan has the digest of the tests, and of the manifest or of what stands for an unreadable one. */
  lemma PlanRecordsDigests(repo: Repo, hash: Hash, target: string, base: Option<string>, event: Event)
    requires Create(repo, hash, target, base, event).Some?
    ensures Plannable(repo, target)
    ensures var plan := Create(repo, hash, target, base, event).value;
      var entries := repo.trees[repo.commits[target]];
      && Field(plan, "discoveryDigest") == Some(TStr(Digest(hash, DiscoverTreeTests(entries))))
      && exists digest ::
           Field(plan, "manifestDigest") == Some(TStr(digest)) && DigestsManifest(repo, hash, entries, digest)
  {
    PlansAreMade(repo, target);
    var facts, docs, baseTree, reasons := MadeFrom(repo, hash, target, base, event);
    PlanTrees(hash, target, facts, docs, baseTree, reasons);
    PlanDiscovery(hash, target, facts, docs, baseTree, reasons);
    ManifestIsDigested(repo, hash, facts);
  }

  lemma MadeFrom(repo: Repo, hash: Hash, target: string, base: Option<string>, event: Event)
    returns (facts: Facts, docs: bool, baseTree: Option<string>, reasons: seq<string>)
    requires Create(repo, hash, target, base, event).Some?
    ensures TargetFacts(repo, target) == Some(facts)
    ensures Create(repo, hash, target, base, event) ==
      Some(Sealed(hash, Body(hash, target, facts, docs, baseTree, reasons)))
    ensures baseTree == if base.Some? && Known(repo, base.value) then Some(repo.commits[base.value]) else None
  {
    facts := TargetFacts(repo, target).value;
    var context := EventContext(event, target);
    var history := ReadHistory(repo, target, facts.entries, base, context.head);
    HistoryFacts(repo, target, facts.entries, base, event);
    docs, baseTree, reasons := DocsScope(hash, facts, context, history), history.baseTree,
      Reasons(hash, facts, context, history);
  }

  lemma PlanTrees(hash: Hash, target: string, facts: Facts, docs: bool, baseTree: Option<string>, reasons: seq<string>)
    ensures var plan := Sealed(hash, Body(hash, target, facts, docs, baseTree, reasons));
      && Field(plan, "targetTree") == Some(TStr(facts.tree))
      && Field(plan, "baseTree") == Some(if baseTree.Some? then TStr(baseTree.value) else TNull)
      && Field(plan, "manifestDigest") == Some(TStr(ManifestDigest(hash, facts)))
  {
    PlanField(hash, target, facts, docs, baseTree, reasons, 3);
    PlanField(hash, target, facts, docs, baseTree, reasons, 4);
    PlanField(hash, target, facts, docs, baseTree, reasons, 5);
  }

  lemma ManifestRead(repo: Repo, entries: seq<Entry>)
    ensures var manifest := ReadManifest(repo, entries);
      && (forall m :: m != Null && Holds(repo, entries, "scripts/validation-impact.json", "100644", m) ==>
            manifest == Some(m))
      && ((forall m :: Holds(repo, entries, "scripts/validation-impact.json", "100644", m) ==> m == Null) ==>
            manifest.None?)
  {
    var entry := At(entries, MANIFEST_PATH);
    if ReadManifest(repo, entries).Some? {
      assert Holds(repo, entries, "scripts/validation-impact.json", "100644", ReadManifest(repo, entries).value);
    }
  }

  // ---------- Policy and audit ----------

  /**
    A documentation plan is made only for events that allow one, and only while
    the source files of the target are, by their digest, those that were audited
    for readers of documentation: two targets planned as documentation under one
    audit have the same sources.
   */
  lemma DocsNeedsPolicyAndAudit(repo: Repo, hash: Hash, target: string, base: Option<string>, event: Event)
    requires Create(repo, hash, target, base, event).Some? && IsDocs(Create(repo, hash, target, base, event).value)
    ensures AllowsDocs(event, target)
    ensures TargetFacts(repo, target).Some?
    ensures var facts := TargetFacts(repo, target).value; Audited(hash, facts.entries, facts.manifest)
  {
    DocsExactly(repo, hash, target, base, event);
    PlansAreMade(repo, target);
  }

  lemma OneAuditOneSource(repo: Repo, hash: Hash, t: string, u: string, base: Option<string>, other: Option<string>,
                          e: Event, f: Event)
    requires CollisionFree(hash) && Create(repo, hash, t, base, e).Some? && Create(repo, hash, u, other, f).Some?
    requires IsDocs(Create(repo, hash, t, base, e).value) && IsDocs(Create(repo, hash, u, other, f).value)
    requires TargetFacts(repo, t).Some? && IsTree(TargetFacts(repo, t).value.entries)
    requires TargetFacts(repo, u).Some? && IsTree(TargetFacts(repo, u).value.entries)
    requires TargetFacts(repo, t).value.manifest == TargetFacts(repo, u).value.manifest
    ensures SameSources(TargetFacts(repo, t).value.entries, TargetFacts(repo, u).value.entries)
  {
    DocsNeedsPolicyAndAudit(repo, hash, t, base, e);
    DocsNeedsPolicyAndAudit(repo, hash, u, other, f);
    SourceDigestIsFaithful(hash, TargetFacts(repo, t).value.entries, TargetFacts(repo, u).value.entries);
  }
}
