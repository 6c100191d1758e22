/**
  Which changes count as documentation only, and the facts about a repository
  that a gate plan is built from (scripts/change-plan.mjs).
 */
module ChangeFacts {
  import opened Options
  import opened Text
  import opened Json
  import opened JsonText
  import opened RawDiff

  // ---------- Paths ----------

  predicate ValidPath(file: string) {
    && file != [] && '\\' !in file && NUL !in file
    && forall i :: 0 <= i < |Split('/', file)| ==> Split('/', file)[i] !in ["", ".", ".."]
  }

  const ROOTS := ["docs", "examples"]

  const DOCS := ["AGENTS.md", "CHANGELOG.md", "README.md", "SECURITY.md"]

  const MANIFEST_PATH := "scripts/validation-impact.json"

  predicate Between(file: string, prefix: string, suffix: string) {
    StartsWith(file, prefix) && EndsWith(file, suffix) && |file| > |prefix| + |suffix|
  }

  predicate DocumentationPath(file: string) {
    ValidPath(file) && (file in DOCS || Between(file, "docs/", ".md") || Between(file, "examples/", ".md"))
  }

  predicate LineEnd(c: char) {
    c == '\n' || c == '\r' || c as int == 0x2028 || c as int == 0x2029
  }

  /** `^(tests|packages)/.+\.test\.mjs$` */
  predicate TestPath(file: string) {
    && (Between(file, "tests/", ".test.mjs") || Between(file, "packages/", ".test.mjs"))
    && forall i :: 0 <= i < |file| ==> !LineEnd(file[i])
  }

  predicate IsOid(s: string) {
    (|s| == 40 || |s| == 64) && IsHex(s)
  }

  // ---------- Trees ----------

  datatype Entry = Entry(mode: string, kind: string, oid: string, path: string)

  function PathsOf(entries: seq<Entry>): seq<string> {
    seq(|entries|, i requires 0 <= i < |entries| => entries[i].path)
  }

  /** The entry at a path; a tree lists every path once. */
  function At(entries: seq<Entry>, path: string): (r: Option<Entry>)
    ensures r.Some? ==> r.value in entries && r.value.path == path
    ensures r.None? ==> path !in PathsOf(entries)
  {
    if entries == [] then None
    else if entries[0].path == path then Some(entries[0])
    else
      assert PathsOf(entries) == [entries[0].path] + PathsOf(entries[1..]);
      At(entries[1..], path)
  }

  /** A tree as `ls-tree -r` lists it: no path twice. */
  predicate IsTree(entries: seq<Entry>) {
    NoRepeats(PathsOf(entries))
  }

  lemma {:induction false} AtIsUnique(entries: seq<Entry>, i: nat)
    requires NoRepeats(PathsOf(entries)) && i < |entries|
    ensures At(entries, entries[i].path) == Some(entries[i])
  {
    var paths := PathsOf(entries);
    assert paths[i] == entries[i].path;
    var r := At(entries, entries[i].path);
    var j :| 0 <= j < |entries| && entries[j] == r.value;
    assert paths[j] == paths[i];
  }

  function SourceEntries(entries: seq<Entry>): seq<Entry> {
    if entries == [] then []
    else
      var rest := SourceEntries(entries[1..]);
      if entries[0].path != MANIFEST_PATH && !DocumentationPath(entries[0].path) then [entries[0]] + rest else rest
  }

  function SourceRow(entry: Option<Entry>): Json {
    if entry.None? then Null
    else Arr([Str(entry.value.path), Str(entry.value.mode), Str(entry.value.kind), Str(entry.value.oid)])
  }

  /** `sourceDigest`: everything outside documentation and the manifest, sorted by path. */
  function SourceDigest(hash: Hash, entries: seq<Entry>): string {
    hash(Write(Arr(SourceRows(SourceEntries(entries))), []))
  }

  function SourceRows(sources: seq<Entry>): seq<Json> {
    var paths := Sort(ByText, PathsOf(sources));
    seq(|paths|, i requires 0 <= i < |paths| => SourceRow(At(sources, paths[i])))
  }

  lemma {:induction false} SourceEntriesAt(entries: seq<Entry>, path: string)
    ensures At(SourceEntries(entries), path) ==
      if path == MANIFEST_PATH || DocumentationPath(path) then None else At(entries, path)
  {
    if entries != [] {
      SourceEntriesAt(entries[1..], path);
    }
  }

  lemma {:induction false} SourceEntriesOnce(entries: seq<Entry>)
    requires NoRepeats(PathsOf(entries))
    ensures NoRepeats(PathsOf(SourceEntries(entries)))
  {
    if entries != [] {
      var rest, path := SourceEntries(entries[1..]), entries[0].path;
      assert PathsOf(entries) == [path] + PathsOf(entries[1..]);
      NoRepeatsFrom(path, PathsOf(entries[1..]));
      SourceEntriesOnce(entries[1..]);
      SourceEntriesAt(entries[1..], path);
      AtNone(entries[1..], path);
      AtNone(rest, path);
      NoRepeatsFrom(path, PathsOf(rest));
      assert PathsOf([entries[0]] + rest) == [path] + PathsOf(rest);
    }
  }

  lemma NoRepeatsFrom(x: string, xs: seq<string>)
    ensures NoRepeats([x] + xs) <==> x !in xs && NoRepeats(xs)
  {
    var all := [x] + xs;
    if NoRepeats(all) {
      forall i | 0 <= i < |xs| ensures xs[i] != x {
        assert all[0] != all[i + 1];
      }
      forall i, j | 0 <= i < j < |xs| ensures xs[i] != xs[j] {
        assert all[i + 1] != all[j + 1];
      }
    }
  }

  lemma AtNone(entries: seq<Entry>, path: string)
    ensures At(entries, path).None? <==> path !in PathsOf(entries)
  {
    if At(entries, path).Some? {
      var i :| 0 <= i < |entries| && entries[i] == At(entries, path).value;
      assert PathsOf(entries)[i] == path;
    }
  }

  /** Two trees hold the same source files: everything but documentation and the manifest. */
  ghost predicate SameSources(a: seq<Entry>, b: seq<Entry>) {
    forall path :: path != MANIFEST_PATH && !DocumentationPath(path) ==> At(a, path) == At(b, path)
  }

  /** A source digest stands for the source files of a tree, with their modes, kinds and blobs. */
  lemma SourceDigestIsFaithful(hash: Hash, a: seq<Entry>, b: seq<Entry>)
    requires CollisionFree(hash) && NoRepeats(PathsOf(a)) && NoRepeats(PathsOf(b))
    ensures SourceDigest(hash, a) == SourceDigest(hash, b) <==> SameSources(a, b)
  {
    if SourceDigest(hash, a) == SourceDigest(hash, b) {
      SameDigestSameSources(hash, a, b);
    }
    if SameSources(a, b) {
      SameSourcesSameDigest(hash, a, b);
    }
  }

  lemma SameDigestSameSources(hash: Hash, a: seq<Entry>, b: seq<Entry>)
    requires CollisionFree(hash) && NoRepeats(PathsOf(a)) && NoRepeats(PathsOf(b))
    requires SourceDigest(hash, a) == SourceDigest(hash, b)
    ensures SameSources(a, b)
  {
    var x, y := SourceEntries(a), SourceEntries(b);
    RowsAreValues(x);
    RowsAreValues(y);
    WriteIsUnique(Arr(SourceRows(x)), Arr(SourceRows(y)), [], []);
    forall path | path != MANIFEST_PATH && !DocumentationPath(path) ensures At(a, path) == At(b, path) {
      SourceEntriesAt(a, path);
      SourceEntriesAt(b, path);
      if At(x, path).Some? {
        RowsFixEntry(x, y, path);
      } else if At(y, path).Some? {
        RowsFixEntry(y, x, path);
      }
    }
  }

  lemma SortedPaths(sources: seq<Entry>)
    ensures forall path :: path in Sort(ByText, PathsOf(sources)) <==> At(sources, path).Some?
  {
    SortSorts(ByText, PathsOf(sources));
    SameMembers(Sort(ByText, PathsOf(sources)), PathsOf(sources));
    forall path ensures path in Sort(ByText, PathsOf(sources)) <==> At(sources, path).Some? {
      AtNone(sources, path);
    }
  }

  lemma RowsAreValues(sources: seq<Entry>)
    ensures Valid(Arr(SourceRows(sources)))
  {
    forall i | 0 <= i < |SourceRows(sources)| ensures Valid(SourceRows(sources)[i]) {
      assert Valid(SourceRow(At(sources, Sort(ByText, PathsOf(sources))[i])));
    }
  }

  lemma RowsFixEntry(x: seq<Entry>, y: seq<Entry>, path: string)
    requires SourceRows(x) == SourceRows(y) && At(x, path).Some?
    ensures At(y, path) == At(x, path)
  {
    var xs, ys := Sort(ByText, PathsOf(x)), Sort(ByText, PathsOf(y));
    SortedPaths(x);
    SortedPaths(y);
    var i :| 0 <= i < |xs| && xs[i] == path;
    assert |xs| == |SourceRows(x)| == |ys|;
    assert SourceRows(x)[i] == SourceRow(At(x, path)) && SourceRows(y)[i] == SourceRow(At(y, ys[i]));
    assert ys[i] in ys;
    RowIsFaithful(At(x, path), At(y, ys[i]));
  }

  lemma RowIsFaithful(a: Option<Entry>, b: Option<Entry>)
    requires SourceRow(a) == SourceRow(b)
    ensures a == b
  {
    if a.Some? && b.Some? {
      assert forall k :: 0 <= k < 4 ==> SourceRow(a).items[k] == SourceRow(b).items[k];
      assert SourceRow(a).items[0].text == a.value.path && SourceRow(a).items[1].text == a.value.mode;
      assert SourceRow(a).items[2].text == a.value.kind && SourceRow(a).items[3].text == a.value.oid;
    }
  }

  lemma SameSourcesSameDigest(hash: Hash, a: seq<Entry>, b: seq<Entry>)
    requires NoRepeats(PathsOf(a)) && NoRepeats(PathsOf(b)) && SameSources(a, b)
    ensures SourceDigest(hash, a) == SourceDigest(hash, b)
  {
    var x, y := SourceEntries(a), SourceEntries(b);
    forall path ensures At(x, path) == At(y, path) && (path in PathsOf(x) <==> path in PathsOf(y)) {
      SourceEntriesAt(a, path);
      SourceEntriesAt(b, path);
      AtNone(x, path);
      AtNone(y, path);
    }
    SourceEntriesOnce(a);
    SourceEntriesOnce(b);
    SortIsStrict(ByText, PathsOf(x));
    SortIsStrict(ByText, PathsOf(y));
    StrictIsUnique(ByText, Sort(ByText, PathsOf(x)), Sort(ByText, PathsOf(y)));
    assert SourceRows(x) == SourceRows(y);
  }

  // ---------- Classification ----------

  predicate OrdinarySide(path: Option<string>, mode: Option<string>) {
    path.Some? && DocumentationPath(path.value) && mode == Some("100644")
  }

  /** An added, deleted, modified, renamed or copied regular documentation file. */
  predicate Ordinary(c: Change) {
    var oldAbsent := c.oldPath.None? && c.oldMode.None?;
    var newAbsent := c.newPath.None? && c.newMode.None?;
    var ordinaryOld := OrdinarySide(c.oldPath, c.oldMode);
    var ordinaryNew := OrdinarySide(c.newPath, c.newMode);
    if c.status == 'A' then oldAbsent && ordinaryNew
    else if c.status == 'D' then ordinaryOld && newAbsent
    else if c.status == 'M' then ordinaryOld && ordinaryNew && c.oldPath == c.newPath
    else (c.status == 'R' || c.status == 'C') && ordinaryOld && ordinaryNew
  }

  function TreeField(t: Tree, key: string): Option<Tree> {
    if t.TObj? && key in t.members then Some(t.members[key]) else None
  }

  /** `v.key` as it is read: the order of members does not matter. */
  function Field(v: Json, key: string): Option<Tree> {
    TreeField(Meaning(v), key)
  }

  /** An array of strings, or nothing. */
  function Strings(t: Option<Tree>): (r: Option<seq<string>>)
  {
    if t.Some? && t.value.TArr? && forall i :: 0 <= i < |t.value.items| ==> t.value.items[i].TStr?
    then Some(seq(|t.value.items|, i requires 0 <= i < |t.value.items| => t.value.items[i].text))
    else None
  }

  function Text1(t: Option<Tree>): Option<string> {
    if t.Some? && t.value.TStr? then Some(t.value.text) else None
  }

  predicate ValidManifest(manifest: Option<Json>) {
    manifest.Some? &&
    var m := manifest.value;
    var documentation, roots := Strings(Field(m, "documentation")), Strings(Field(m, "documentationRoots"));
    var readers := Strings(Field(m, "externalReaders"));
    var digest := Text1(Field(m, "sourceDigest"));
    && Field(m, "schema") == Some(TNum("1"))
    && documentation.Some? && Sort(ByText, documentation.value) == DOCS
    && roots.Some? && Sort(ByText, roots.value) == ROOTS
    && readers.Some?
    && (forall i :: 0 <= i < |readers.value| ==> ValidPath(readers.value[i]) && TestPath(readers.value[i]))
    && digest.Some? && |digest.value| == 64 && IsHex(digest.value)
  }

  datatype Verdict = Verdict(docs: bool, reason: string)

  predicate AllOrdinary(changes: seq<Change>) {
    forall i :: 0 <= i < |changes| ==> Ordinary(changes[i])
  }

  function Classify(changes: seq<Change>, complete: bool, ancestryVerified: bool, manifest: Option<Json>): Verdict {
    if !ValidManifest(manifest) then Verdict(false, "manifest-unsupported")
    else if !complete || !ancestryVerified then Verdict(false, "history-incomplete")
    else if changes == [] then Verdict(false, "changes-empty")
    else if !AllOrdinary(changes) then Verdict(false, "changes-require-full")
    else Verdict(true, "ordinary-documentation-only")
  }

  /** `classifyChanges`: documentation only, or the first reason to ask for the full gate. */
  method ClassifyChanges(changes: seq<Change>, complete: bool, ancestryVerified: bool, manifest: Option<Json>)
    returns (verdict: Verdict)
    ensures verdict == Classify(changes, complete, ancestryVerified, manifest)
    ensures verdict.docs <==>
      ValidManifest(manifest) && complete && ancestryVerified && changes != [] && AllOrdinary(changes)
  {
    var valid := ValidManifest(manifest);
    if !valid { return Verdict(false, "manifest-unsupported"); }
    if !complete || !ancestryVerified { return Verdict(false, "history-incomplete"); }
    if changes == [] { return Verdict(false, "changes-empty"); }
    var ordinary := ScanChanges(changes);
    if !ordinary { return Verdict(false, "changes-require-full"); }
    return Verdict(true, "ordinary-documentation-only");
  }

  /** The loop stops at the first change that is not ordinary documentation. */
  method ScanChanges(changes: seq<Change>) returns (ordinary: bool)
    ensures ordinary <==> AllOrdinary(changes)
  {
    for i := 0 to |changes|
      invariant forall j :: 0 <= j < i ==> Ordinary(changes[j])
    {
      if !Ordinary(changes[i]) { return false; }
    }
    return true;
  }

  // ---------- Copies ----------

  /** Object ids of base files that are not plain documentation. */
  predicate Foreign(base: seq<Entry>, oid: string) {
    exists i :: 0 <= i < |base| && base[i].oid == oid && (!DocumentationPath(base[i].path) || base[i].mode != "100644")
  }

  function OidAt(entries: seq<Entry>, path: Option<string>): Option<string> {
    if path.None? then None
    else
      var entry := At(entries, path.value);
      if entry.None? then None else Some(entry.value.oid)
  }

  predicate Ambiguous(c: Change, base: seq<Entry>, target: seq<Entry>) {
    && c.status in "ACR" && c.newPath.Some? && DocumentationPath(c.newPath.value)
    && var targetOid, sourceOid := OidAt(target, c.newPath), OidAt(base, c.oldPath);
       || (targetOid.Some? && Foreign(base, targetOid.value))
       || (c.status in "CR"
           && (sourceOid.None? || targetOid.None? || sourceOid != targetOid || Foreign(base, sourceOid.value)))
  }

  predicate CopyOriginAmbiguous(changes: seq<Change>, base: seq<Entry>, target: seq<Entry>) {
    exists i :: 0 <= i < |changes| && Ambiguous(changes[i], base, target)
  }

  // ---------- What a documentation verdict means for the trees ----------

  /** A complete difference of two trees: every path on which they differ is reported, with its modes. */
  ghost predicate Describes(changes: seq<Change>, base: seq<Entry>, target: seq<Entry>) {
    forall path :: Reported(changes, path, At(base, path), At(target, path))
  }

  predicate ReportsNew(c: Change, statuses: string, path: string, mode: string) {
    c.status in statuses && c.newPath == Some(path) && c.newMode == Some(mode)
  }

  predicate ReportsOld(c: Change, statuses: string, path: string, mode: string) {
    c.status in statuses && c.oldPath == Some(path) && c.oldMode == Some(mode)
  }

  predicate Reported(changes: seq<Change>, path: string, before: Option<Entry>, after: Option<Entry>) {
    match (before, after)
    case (None, None) => true
    case (None, Some(n)) => exists i :: 0 <= i < |changes| && ReportsNew(changes[i], "ARC", path, n.mode)
    case (Some(o), None) => exists i :: 0 <= i < |changes| && ReportsOld(changes[i], "DR", path, o.mode)
    case (Some(o), Some(n)) =>
      o.(path := "") == n.(path := "") || exists i :: 0 <= i < |changes| && ReportsNew(changes[i], "MT", path, n.mode)
  }

  /** Only documentation differs between the two trees. */
  lemma DocsChangeNothingElse(changes: seq<Change>, base: seq<Entry>, target: seq<Entry>, path: string)
    requires IsTree(base) && IsTree(target) && Describes(changes, base, target)
    requires AllOrdinary(changes)
    requires !DocumentationPath(path)
    ensures At(base, path) == At(target, path)
  {
    var before, after := At(base, path), At(target, path);
    assert Reported(changes, path, before, after);
  }

  /** The old side is a plain documentation file of the base with exactly these bytes. */
  predicate CopiesDocs(c: Change, base: seq<Entry>, oid: string) {
    OrdinarySide(c.oldPath, c.oldMode) && OidAt(base, c.oldPath) == Some(oid)
  }

  /**
    A documentation file that is new in the target carries the bytes of no base
    file outside plain documentation; as a rename or a copy it is an exact copy
    of the documentation file it is said to come from.
   */
  lemma AddedDocsAreOwn(changes: seq<Change>, base: seq<Entry>, target: seq<Entry>, path: string)
    requires Describes(changes, base, target) && !CopyOriginAmbiguous(changes, base, target)
    requires AllOrdinary(changes)
    requires At(base, path).None? && At(target, path).Some?
    ensures DocumentationPath(path) && At(target, path).value.mode == "100644"
    ensures !Foreign(base, At(target, path).value.oid)
    ensures forall i :: 0 <= i < |changes| && changes[i].status in "CR" && changes[i].newPath == Some(path) ==>
      CopiesDocs(changes[i], base, At(target, path).value.oid)
  {
    assert Reported(changes, path, At(base, path), At(target, path));
    var k :| 0 <= k < |changes| && ReportsNew(changes[k], "ARC", path, At(target, path).value.mode);
    assert Ordinary(changes[k]) && !Ambiguous(changes[k], base, target);
    forall i | 0 <= i < |changes| && changes[i].status in "CR" && changes[i].newPath == Some(path)
      ensures CopiesDocs(changes[i], base, At(target, path).value.oid)
    {
      assert Ordinary(changes[i]) && !Ambiguous(changes[i], base, target);
    }
  }

  /** No path that changed carries the bytes of a base file outside plain documentation. */
  ghost predicate NoForeignBytes(base: seq<Entry>, target: seq<Entry>) {
    forall path :: At(target, path).Some? && At(base, path) != At(target, path) ==>
      !Foreign(base, At(target, path).value.oid)
  }

  predicate Differs(base: seq<Entry>, target: seq<Entry>, path: string) {
    At(target, path).Some? && At(base, path) != At(target, path)
  }

  /** Every modification that is reported is one: the path is in both trees, with another entry. */
  predicate RealChanges(changes: seq<Change>, base: seq<Entry>, target: seq<Entry>) {
    forall i :: 0 <= i < |changes| && changes[i].status == 'M' && changes[i].newPath.Some? ==>
      Differs(base, target, changes[i].newPath.value)
  }

  predicate TakesForeign(c: Change, base: seq<Entry>, target: seq<Entry>) {
    c.status == 'M' && OidAt(target, c.newPath).Some? && Foreign(base, OidAt(target, c.newPath).value)
  }

  /** The copy check, extended to modifications: none of them brings bytes of a base source file. */
  predicate ModificationsAreOwn(changes: seq<Change>, base: seq<Entry>, target: seq<Entry>) {
    forall i :: 0 <= i < |changes| ==> !TakesForeign(changes[i], base, target)
  }

  /**
    The copy check looks at added, copied and renamed paths only. What it lets
    through is free of source bytes if and only if the modifications are.
   */
  lemma OwnBytesExactlyWhenModificationsAreOwn(changes: seq<Change>, base: seq<Entry>, target: seq<Entry>)
    requires Describes(changes, base, target) && RealChanges(changes, base, target)
    requires AllOrdinary(changes) && !CopyOriginAmbiguous(changes, base, target)
    ensures NoForeignBytes(base, target) <==> ModificationsAreOwn(changes, base, target)
  {
    if ModificationsAreOwn(changes, base, target) {
      forall path | At(target, path).Some? && At(base, path) != At(target, path)
        ensures !Foreign(base, At(target, path).value.oid)
      {
        ChangedPathIsOwn(changes, base, target, path);
      }
    }
    if NoForeignBytes(base, target) {
      forall i | 0 <= i < |changes| ensures !TakesForeign(changes[i], base, target) {}
    }
  }

  lemma ChangedPathIsOwn(changes: seq<Change>, base: seq<Entry>, target: seq<Entry>, path: string)
    requires Describes(changes, base, target) && ModificationsAreOwn(changes, base, target)
    requires AllOrdinary(changes) && !CopyOriginAmbiguous(changes, base, target)
    requires At(target, path).Some? && At(base, path) != At(target, path)
    ensures !Foreign(base, At(target, path).value.oid)
  {
    if At(base, path).None? {
      AddedDocsAreOwn(changes, base, target, path);
    } else {
      var i := ModifiedBy(changes, base, target, path);
      assert !TakesForeign(changes[i], base, target);
    }
  }

  lemma ModifiedBy(changes: seq<Change>, base: seq<Entry>, target: seq<Entry>, path: string) returns (i: nat)
    requires Describes(changes, base, target) && AllOrdinary(changes)
    requires At(base, path).Some? && At(target, path).Some? && At(base, path) != At(target, path)
    ensures i < |changes| && changes[i].status == 'M' && changes[i].newPath == Some(path)
  {
    assert Reported(changes, path, At(base, path), At(target, path));
    i :| 0 <= i < |changes| && ReportsNew(changes[i], "MT", path, At(target, path).value.mode);
    ModifiedOrdinary(changes[i], path, At(target, path).value.mode);
  }

  lemma ModifiedOrdinary(c: Change, path: string, mode: string)
    requires Ordinary(c) && ReportsNew(c, "MT", path, mode)
    ensures c.status == 'M' && c.newPath == Some(path)
  {}
}
