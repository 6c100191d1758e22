/**
  What a made plan tells its runners to do: the tests it selects, and that CI can
  use the selection (scripts/change-plan.mjs, scripts/validation-discovery.mjs,
  scripts/ci-results.mjs).
 */
module PlanSelection {
  import opened Options
  import opened Text
  import opened Json
  import opened JsonText
  import opened ChangeFacts
  import opened GatePlan
  import opened PlanCheck
  import CiResults

  predicate IsDocs(plan: Json) {
    Field(plan, "scope") == Some(TStr("docs"))
  }

  /** A test file of the tree that a run of this scope must not leave out. */
  predicate Runs(entries: seq<Entry>, readers: seq<string>, docs: bool, file: string) {
    file in PathsOf(entries) && TreeTest(file) && (docs ==> DocsTest(file) || file in readers)
  }

  /** The plan selects exactly these files, under their digest and with the lane of its scope. */
  predicate Selects(hash: Hash, plan: Json, files: seq<string>) {
    && Strings(Field(plan, "selectedFiles")) == Some(files)
    && Field(plan, "selectionDigest") == Some(TStr(Digest(hash, files)))
    && Strings(Field(plan, "requiredLanes")) == Some(Lanes(IsDocs(plan)))
  }

  function Lanes(docs: bool): seq<string> {
    ["attribution", "package", "syntax", if docs then "test-docs" else "test"]
  }

  lemma {:induction false} FilterKeeps(files: seq<string>, keep: string -> bool)
    ensures forall x :: x in Filter(files, keep) <==> x in files && keep(x)
  {
    if files != [] {
      FilterKeeps(files[..|files| - 1], keep);
      assert files == files[..|files| - 1] + [files[|files| - 1]];
    }
  }

  lemma {:induction false} FilterKeepsOrder(files: seq<string>, keep: string -> bool)
    ensures NoRepeats(files) ==> NoRepeats(Filter(files, keep))
    ensures Strict(ByText, files) ==> Strict(ByText, Filter(files, keep))
  {
    if files != [] {
      var n := |files| - 1;
      var before, rest := files[..n], Filter(files[..n], keep);
      FilterKeepsOrder(before, keep);
      FilterKeeps(before, keep);
      forall i | 0 <= i < |rest| ensures exists k :: 0 <= k < n && files[k] == rest[i] {
        assert rest[i] in before;
      }
    }
  }

  lemma DiscoveryIsTests(entries: seq<Entry>)
    ensures forall x :: x in DiscoverTreeTests(entries) <==> x in PathsOf(entries) && TreeTest(x)
    ensures IsTree(entries) ==> Strict(ByText, DiscoverTreeTests(entries))
  {
    var tests := Filter(PathsOf(entries), TreeTest);
    FilterKeeps(PathsOf(entries), TreeTest);
    FilterKeepsOrder(PathsOf(entries), TreeTest);
    SortSorts(ByText, tests);
    SameMembers(Sort(ByText, tests), tests);
    if IsTree(entries) {
      SortIsStrict(ByText, tests);
    }
  }

  function SelectedIn(facts: Facts, docs: bool): seq<string> {
    if docs then SelectedDocs(facts) else facts.discovery
  }

  lemma SelectedRuns(facts: Facts, docs: bool)
    requires facts.discovery == DiscoverTreeTests(facts.entries)
    ensures forall x :: x in SelectedIn(facts, docs) <==> Runs(facts.entries, Readers(facts.manifest), docs, x)
    ensures IsTree(facts.entries) ==> Strict(ByText, SelectedIn(facts, docs))
  {
    var readers := Readers(facts.manifest);
    DiscoveryIsTests(facts.entries);
    FilterKeeps(facts.discovery, file => DocsTest(file) || file in readers);
    FilterKeepsOrder(facts.discovery, file => DocsTest(file) || file in readers);
  }

  lemma PlanSelects(hash: Hash, target: string, facts: Facts, docs: bool, baseTree: Option<string>,
                    reasons: seq<string>)
    ensures var plan := Sealed(hash, Body(hash, target, facts, docs, baseTree, reasons));
      Selects(hash, plan, SelectedIn(facts, docs)) && Field(plan, "targetTree") == Some(TStr(facts.tree))
  {
    PlanHeadFields(hash, target, facts, docs, baseTree, reasons);
    PlanLanes(hash, target, facts, docs, baseTree, reasons);
    PlanFiles(hash, target, facts, docs, baseTree, reasons);
  }

  lemma PlanFiles(hash: Hash, target: string, facts: Facts, docs: bool, baseTree: Option<string>, reasons: seq<string>)
    ensures var plan := Sealed(hash, Body(hash, target, facts, docs, baseTree, reasons));
      && Strings(Field(plan, "selectedFiles")) == Some(SelectedIn(facts, docs))
      && Field(plan, "selectionDigest") == Some(TStr(Digest(hash, SelectedIn(facts, docs))))
      && Field(plan, "targetTree") == Some(TStr(facts.tree))
  {
    PlanField(hash, target, facts, docs, baseTree, reasons, 3);
    PlanField(hash, target, facts, docs, baseTree, reasons, 7);
    PlanField(hash, target, facts, docs, baseTree, reasons, 8);
    StrArrMeans(SelectedIn(facts, docs));
  }

  lemma PlanLanes(hash: Hash, target: string, facts: Facts, docs: bool, baseTree: Option<string>, reasons: seq<string>)
    ensures var plan := Sealed(hash, Body(hash, target, facts, docs, baseTree, reasons));
      Strings(Field(plan, "requiredLanes")) == Some(Lanes(docs))
  {
    PlanField(hash, target, facts, docs, baseTree, reasons, 9);
    StrArrMeans(Lanes(docs));
  }

  /**
    A made plan selects exactly the tests of its target that its scope calls
    for: all of them, or the documentation tests and the readers the manifest
    lists; and a documentation plan always has a documentation test and every
    known reader of documentation among them.
   */
  lemma SelectionIsExact(repo: Repo, hash: Hash, target: string, base: Option<string>, event: Event)
    returns (facts: Facts, files: seq<string>)
    requires Create(repo, hash, target, base, event).Some?
    ensures TargetFacts(repo, target) == Some(facts) && files != []
    ensures var plan := Create(repo, hash, target, base, event).value;
      && Selects(hash, plan, files) && Field(plan, "targetTree") == Some(TStr(facts.tree))
      && (forall x :: x in files <==> Runs(facts.entries, Readers(facts.manifest), IsDocs(plan), x))
      && (IsTree(facts.entries) ==> Strict(ByText, files))
      && (IsDocs(plan) ==> (forall i :: 0 <= i < |EXTERNAL_READERS| ==> EXTERNAL_READERS[i] in files)
                           && exists x :: x in files && DocsTest(x))
  {
    facts := TargetFacts(repo, target).value;
    var context := EventContext(event, target);
    var history := ReadHistory(repo, target, facts.entries, base, context.head);
    var docs, reasons := DocsScope(hash, facts, context, history), Reasons(hash, facts, context, history);
    files := SelectedIn(facts, docs);
    PlanHeadFields(hash, target, facts, docs, history.baseTree, reasons);
    PlanSelects(hash, target, facts, docs, history.baseTree, reasons);
    SelectedRuns(facts, docs);
    if docs {
      ReadersAreSelected(facts);
    }
  }

  lemma ReadersAreSelected(facts: Facts)
    requires facts.discovery == DiscoverTreeTests(facts.entries) && !SelectionIncomplete(facts)
    ensures forall i :: 0 <= i < |EXTERNAL_READERS| ==> EXTERNAL_READERS[i] in SelectedDocs(facts)
    ensures exists x :: x in SelectedDocs(facts) && DocsTest(x)
  {
    AllSelected(facts, EXTERNAL_READERS);
    SomeSelected(SelectedDocs(facts));
  }

  lemma AllSelected(facts: Facts, readers: seq<string>)
    requires facts.discovery == DiscoverTreeTests(facts.entries)
    requires !exists i :: 0 <= i < |readers| && !Covered(facts, readers[i])
    ensures forall i :: 0 <= i < |readers| ==> readers[i] in SelectedDocs(facts)
  {
    SelectedRuns(facts, true);
    DiscoveryIsTests(facts.entries);
    forall i | 0 <= i < |readers| ensures readers[i] in SelectedDocs(facts) {
      assert Runs(facts.entries, Readers(facts.manifest), true, readers[i]);
      assert readers[i] in SelectedIn(facts, true);
    }
  }

  lemma SomeSelected(files: seq<string>)
    requires exists i :: 0 <= i < |files| && DocsTest(files[i])
    ensures exists x :: x in files && DocsTest(x)
  {}

  /** CI takes the selection of a made plan if and only if every selected path is one it can name. */
  lemma CiTakesSelection(repo: Repo, hash: Hash, target: string, base: Option<string>, event: Event)
    requires Create(repo, hash, target, base, event).Some?
    requires TargetFacts(repo, target).Some? && IsTree(TargetFacts(repo, target).value.entries)
    ensures var plan := Create(repo, hash, target, base, event).value;
      var facts := TargetFacts(repo, target).value;
      CiResults.Selected(plan).Some? <==>
        forall x :: Runs(facts.entries, Readers(facts.manifest), IsDocs(plan), x) ==> CiResults.Relative(x)
  {
    var facts, files := SelectionIsExact(repo, hash, target, base, event);
    UsableSelection(Create(repo, hash, target, base, event).value, files);
  }

  lemma UsableSelection(plan: Json, files: seq<string>)
    requires Strings(Field(plan, "selectedFiles")) == Some(files) && files != [] && Strict(ByText, files)
    ensures CiResults.Selected(plan).Some? <==> forall x :: x in files ==> CiResults.Relative(x)
  {
    SortUniqueIsCanonical(files);
    StrictIsUnique(ByText, files, SortUnique(files));
    assert CiResults.Selected(plan).Some? <==> forall i :: 0 <= i < |files| ==> CiResults.Relative(files[i]);
    forall i | 0 <= i < |files| ensures files[i] in files {}
  }
}
