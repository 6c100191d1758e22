/**
  The planner as it runs (`createGatePlan` in scripts/change-plan.mjs): it fills
  in what it knows step by step, and reading the history can fail at every call
  on git, with whatever was filled in so far left as it is.
 */
module PlanRun {
  import opened Options
  import opened Text
  import opened Json
  import opened JsonText
  import opened RawDiff
  import opened ChangeFacts
  import opened GatePlan
  import opened PlanCheck
  import opened PlanSelection
  import opened PlanFacts

  /** The variables of the planner. */
  class Draft {
    var reasons: seq<string>
    var baseTree: Option<string>
    var changes: seq<Change>
    var complete: bool
    var ancestryVerified: bool
    var ambiguous: bool

    constructor (reasons: seq<string>)
      ensures this.reasons == reasons && baseTree.None? && changes == []
      ensures !complete && !ancestryVerified && !ambiguous
    {
      this.reasons, baseTree, changes := reasons, None, [];
      complete, ancestryVerified, ambiguous := false, false, false;
    }

    /** The variables say what this history says. */
    predicate Tells(history: History)
      reads this
    {
      && baseTree == history.baseTree && changes == history.changes && complete == history.complete
      && ancestryVerified == history.ancestryVerified && ambiguous == history.ambiguous
    }

    /** Everything inside the `try`; `threw` says that it was left early. */
    method ReadHistory(repo: Repo, target: string, entries: seq<Entry>, base: Option<string>, ghost context: Context)
      returns (threw: bool)
      requires reasons == ContextReasons(context) && baseTree.None? && changes == []
      requires !complete && !ancestryVerified && !ambiguous
      modifies this
      ensures threw <==> !complete
      ensures Tells(GatePlan.ReadHistory(repo, target, entries, base, context.head))
      ensures var history := GatePlan.ReadHistory(repo, target, entries, base, context.head);
        reasons == ContextReasons(context) + Tag(BASE, history.base) + Note(history.ambiguous, "copy-origin-ambiguous")
    {
      var tree := Resolve(repo, base);
      if tree.None? { return true; }
      baseTree := tree;
      reasons := reasons + [BASE + base.value];
      if repo.shallow || (base.value, target) !in repo.ancestors { return true; }
      HeadIsFound(context, base.value);
      var head := Cut(reasons, HEAD);
      if head.Some? {
        if Resolve(repo, head).None? || (head.value, target) !in repo.ancestors { return true; }
      }
      ancestryVerified := true;
      if (base.value, target) !in repo.diffs { return true; }
      var parsed := ParseRawChanges(repo.diffs[(base.value, target)]);
      if parsed.None? { return true; }
      changes := parsed.value;
      var baseEntries := ReadTree(repo, tree.value);
      if baseEntries.None? { return true; }
      ambiguous := CopyOriginAmbiguous(changes, baseEntries.value, entries);
      if ambiguous { reasons := reasons + ["copy-origin-ambiguous"]; }
      complete := true;
      return false;
    }
  }

  /** What `eventContext` notes down first. */
  function ContextReasons(context: Context): seq<string> {
    [EVENT + context.kind] + Tag(REF, context.ref) + Tag(HEAD, context.head)
    + Note(!context.allowed, "event-requires-full")
  }

  /** The head that is looked up among the reasons is the one the context recorded. */
  lemma HeadIsFound(context: Context, base: string)
    ensures Cut(ContextReasons(context) + [BASE + base], HEAD) == context.head
  {
    var reasons := ContextReasons(context) + [BASE + base];
    if context.head.Some? {
      assert HEAD + context.head.value in reasons;
      TagsAreTold(context.head.value);
    }
    forall x | x in reasons && StartsWith(x, HEAD) ensures IsTag(x, HEAD, context.head) {
      OnlyHead(context, base, x);
    }
  }

  lemma OnlyHead(context: Context, base: string, x: string)
    requires x in ContextReasons(context) + [BASE + base] && StartsWith(x, HEAD)
    ensures IsTag(x, HEAD, context.head)
  {
    ContextMembers(context, x);
    TagsAreTold(context.kind);
    TagsAreTold(base);
    if context.ref.Some? { TagsAreTold(context.ref.value); }
    CloseCalls();
  }

  lemma ContextMembers(context: Context, x: string)
    ensures x in ContextReasons(context) ==>
      || x == EVENT + context.kind || IsTag(x, REF, context.ref) || IsTag(x, HEAD, context.head)
      || x == "event-requires-full"
  {}

  lemma SameReasons(xs: seq<string>, ys: seq<string>)
    requires forall x :: x in xs <==> x in ys
    ensures SortUnique(xs) == SortUnique(ys)
  {
    SortUniqueIsCanonical(xs);
    SortUniqueIsCanonical(ys);
    StrictIsUnique(ByText, SortUnique(xs), SortUnique(ys));
  }

  /** The reasons in the order in which they are noted. */
  function Noted(hash: Hash, facts: Facts, context: Context, history: History): seq<string> {
    ContextReasons(context) + Tag(BASE, history.base) + Note(history.ambiguous, "copy-origin-ambiguous")
    + Note(!history.complete, "history-incomplete") + [VerdictOf(facts, history).reason]
    + Note(SelectionIncomplete(facts), "docs-selection-incomplete")
    + Note(AuditDrift(hash, facts), "reader-audit-drift")
    + Note(Unsupported(facts), "target-topology-unsupported")
  }

  lemma NotedReasons(hash: Hash, facts: Facts, context: Context, history: History)
    ensures SortUnique(Noted(hash, facts, context, history)) == Reasons(hash, facts, context, history)
  {
    SameReasons(Noted(hash, facts, context, history), Tags(context, history) + Notes(hash, facts, context, history));
  }

  /** The scope starts from the verdict and is lowered to full by one doubt after another. */
  method ChooseScope(d: Draft, hash: Hash, facts: Facts, context: Context, ghost history: History) returns (docs: bool)
    requires d.Tells(history)
    requires d.reasons == ContextReasons(context) + Tag(BASE, history.base)
      + Note(history.ambiguous, "copy-origin-ambiguous") + Note(!history.complete, "history-incomplete")
    modifies d`reasons
    ensures docs == DocsScope(hash, facts, context, history)
    ensures d.reasons == Noted(hash, facts, context, history)
  {
    var verdict := ClassifyChanges(d.changes, d.complete, d.ancestryVerified, facts.manifest);
    d.reasons := d.reasons + [verdict.reason];
    var start := context.allowed && !d.ambiguous && verdict.docs;
    docs := LowerScope(d, start, SelectionIncomplete(facts), AuditDrift(hash, facts), Unsupported(facts));
  }

  method LowerScope(d: Draft, start: bool, incomplete: bool, drift: bool, unsupported: bool) returns (docs: bool)
    modifies d`reasons
    ensures docs <==> start && !incomplete && !drift && !unsupported
    ensures d.reasons == old(d.reasons) + Note(incomplete, "docs-selection-incomplete")
      + Note(drift, "reader-audit-drift") + Note(unsupported, "target-topology-unsupported")
  {
    docs := start;
    if incomplete {
      docs := false;
      d.reasons := d.reasons + ["docs-selection-incomplete"];
    }
    if drift {
      docs := false;
      d.reasons := d.reasons + ["reader-audit-drift"];
    }
    if unsupported {
      docs := false;
      d.reasons := d.reasons + ["target-topology-unsupported"];
    }
  }

  /**
    `createGatePlan`. The plan it ends with is the one the plan theorems are
    about: it is made exactly for a target that can be planned for, it is a
    documentation plan exactly when the repository and the event allow one, it
    passes the check exactly with a usable head, and with the documentation
    scope only documentation differs from the base.
   */
  method CreateGatePlan(repo: Repo, hash: Hash, target: string, base: Option<string>, event: GatePlan.Event)
    returns (plan: Option<Json>)
    ensures plan == Create(repo, hash, target, base, event)
    ensures plan.Some? <==> Plannable(repo, target)
    ensures plan.Some? ==> (IsDocs(plan.value) <==> DocsWillDo(repo, hash, target, base, event))
    ensures plan.Some? && CollisionFree(hash) ==> (Validate(repo, hash, plan.value, None) <==> GoodHead(event))
    ensures plan.Some? && IsDocs(plan.value) && base.Some? && DiffIsComplete(repo, base.value, target) ==>
      OnlyDocsDiffer(repo.trees[repo.commits[base.value]], repo.trees[repo.commits[target]])
  {
    DocsExactly(repo, hash, target, base, event);
    var facts := TargetFacts(repo, target);
    if facts.None? { return None; }
    var made := DraftPlan(repo, hash, target, base, event, facts.value);
    plan := Some(made);
    if CollisionFree(hash) {
      CreatedIsAccepted(repo, hash, target, base, event);
    }
    if IsDocs(plan.value) && base.Some? && DiffIsComplete(repo, base.value, target) {
      DocsPlanChangesOnlyDocs(repo, hash, target, base, event);
    }
  }

  method DraftPlan(repo: Repo, hash: Hash, target: string, base: Option<string>, event: GatePlan.Event, facts: Facts)
    returns (plan: Json)
    requires TargetFacts(repo, target) == Some(facts)
    ensures Create(repo, hash, target, base, event) == Some(plan)
  {
    var context := EventContext(event, target);
    ghost var history := GatePlan.ReadHistory(repo, target, facts.entries, base, context.head);
    var d := new Draft(ContextReasons(context));
    var threw := d.ReadHistory(repo, target, facts.entries, base, context);
    if threw { d.reasons := d.reasons + ["history-incomplete"]; }
    var docs := ChooseScope(d, hash, facts, context, history);
    plan := Sealed(hash, Body(hash, target, facts, docs, d.baseTree, SortUnique(d.reasons)));
    NotedPlan(hash, target, facts, context, history);
  }

  lemma NotedPlan(hash: Hash, target: string, facts: Facts, context: Context, history: History)
    ensures PlanFrom(hash, target, facts, context, history) ==
      Sealed(hash, Body(hash, target, facts, DocsScope(hash, facts, context, history), history.baseTree,
                        SortUnique(Noted(hash, facts, context, history))))
  {
    NotedReasons(hash, facts, context, history);
  }

  // ---------- What the reasons tell ----------

  const ORDINARY := "ordinary-documentation-only"

  predicate NoDoubts(notes: seq<string>) {
    forall x :: x in notes ==> x == ORDINARY
  }

  lemma NotedDoubts(hash: Hash, facts: Facts, context: Context, history: History)
    ensures DocsScope(hash, facts, context, history) <==> NoDoubts(Notes(hash, facts, context, history))
  {
    var verdict := VerdictOf(facts, history);
    VerdictTells(history.changes, history.complete, history.ancestryVerified, facts.manifest);
    OnlyOrdinary(!context.allowed, history.ambiguous, !history.complete, verdict.reason, SelectionIncomplete(facts),
                 AuditDrift(hash, facts), Unsupported(facts));
  }

  lemma VerdictTells(changes: seq<Change>, complete: bool, verified: bool, manifest: Option<Json>)
    ensures var verdict := Classify(changes, complete, verified, manifest);
      && (verdict.docs <==> verdict.reason == ORDINARY) && (verdict.docs ==> complete)
  {
    DoubtsAreNotOrdinary();
  }

  lemma OnlyOrdinary(event: bool, copies: bool, partial: bool, verdict: string, selection: bool, drift: bool,
                     topology: bool)
    ensures NoDoubts(NotesOn(event, copies, partial, verdict, selection, drift, topology)) <==>
      !event && !copies && !partial && verdict == ORDINARY && !selection && !drift && !topology
  {
    DoubtsAreNotOrdinary();
    var notes := NotesOn(event, copies, partial, verdict, selection, drift, topology);
    assert verdict in notes;
    assert event ==> "event-requires-full" in notes;
    assert copies ==> "copy-origin-ambiguous" in notes;
    assert partial ==> "history-incomplete" in notes;
    assert selection ==> "docs-selection-incomplete" in notes;
    assert drift ==> "reader-audit-drift" in notes;
    assert topology ==> "target-topology-unsupported" in notes;
  }

  lemma DoubtsAreNotOrdinary()
    ensures ORDINARY !in ["event-requires-full", "copy-origin-ambiguous", "docs-selection-incomplete",
                          "reader-audit-drift", "target-topology-unsupported", "manifest-unsupported",
                          "history-incomplete", "changes-empty", "changes-require-full"]
  {
    assert ORDINARY[0] == 'o';
  }

  /** A plan is a documentation plan exactly when, besides its context, it gives no reason but the ordinary one. */
  lemma ReasonsExplainScope(repo: Repo, hash: Hash, target: string, base: Option<string>, event: GatePlan.Event)
    requires Create(repo, hash, target, base, event).Some?
    ensures var plan := Create(repo, hash, target, base, event).value;
      && Strings(Field(plan, "reasons")).Some?
      && (IsDocs(plan) <==> forall x :: x in Strings(Field(plan, "reasons")).value && Untagged(x) ==> x == ORDINARY)
  {
    var facts := TargetFacts(repo, target).value;
    var context := EventContext(event, target);
    var history := GatePlan.ReadHistory(repo, target, facts.entries, base, context.head);
    var docs, reasons := DocsScope(hash, facts, context, history), Reasons(hash, facts, context, history);
    PlanFields(hash, target, facts, docs, history.baseTree, reasons);
    NotedDoubts(hash, facts, context, history);
    UntaggedReasons(hash, facts, context, history);
    assert "docs"[0] != "full"[0];
  }

  lemma UntaggedReasons(hash: Hash, facts: Facts, context: Context, history: History)
    ensures forall x :: x in Reasons(hash, facts, context, history) && Untagged(x) <==>
      x in Notes(hash, facts, context, history)
  {
    SortUniqueIsCanonical(Tags(context, history) + Notes(hash, facts, context, history));
    NotesUntagged(hash, facts, context, history);
    forall x | x in Tags(context, history) ensures !Untagged(x) {
      TagMembers(context, history, x);
      TagsAreTold(context.kind);
      if context.ref.Some? { TagsAreTold(context.ref.value); }
      if context.head.Some? { TagsAreTold(context.head.value); }
      if history.base.Some? { TagsAreTold(history.base.value); }
    }
  }

  // ---------- What each reason tells ----------

  const DOUBTS := ["event-requires-full", "copy-origin-ambiguous", "history-incomplete", "docs-selection-incomplete",
                   "reader-audit-drift", "target-topology-unsupported", "manifest-unsupported"]

  /** Each of these is among the reasons exactly when it is doubted. */
  predicate Told(reasons: seq<string>, doubted: seq<bool>)
    requires |doubted| == |DOUBTS|
  {
    forall i :: 0 <= i < |DOUBTS| ==> (DOUBTS[i] in reasons <==> doubted[i])
  }

  /** What the repository and the event give cause to doubt, in the order of the table. */
  ghost function Doubted(repo: Repo, hash: Hash, target: string, base: Option<string>, event: GatePlan.Event)
    : (r: seq<bool>)
    requires Plannable(repo, target)
    ensures |r| == |DOUBTS|
  {
    var entries := repo.trees[repo.commits[target]];
    var manifest := ReadManifest(repo, entries);
    var known := HistoryKnown(repo, target, base, event);
    [!AllowsDocs(event, target), known && Borrowing(repo, target, base), !known, !SelectionReady(entries, manifest),
     !Audited(hash, entries, manifest), !Regular(entries), !AuditManifest(manifest)]
  }

  ghost predicate Borrowing(repo: Repo, target: string, base: Option<string>)
    requires Plannable(repo, target)
    requires base.Some? && base.value in repo.commits && repo.commits[base.value] in repo.trees
    requires (base.value, target) in repo.diffs && Parse(repo.diffs[(base.value, target)]).Some?
  {
    exists c :: c in Parse(repo.diffs[(base.value, target)]).value &&
      Borrows(c, repo.trees[repo.commits[base.value]], repo.trees[repo.commits[target]])
  }

  /**
    Each doubt is among the reasons of a plan exactly when the repository gives
    cause for it; above all `history-incomplete`, when the base, a deep enough
    history, an ancestry, the difference or the base tree is missing.
   */
  lemma ReasonsAreExact(repo: Repo, hash: Hash, target: string, base: Option<string>, event: GatePlan.Event)
    requires Create(repo, hash, target, base, event).Some?
    ensures Plannable(repo, target)
    ensures var reasons := Strings(Field(Create(repo, hash, target, base, event).value, "reasons"));
      reasons.Some? && Told(reasons.value, Doubted(repo, hash, target, base, event))
  {
    PlansAreMade(repo, target);
    ReasonsOfPlan(repo, hash, target, base, event, TargetFacts(repo, target).value);
  }

  lemma ReasonsOfPlan(repo: Repo, hash: Hash, target: string, base: Option<string>, event: GatePlan.Event, facts: Facts)
    requires TargetFacts(repo, target) == Some(facts) && Plannable(repo, target)
    ensures var reasons := Strings(Field(Create(repo, hash, target, base, event).value, "reasons"));
      reasons.Some? && Told(reasons.value, Doubted(repo, hash, target, base, event))
  {
    var context := EventContext(event, target);
    var history := GatePlan.ReadHistory(repo, target, facts.entries, base, context.head);
    var docs, reasons := DocsScope(hash, facts, context, history), Reasons(hash, facts, context, history);
    PlanFields(hash, target, facts, docs, history.baseTree, reasons);
    DoubtsAreThose(repo, hash, target, base, event, facts);
    HistoryFacts(repo, target, facts.entries, base, event);
    NotesOfPlan(hash, facts, context, history);
  }

  lemma DoubtsAreThose(repo: Repo, hash: Hash, target: string, base: Option<string>, event: GatePlan.Event,
                       facts: Facts)
    requires TargetFacts(repo, target) == Some(facts) && Plannable(repo, target)
    ensures var context := EventContext(event, target);
      var history := GatePlan.ReadHistory(repo, target, facts.entries, base, context.head);
      DoubtsOf(hash, facts, context, history) == Doubted(repo, hash, target, base, event)
  {
    PlansAreMade(repo, target);
    ContextAllows(event, target);
    ManifestIsAudit(facts.manifest);
    SelectionIsReady(facts);
    UnsupportedTrees(facts);
    BorrowingTells(repo, target, facts.entries, base, event);
  }

  lemma BorrowingTells(repo: Repo, target: string, entries: seq<Entry>, base: Option<string>, event: GatePlan.Event)
    requires Plannable(repo, target) && entries == repo.trees[repo.commits[target]]
    ensures var history := GatePlan.ReadHistory(repo, target, entries, base, EventContext(event, target).head);
      && (history.complete <==> HistoryKnown(repo, target, base, event))
      && (history.ambiguous <==> HistoryKnown(repo, target, base, event) && Borrowing(repo, target, base))
  {
    var history := GatePlan.ReadHistory(repo, target, entries, base, EventContext(event, target).head);
    HistoryFacts(repo, target, entries, base, event);
    if history.complete {
      DocsOnlyExactly(history.changes, repo.trees[repo.commits[base.value]], entries);
    }
  }

  function DoubtsOf(hash: Hash, facts: Facts, context: Context, history: History): seq<bool> {
    [!context.allowed, history.ambiguous, !history.complete, SelectionIncomplete(facts), AuditDrift(hash, facts),
     Unsupported(facts), !ValidManifest(facts.manifest)]
  }

  lemma NotesOfPlan(hash: Hash, facts: Facts, context: Context, history: History)
    requires history.complete ==> history.ancestryVerified
    ensures Told(Reasons(hash, facts, context, history), DoubtsOf(hash, facts, context, history))
  {
    NotesAreTold(hash, facts, context, history);
    UntaggedReasons(hash, facts, context, history);
    DoubtsUntagged();
    SameTold(Notes(hash, facts, context, history), Reasons(hash, facts, context, history),
             DoubtsOf(hash, facts, context, history));
  }

  lemma NotesAreTold(hash: Hash, facts: Facts, context: Context, history: History)
    requires history.complete ==> history.ancestryVerified
    ensures Told(Notes(hash, facts, context, history), DoubtsOf(hash, facts, context, history))
  {
    var doubts := NotesNamed(hash, facts, context, history);
    var v := VerdictPlace(facts, history);
    NotesTell(doubts, VerdictOf(facts, history).reason, v);
  }

  lemma NotesNamed(hash: Hash, facts: Facts, context: Context, history: History) returns (doubts: seq<bool>)
    ensures |doubts| == 6 && doubts[2] == !history.complete
    ensures DoubtsOf(hash, facts, context, history) == doubts + [!ValidManifest(facts.manifest)]
    ensures Notes(hash, facts, context, history) == NotesFrom(DOUBTS, doubts, VerdictOf(facts, history).reason)
  {
    doubts := [!context.allowed, history.ambiguous, !history.complete, SelectionIncomplete(facts),
               AuditDrift(hash, facts), Unsupported(facts)];
    NotesByName(doubts, VerdictOf(facts, history).reason);
  }

  lemma SameTold(notes: seq<string>, reasons: seq<string>, doubted: seq<bool>)
    requires |doubted| == |DOUBTS| && Told(notes, doubted)
    requires forall i :: 0 <= i < |DOUBTS| ==> Untagged(DOUBTS[i])
    requires forall x :: x in reasons && Untagged(x) <==> x in notes
    ensures Told(reasons, doubted)
  {}

  lemma DoubtsUntagged()
    ensures forall i :: 0 <= i < |DOUBTS| ==> Untagged(DOUBTS[i])
  {
    ConstantsUntagged();
  }

  const NOTES := DOUBTS + ["changes-empty", "changes-require-full", ORDINARY]

  lemma VerdictNames()
    ensures |NOTES| == 10 && NOTES[2] == "history-incomplete" && NOTES[6] == "manifest-unsupported"
    ensures NOTES[7] == "changes-empty" && NOTES[8] == "changes-require-full" && NOTES[9] == ORDINARY
  {}

  lemma VerdictPlace(facts: Facts, history: History) returns (v: nat)
    requires history.complete ==> history.ancestryVerified
    ensures v in {2, 6, 7, 8, 9} && VerdictOf(facts, history).reason == NOTES[v]
    ensures v == 2 ==> !history.complete
    ensures v == 6 <==> !ValidManifest(facts.manifest)
  {
    VerdictNames();
    v := if !ValidManifest(facts.manifest) then 6 else if !history.complete then 2
         else if history.changes == [] then 7 else if !AllOrdinary(history.changes) then 8 else 9;
  }

  /** The notes, with names taken from a list. */
  function NotesFrom(names: seq<string>, doubts: seq<bool>, verdict: string): seq<string>
    requires |names| >= 6 && |doubts| == 6
  {
    Note(doubts[0], names[0]) + Note(doubts[1], names[1]) + Note(doubts[2], names[2]) + [verdict]
    + Note(doubts[3], names[3]) + Note(doubts[4], names[4]) + Note(doubts[5], names[5])
  }

  lemma NotesByName(doubts: seq<bool>, verdict: string)
    requires |doubts| == 6
    ensures NotesFrom(DOUBTS, doubts, verdict) ==
      NotesOn(doubts[0], doubts[1], doubts[2], verdict, doubts[3], doubts[4], doubts[5])
  {}

  lemma NotesTell(doubts: seq<bool>, verdict: string, v: nat)
    requires |doubts| == 6 && v in {2, 6, 7, 8, 9} && verdict == NOTES[v] && (v == 2 ==> doubts[2])
    ensures Told(NotesFrom(DOUBTS, doubts, verdict), doubts + [v == 6])
  {
    NotesDiffer();
    NoteMembers(DOUBTS, doubts, verdict);
    Distinguish(NotesFrom(DOUBTS, doubts, verdict), NOTES, doubts, v);
    assert forall i :: 0 <= i < 7 ==> DOUBTS[i] == NOTES[i];
  }

  lemma NoteMembers(names: seq<string>, doubts: seq<bool>, verdict: string)
    requires |names| >= 6 && |doubts| == 6
    ensures forall x :: x in NotesFrom(names, doubts, verdict) <==>
      x == verdict || exists i :: 0 <= i < 6 && doubts[i] && x == names[i]
  {}

  lemma Distinguish(notes: seq<string>, names: seq<string>, doubts: seq<bool>, v: nat)
    requires NoRepeats(names) && |names| == 10 && |doubts| == 6 && v in {2, 6, 7, 8, 9} && (v == 2 ==> doubts[2])
    requires forall x :: x in notes <==> x == names[v] || exists i :: 0 <= i < 6 && doubts[i] && x == names[i]
    ensures forall i :: 0 <= i < 6 ==> (names[i] in notes <==> doubts[i])
    ensures names[6] in notes <==> v == 6
  {}

  lemma NotesDiffer()
    ensures NoRepeats(NOTES)
  {
    assert "copy-origin-ambiguous"[1] != "changes-empty"[1] && |"changes-empty"| != |"changes-require-full"|;
    assert forall i :: 0 <= i < 10 ==> NOTES[i][0] == "echdrtmcco"[i];
  }
}
