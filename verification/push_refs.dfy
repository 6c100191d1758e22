/**
  Pushed refs joined into one validation target per tree
  (scripts/push-targets.mjs): the weakest gate any ref asks for never wins.
 */
module PushRefs {
  import opened Options
  import opened Text
  import opened Json
  import opened JsonText
  import opened ChangeFacts
  import opened GatePlan
  import opened PlanCheck
  import PlanFacts

  datatype Ref = Ref(localRef: string, localOid: string, remoteRef: string, remoteOid: string)

  datatype Scope = MeasurementOnly | Docs | Full

  function RankOf(scope: Scope): nat {
    match scope case MeasurementOnly => 0 case Docs => 1 case Full => 2
  }

  /** What git and the planner answer about one ref; `None` is a call that fails. */
  datatype Answers = Answers(nameOk: bool, commit: Option<string>, tree: Option<string>, base: Option<string>,
                             ancestor: bool, diffOk: bool, planned: Option<Json>)

  /** One pushed ref with its facts, the gate it requires and the plan that was bound to it. */
  datatype RefPlan = RefPlan(ref: Ref, commit: string, tree: string, base: Option<string>,
                             complete: bool, ancestryVerified: bool, scope: Scope, plan: Option<Json>)

  datatype Target = Target(commit: string, tree: string, refs: seq<Ref>, refPlans: seq<RefPlan>,
                           scope: Scope, plan: Option<Json>, current: bool)

  predicate Zero(oid: string) {
    oid != [] && forall i :: 0 <= i < |oid| ==> oid[i] == '0'
  }

  // ---------- One ref ----------

  function ReasonTexts(plan: Json): seq<string> {
    var reasons := Field(plan, "reasons");
    if reasons.Some? && reasons.value.TArr? then Texts(reasons.value.items) else []
  }

  /** `planMatchesRef`: the plan is sealed and names exactly this commit, tree and ref. */
  predicate PlanMatchesRef(hash: Hash, plan: Json, commit: string, tree: string, remoteRef: string) {
    && plan.Obj? && Field(plan, "schema") == Some(TNum("1"))
    && (Field(plan, "scope") == Some(TStr("docs")) || Field(plan, "scope") == Some(TStr("full")))
    && Field(plan, "targetCommit") == Some(TStr(commit)) && Field(plan, "targetTree") == Some(TStr(tree))
    && Field(plan, "reasons").Some? && Field(plan, "reasons").value.TArr?
    && Field(plan, "selectedFiles").Some? && Field(plan, "selectedFiles").value.TArr?
    && Field(plan, "selectedFiles").value.items != []
    && WithPrefix(ReasonTexts(plan), EVENT) == [EVENT + "push"]
    && WithPrefix(ReasonTexts(plan), REF) == [REF + remoteRef]
    && Field(plan, "planDigest") == Some(TStr(HashPlan(hash, Without(plan, "planDigest"))))
  }

  predicate Protected(remoteRef: string) {
    remoteRef == MAIN || ReleaseRef(remoteRef)
  }

  const MEASURE := "refs/heads/measure/"

  /** What a matching plan must also say before the documentation gate is enough. */
  predicate DocsAllowed(plan: Json, base: Option<string>, complete: bool, ancestryVerified: bool, remoteRef: string) {
    && Field(plan, "scope") == Some(TStr("docs")) && base.Some? && complete && ancestryVerified
    && BASE + base.value in ReasonTexts(plan)
    && StartsWith(remoteRef, "refs/heads/") && !Protected(remoteRef)
  }

  function Assess(hash: Hash, ref: Ref, a: Answers, commit: string, tree: string): RefPlan {
    var base := if Zero(ref.remoteOid) then None else a.base;
    var ancestry := Zero(ref.remoteOid) || a.ancestor;
    var measured := StartsWith(ref.remoteRef, MEASURE) && a.diffOk && ancestry;
    var plan := if !measured && a.planned.Some? && PlanMatchesRef(hash, a.planned.value, commit, tree, ref.remoteRef)
                then a.planned else None;
    var scope := if measured then MeasurementOnly
                 else if plan.Some? && DocsAllowed(plan.value, base, a.diffOk, ancestry, ref.remoteRef) then Docs
                 else Full;
    RefPlan(ref, commit, tree, base, a.diffOk, ancestry, scope, plan)
  }

  datatype Outcome = Malformed | Deletion | Resolved(refPlan: RefPlan)

  function ResolveRef(hash: Hash, ref: Ref, a: Answers): Outcome {
    if !a.nameOk then Malformed
    else if Zero(ref.localOid) then Deletion
    else if a.commit.None? || a.tree.None? || (!Zero(ref.remoteOid) && a.base.None?) then Malformed
    else Resolved(Assess(hash, ref, a, a.commit.value, a.tree.value))
  }

  lemma ProtectedIsFull(hash: Hash, ref: Ref, a: Answers, commit: string, tree: string)
    requires Protected(ref.remoteRef)
    ensures Assess(hash, ref, a, commit, tree).scope == Full
  {
    assert MEASURE[11] == 'm' && "refs/heads/release"[11] == 'r' && |MAIN| < |MEASURE|;
  }

  /**
    A ref that needs only the documentation gate has a sealed documentation plan
    for its own commit, tree, name and base.
   */
  predicate BoundDocsPlan(hash: Hash, p: RefPlan) {
    && p.plan.Some? && PlanMatchesRef(hash, p.plan.value, p.commit, p.tree, p.ref.remoteRef)
    && Field(p.plan.value, "scope") == Some(TStr("docs"))
    && p.base.Some? && BASE + p.base.value in ReasonTexts(p.plan.value)
    && p.complete && p.ancestryVerified && !Protected(p.ref.remoteRef)
  }

  predicate Sound(hash: Hash, p: RefPlan) {
    && (Protected(p.ref.remoteRef) ==> p.scope == Full)
    && (p.scope == Docs ==> BoundDocsPlan(hash, p))
  }

  lemma AssessIsSound(hash: Hash, ref: Ref, a: Answers, commit: string, tree: string)
    ensures Sound(hash, Assess(hash, ref, a, commit, tree))
  {
    if Protected(ref.remoteRef) {
      ProtectedIsFull(hash, ref, a, commit, tree);
    }
  }

  // ---------- The gate a ref requires ----------

  /** A ref that the remote does not have yet. */
  predicate NewRef(ref: Ref) {
    ref.remoteOid != "" && forall c :: c in ref.remoteOid ==> c == '0'
  }

  /** A measurement branch whose difference is complete, and which is new or goes on from what the remote has. */
  predicate Measures(ref: Ref, a: Answers) {
    StartsWith(ref.remoteRef, "refs/heads/measure/") && a.diffOk && (NewRef(ref) || a.ancestor)
  }

  /** A branch other than main, release and the branches named after release. */
  predicate OpenBranch(remoteRef: string) {
    StartsWith(remoteRef, "refs/heads/") &&
    var branch := remoteRef[11..];
    && branch != "main" && branch != "release" && !StartsWith(branch, "release/") && !StartsWith(branch, "release-")
  }

  /** This text is the prefix and the value, and no other has the prefix. */
  predicate OnlyAt(texts: seq<string>, prefix: string, value: string, i: int) {
    0 <= i < |texts| && texts[i] == prefix + value
    && forall j :: 0 <= j < |texts| && j != i ==> !StartsWith(texts[j], prefix)
  }

  predicate OnlyOne(texts: seq<string>, prefix: string, value: string) {
    exists i :: 0 <= i < |texts| && OnlyAt(texts, prefix, value, i)
  }

  /** A sealed plan for exactly this commit, tree and ref, with something selected. */
  predicate Binds(hash: Hash, plan: Json, commit: string, tree: string, remoteRef: string) {
    && plan.Obj? && Field(plan, "planDigest") == Some(TStr(HashPlan(hash, Without(plan, "planDigest"))))
    && Field(plan, "schema") == Some(TNum("1"))
    && Field(plan, "scope") in {Some(TStr("docs")), Some(TStr("full"))}
    && Field(plan, "targetCommit") == Some(TStr(commit)) && Field(plan, "targetTree") == Some(TStr(tree))
    && ListField(plan, "reasons") && ListField(plan, "selectedFiles")
    && |Field(plan, "selectedFiles").value.items| > 0
    && OnlyOne(ReasonTexts(plan), "event:", "push") && OnlyOne(ReasonTexts(plan), "ref:", remoteRef)
  }

  predicate ListField(plan: Json, key: string) {
    Field(plan, key).Some? && Field(plan, key).value.TArr?
  }

  /** A documentation plan bound to an open branch of the remote, whose base and history since are known. */
  predicate DocsBound(hash: Hash, ref: Ref, a: Answers) {
    && a.planned.Some? && a.commit.Some? && a.tree.Some? && a.base.Some? && !NewRef(ref) && a.diffOk && a.ancestor
    && Binds(hash, a.planned.value, a.commit.value, a.tree.value, ref.remoteRef)
    && Field(a.planned.value, "scope") == Some(TStr("docs"))
    && "base-commit:" + a.base.value in ReasonTexts(a.planned.value) && OpenBranch(ref.remoteRef)
  }

  /** The gate a ref requires: the weakest for measurements, the subset for bound documentation, else all. */
  function Required(hash: Hash, ref: Ref, a: Answers): Scope {
    if Measures(ref, a) then MeasurementOnly else if DocsBound(hash, ref, a) then Docs else Full
  }

  lemma ZeroOids(ref: Ref)
    ensures Zero(ref.remoteOid) <==> NewRef(ref)
  {
    assert forall i :: 0 <= i < |ref.remoteOid| ==> ref.remoteOid[i] in ref.remoteOid;
  }

  lemma OpenBranches(remoteRef: string)
    ensures StartsWith(remoteRef, "refs/heads/") && !Protected(remoteRef) <==> OpenBranch(remoteRef)
  {
    if StartsWith(remoteRef, "refs/heads/") {
      assert remoteRef == "refs/heads/" + remoteRef[11..];
      assert MAIN == "refs/heads/" + "main";
      PlanFacts.ReleaseRefs(remoteRef[11..]);
    }
  }

  predicate NoneHas(texts: seq<string>, prefix: string) {
    forall j :: 0 <= j < |texts| ==> !StartsWith(texts[j], prefix)
  }

  lemma OnlyAtFirst(first: string, rest: seq<string>, prefix: string, value: string)
    ensures OnlyAt([first] + rest, prefix, value, 0) <==> first == prefix + value && NoneHas(rest, prefix)
  {
    var texts := [first] + rest;
    assert forall j :: 0 <= j < |rest| ==> texts[j + 1] == rest[j];
  }

  lemma OnlyAtRest(first: string, rest: seq<string>, prefix: string, value: string, i: nat)
    ensures OnlyAt([first] + rest, prefix, value, i + 1) <==>
      !StartsWith(first, prefix) && OnlyAt(rest, prefix, value, i)
  {
    var texts := [first] + rest;
    assert forall j :: 0 <= j < |rest| ==> texts[j + 1] == rest[j];
    assert texts[0] == first;
  }

  lemma OnlyOneMore(first: string, rest: seq<string>, prefix: string, value: string)
    ensures OnlyOne([first] + rest, prefix, value) <==>
      if StartsWith(first, prefix) then first == prefix + value && NoneHas(rest, prefix)
      else OnlyOne(rest, prefix, value)
  {
    var texts := [first] + rest;
    OnlyAtFirst(first, rest, prefix, value);
    if OnlyOne(texts, prefix, value) {
      var i :| 0 <= i < |texts| && OnlyAt(texts, prefix, value, i);
      if i > 0 {
        OnlyAtRest(first, rest, prefix, value, i - 1);
      }
    }
    if !StartsWith(first, prefix) && OnlyOne(rest, prefix, value) {
      var i :| 0 <= i < |rest| && OnlyAt(rest, prefix, value, i);
      OnlyAtRest(first, rest, prefix, value, i);
    }
  }

  lemma {:induction false} OnlyOneExactly(texts: seq<string>, prefix: string, value: string)
    ensures WithPrefix(texts, prefix) == [prefix + value] <==> OnlyOne(texts, prefix, value)
  {
    if texts != [] {
      assert texts == [texts[0]] + texts[1..];
      OnlyOneExactly(texts[1..], prefix, value);
      NoneExactly(texts[1..], prefix);
      OnlyOneMore(texts[0], texts[1..], prefix, value);
    }
  }

  lemma {:induction false} NoneExactly(texts: seq<string>, prefix: string)
    ensures WithPrefix(texts, prefix) == [] <==> NoneHas(texts, prefix)
  {
    if texts != [] {
      assert texts == [texts[0]] + texts[1..];
      NoneExactly(texts[1..], prefix);
    }
  }

  lemma BindsExactly(hash: Hash, plan: Json, commit: string, tree: string, remoteRef: string)
    ensures PlanMatchesRef(hash, plan, commit, tree, remoteRef) <==> Binds(hash, plan, commit, tree, remoteRef)
  {
    OnlyOneExactly(ReasonTexts(plan), EVENT, "push");
    OnlyOneExactly(ReasonTexts(plan), REF, remoteRef);
  }

  /**
    A ref that is neither refused nor a deletion gets the gate it requires, and
    its facts are those git gave: nothing is compared for a new ref, and a plan is
    kept only when it is bound to the ref and no measurement makes it needless.
   */
  lemma ScopeExactly(hash: Hash, ref: Ref, a: Answers)
    requires ResolveRef(hash, ref, a).Resolved?
    ensures var p := ResolveRef(hash, ref, a).refPlan;
      && p.scope == Required(hash, ref, a) && p.ref == ref && Some(p.commit) == a.commit && Some(p.tree) == a.tree
      && p.base == (if NewRef(ref) then None else a.base) && p.complete == a.diffOk
      && p.ancestryVerified == (NewRef(ref) || a.ancestor)
      && p.plan == (if !Measures(ref, a) && a.planned.Some?
                       && Binds(hash, a.planned.value, p.commit, p.tree, ref.remoteRef) then a.planned else None)
  {
    ZeroOids(ref);
    OpenBranches(ref.remoteRef);
    if a.planned.Some? {
      BindsExactly(hash, a.planned.value, a.commit.value, a.tree.value, ref.remoteRef);
    }
  }

  // ---------- Joining ----------

  /** The refs whose tree is `tree`, in pushed order. */
  function Group(plans: seq<RefPlan>, tree: string): seq<RefPlan> {
    if plans == [] then []
    else
      var last := plans[|plans| - 1];
      Group(plans[..|plans| - 1], tree) + if last.tree == tree then [last] else []
  }

  function RefsOf(plans: seq<RefPlan>): seq<Ref> {
    seq(|plans|, i requires 0 <= i < |plans| => plans[i].ref)
  }

  /** The target takes commit, plan and scope together from one ref of the group, the first with the highest scope. */
  predicate Leads(target: Target, group: seq<RefPlan>, k: nat) {
    && k < |group|
    && target.commit == group[k].commit && target.plan == group[k].plan && target.scope == group[k].scope
    && (forall j :: 0 <= j < |group| ==> RankOf(group[j].scope) <= RankOf(target.scope))
    && (forall j :: 0 <= j < k ==> RankOf(group[j].scope) < RankOf(target.scope))
  }

  ghost predicate Represents(target: Target, tree: string, group: seq<RefPlan>) {
    && target.tree == tree && target.refPlans == group && target.refs == RefsOf(group)
    && exists k: nat :: Leads(target, group, k)
  }

  function TreesOf(plans: seq<RefPlan>): seq<string> {
    seq(|plans|, i requires 0 <= i < |plans| => plans[i].tree)
  }

  /** One target for every tree, in order of first appearance, each standing for all refs of its tree. */
  ghost predicate Joined(order: seq<string>, targets: map<string, Target>, plans: seq<RefPlan>) {
    order == Dedup(TreesOf(plans)) && (forall t :: t in order <==> t in targets) && RepresentAll(targets, plans)
  }

  ghost predicate RepresentAll(targets: map<string, Target>, plans: seq<RefPlan>) {
    forall t :: t in targets ==> Represents(targets[t], t, Group(plans, t))
  }

  function First(p: RefPlan): Target {
    Target(p.commit, p.tree, [p.ref], [p], p.scope, p.plan, false)
  }

  function Absorb(target: Target, p: RefPlan): Target {
    var more := target.(refs := target.refs + [p.ref], refPlans := target.refPlans + [p]);
    if RankOf(p.scope) > RankOf(target.scope) then more.(commit := p.commit, plan := p.plan, scope := p.scope) else more
  }

  lemma FirstRepresents(p: RefPlan)
    ensures Represents(First(p), p.tree, [p])
  {
    assert Leads(First(p), [p], 0);
  }

  lemma AbsorbRepresents(target: Target, group: seq<RefPlan>, p: RefPlan)
    requires Represents(target, p.tree, group)
    ensures Represents(Absorb(target, p), p.tree, group + [p])
  {
    var k: nat :| Leads(target, group, k);
    assert RefsOf(group + [p]) == RefsOf(group) + [p.ref];
    assert Leads(Absorb(target, p), group + [p], if RankOf(p.scope) > RankOf(target.scope) then |group| else k);
  }

  lemma {:induction false} GroupIsEmpty(plans: seq<RefPlan>, tree: string)
    requires forall i :: 0 <= i < |plans| ==> plans[i].tree != tree
    ensures Group(plans, tree) == []
  {
    if plans != [] {
      GroupIsEmpty(plans[..|plans| - 1], tree);
    }
  }

  lemma {:induction false} GroupMembers(plans: seq<RefPlan>, tree: string)
    ensures forall p :: p in Group(plans, tree) <==> p in plans && p.tree == tree
  {
    if plans != [] {
      GroupMembers(plans[..|plans| - 1], tree);
      assert plans == plans[..|plans| - 1] + [plans[|plans| - 1]];
    }
  }

  /** The second loop of `resolvePushTrees`, over a map that keeps its trees in order of arrival. */
  method JoinTrees(plans: seq<RefPlan>) returns (order: seq<string>, targets: map<string, Target>)
    ensures Joined(order, targets, plans)
  {
    order, targets := [], map[];
    for i := 0 to |plans|
      invariant Joined(order, targets, plans[..i])
    {
      var p := plans[i];
      assert plans[..i + 1] == plans[..i] + [p];
      JoinStep(order, targets, plans[..i], p);
      if p.tree in targets {
        targets := targets[p.tree := Absorb(targets[p.tree], p)];
      } else {
        order, targets := order + [p.tree], targets[p.tree := First(p)];
      }
    }
    assert plans[..|plans|] == plans;
  }

  function Put(targets: map<string, Target>, p: RefPlan): map<string, Target> {
    targets[p.tree := if p.tree in targets then Absorb(targets[p.tree], p) else First(p)]
  }

  lemma GroupAppend(plans: seq<RefPlan>, p: RefPlan, tree: string)
    ensures Group(plans + [p], tree) == if p.tree == tree then Group(plans, tree) + [p] else Group(plans, tree)
    ensures RefsOf(Group(plans + [p], tree)) ==
      if p.tree == tree then RefsOf(Group(plans, tree)) + [p.ref] else RefsOf(Group(plans, tree))
  {
    assert (plans + [p])[..|plans|] == plans;
  }

  lemma PutRepresents(targets: map<string, Target>, done: seq<RefPlan>, p: RefPlan)
    requires RepresentAll(targets, done) && forall t :: t in Dedup(TreesOf(done)) <==> t in targets
    ensures RepresentAll(Put(targets, p), done + [p])
  {
    forall t | t in Put(targets, p) ensures Represents(Put(targets, p)[t], t, Group(done + [p], t)) {
      if t !in targets {
        NewTree(done, t);
      }
      PutRepresentsAt(targets, done, p, t);
    }
  }

  lemma NewTree(done: seq<RefPlan>, tree: string)
    requires tree !in Dedup(TreesOf(done))
    ensures Group(done, tree) == []
  {
    DedupKeepsMembers(TreesOf(done));
    forall i | 0 <= i < |done| ensures done[i].tree != tree {
      assert TreesOf(done)[i] in TreesOf(done);
    }
    GroupIsEmpty(done, tree);
  }

  lemma PutRepresentsAt(targets: map<string, Target>, done: seq<RefPlan>, p: RefPlan, t: string)
    requires t in Put(targets, p)
    requires if t in targets then Represents(targets[t], t, Group(done, t)) else Group(done, t) == []
    ensures Represents(Put(targets, p)[t], t, Group(done + [p], t))
  {
    GroupAppend(done, p, t);
    if t == p.tree {
      if t in targets {
        AbsorbRepresents(targets[t], Group(done, t), p);
      } else {
        FirstRepresents(p);
      }
    }
  }

  lemma JoinStep(order: seq<string>, targets: map<string, Target>, done: seq<RefPlan>, p: RefPlan)
    requires Joined(order, targets, done)
    ensures Joined(if p.tree in targets then order else order + [p.tree], Put(targets, p), done + [p])
  {
    PutRepresents(targets, done, p);
    OrderStep(done, p);
  }

  lemma OrderStep(done: seq<RefPlan>, p: RefPlan)
    ensures var order := Dedup(TreesOf(done));
      Dedup(TreesOf(done + [p])) == if p.tree in order then order else order + [p.tree]
  {
    assert TreesOf(done + [p]) == TreesOf(done) + [p.tree];
    DedupAppend(TreesOf(done), p.tree);
  }

  function Outcomes(hash: Hash, refs: seq<Ref>, ask: Ref -> Answers): seq<Outcome> {
    seq(|refs|, i requires 0 <= i < |refs| => ResolveRef(hash, refs[i], ask(refs[i])))
  }

  /** The resolved refs in order; `None` when any ref is malformed. */
  function Collect(outcomes: seq<Outcome>): Option<seq<RefPlan>> {
    if outcomes == [] then Some([])
    else
      var rest := Collect(outcomes[..|outcomes| - 1]);
      match outcomes[|outcomes| - 1]
      case Malformed => None
      case Deletion => rest
      case Resolved(p) => if rest.None? then None else Some(rest.value + [p])
  }

  /** Refs that are pushed rather than deleted, resolved in order; `None` when any ref fails. */
  function Plans(hash: Hash, refs: seq<Ref>, ask: Ref -> Answers): Option<seq<RefPlan>> {
    Collect(Outcomes(hash, refs, ask))
  }

  lemma {:induction false} CollectUnlessMalformed(outcomes: seq<Outcome>)
    ensures Collect(outcomes).Some? <==> forall i :: 0 <= i < |outcomes| ==> !outcomes[i].Malformed?
    ensures Collect(outcomes).Some? ==>
      forall i :: 0 <= i < |outcomes| && outcomes[i].Resolved? ==> outcomes[i].refPlan in Collect(outcomes).value
  {
    if outcomes != [] {
      var n := |outcomes| - 1;
      CollectUnlessMalformed(outcomes[..n]);
      assert forall i :: 0 <= i < n ==> outcomes[..n][i] == outcomes[i];
    }
  }

  /** `resolvePushTrees`. `isCurrent` is the byte audit of the caller's own checkout. */
  method ResolvePushTrees(hash: Hash, refs: seq<Ref>, ask: Ref -> Answers, isCurrent: string -> bool)
    returns (result: Option<seq<Target>>)
    // Refused exactly when some ref is malformed or cannot be resolved.
    ensures result.Some? <==> forall i :: 0 <= i < |refs| ==> Resolvable(refs[i], ask(refs[i]))
    // One target per tree in order of first appearance, made of exactly the pushed refs to that tree, in order.
    ensures result.Some? ==> Plans(hash, refs, ask).Some? && RefsOf(Plans(hash, refs, ask).value) == Pushed(refs)
    ensures result.Some? ==> Answer(result.value, Plans(hash, refs, ask).value)
    ensures result.Some? ==> Conserved(result.value, refs, ask)
    ensures result.Some? ==> AllMarked(result.value, isCurrent)
    // Each target asks for what the refs of its tree require, and for no less.
    ensures result.Some? ==> forall i :: 0 <= i < |result.value| ==> ScopedBy(hash, refs, ask, result.value[i])
  {
    RefusedWhenUnresolvable(hash, refs, ask);
    var plans := ResolveAll(hash, refs, ask);
    if plans.None? { return None; }
    var list := JoinAndMark(plans.value, isCurrent);
    PlansAreThePush(hash, refs, ask);
    AnswerConserves(hash, refs, ask, list);
    TargetScopeExactly(hash, refs, ask, list);
    return Some(list);
  }

  lemma CollectMore(outcomes: seq<Outcome>, i: nat)
    requires i < |outcomes| && Collect(outcomes[..i]).Some?
    ensures Collect(outcomes[..i + 1]) ==
      match outcomes[i]
      case Malformed => None
      case Deletion => Collect(outcomes[..i])
      case Resolved(p) => Some(Collect(outcomes[..i]).value + [p])
  {
    assert outcomes[..i + 1][..i] == outcomes[..i];
  }

  /** The first loop: each ref is resolved, and the first failure ends it. */
  method ResolveAll(hash: Hash, refs: seq<Ref>, ask: Ref -> Answers) returns (plans: Option<seq<RefPlan>>)
    ensures plans == Plans(hash, refs, ask)
  {
    ghost var outcomes := Outcomes(hash, refs, ask);
    CollectUnlessMalformed(outcomes);
    var found: seq<RefPlan> := [];
    for i := 0 to |refs|
      invariant Collect(outcomes[..i]) == Some(found)
    {
      CollectMore(outcomes, i);
      match ResolveRef(hash, refs[i], ask(refs[i]))
      case Malformed =>
        assert outcomes[i].Malformed?;
        return None;
      case Deletion =>
      case Resolved(p) => found := found + [p];
    }
    assert outcomes[..|refs|] == outcomes;
    return Some(found);
  }

  /** The second and third loop: refs are joined by tree, and targets the caller has checked out exactly are marked. */
  method JoinAndMark(plans: seq<RefPlan>, isCurrent: string -> bool) returns (list: seq<Target>)
    ensures Answer(list, plans) && AllMarked(list, isCurrent)
  {
    var order, targets := JoinTrees(plans);
    list := [];
    for i := 0 to |order|
      invariant |list| == i && AllMarked(list, isCurrent)
      invariant forall j :: 0 <= j < i ==> order[j] in targets && Audited(list[j], targets[order[j]])
    {
      assert order[i] in targets;
      var target := targets[order[i]];
      list := list + [target.(current := isCurrent(target.commit))];
    }
    ListAnswers(order, targets, plans, list);
  }

  predicate AllMarked(targets: seq<Target>, isCurrent: string -> bool) {
    forall i :: 0 <= i < |targets| ==> targets[i].current == isCurrent(targets[i].commit)
  }

  /** Each target has exactly the pushed refs to its tree, in order. */
  predicate Conserved(targets: seq<Target>, refs: seq<Ref>, ask: Ref -> Answers) {
    forall i :: 0 <= i < |targets| ==> targets[i].refs == RefsTo(refs, ask, targets[i].tree)
  }

  lemma AnswerConserves(hash: Hash, refs: seq<Ref>, ask: Ref -> Answers, targets: seq<Target>)
    requires Plans(hash, refs, ask).Some? && Answer(targets, Plans(hash, refs, ask).value)
    ensures Conserved(targets, refs, ask)
  {
    OutcomesAreAligned(hash, refs, ask);
    forall i | 0 <= i < |targets| ensures targets[i].refs == RefsTo(refs, ask, targets[i].tree) {
      assert Represents(targets[i], targets[i].tree, Group(Plans(hash, refs, ask).value, targets[i].tree));
      GroupIsRefsTo(refs, Outcomes(hash, refs, ask), ask, targets[i].tree);
    }
  }

  // ---------- The gate a target requires ----------

  /** A pushed ref to this tree, not a deletion, that requires this gate. */
  predicate Requires(hash: Hash, ref: Ref, a: Answers, tree: string, scope: Scope) {
    !Zero(ref.localOid) && a.tree == Some(tree) && Required(hash, ref, a) == scope
  }

  ghost predicate SomeRequires(hash: Hash, refs: seq<Ref>, ask: Ref -> Answers, tree: string, scope: Scope) {
    exists ref :: ref in refs && Requires(hash, ref, ask(ref), tree, scope)
  }

  /** The gate of a target, by the refs that are pushed to its tree: all tests as soon as one ref requires them. */
  ghost predicate ScopedBy(hash: Hash, refs: seq<Ref>, ask: Ref -> Answers, target: Target) {
    var full := SomeRequires(hash, refs, ask, target.tree, Full);
    var docs := SomeRequires(hash, refs, ask, target.tree, Docs);
    && (target.scope == Full <==> full) && (target.scope == Docs <==> !full && docs)
    && (target.scope == MeasurementOnly <==>
          forall ref :: ref in refs && !Zero(ref.localOid) && ask(ref).tree == Some(target.tree) ==>
            Measures(ref, ask(ref)))
  }

  lemma {:induction false} PlansAreTheRefs(hash: Hash, refs: seq<Ref>, ask: Ref -> Answers)
    requires Plans(hash, refs, ask).Some?
    ensures forall ref :: ref in refs && !Zero(ref.localOid) ==>
      ResolveRef(hash, ref, ask(ref)).Resolved?
      && ResolveRef(hash, ref, ask(ref)).refPlan in Plans(hash, refs, ask).value
    ensures forall p :: p in Plans(hash, refs, ask).value ==>
      p.ref in refs && !Zero(p.ref.localOid) && ResolveRef(hash, p.ref, ask(p.ref)) == Resolved(p)
  {
    var outcomes := Outcomes(hash, refs, ask);
    CollectUnlessMalformed(outcomes);
    CollectKeeps(outcomes);
    forall ref | ref in refs && !Zero(ref.localOid)
      ensures ResolveRef(hash, ref, ask(ref)).Resolved?
      ensures ResolveRef(hash, ref, ask(ref)).refPlan in Plans(hash, refs, ask).value
    {
      var i :| 0 <= i < |refs| && refs[i] == ref;
      assert outcomes[i] == ResolveRef(hash, ref, ask(ref));
    }
    forall p | p in Plans(hash, refs, ask).value
      ensures p.ref in refs && !Zero(p.ref.localOid) && ResolveRef(hash, p.ref, ask(p.ref)) == Resolved(p)
    {
      var i :| 0 <= i < |outcomes| && outcomes[i] == Resolved(p);
      assert outcomes[i] == ResolveRef(hash, refs[i], ask(refs[i]));
      ScopeExactly(hash, refs[i], ask(refs[i]));
    }
  }

  /** Every target has exactly the gate that the refs of its tree require. */
  lemma TargetScopeExactly(hash: Hash, refs: seq<Ref>, ask: Ref -> Answers, targets: seq<Target>)
    requires Plans(hash, refs, ask).Some? && Answer(targets, Plans(hash, refs, ask).value)
    ensures forall i :: 0 <= i < |targets| ==> ScopedBy(hash, refs, ask, targets[i])
  {
    forall i | 0 <= i < |targets| ensures ScopedBy(hash, refs, ask, targets[i]) {
      var plans := Plans(hash, refs, ask).value;
      var leader := Spokesman(targets, plans, i);
      PlansAreTheRefs(hash, refs, ask);
      ScopeExactly(hash, leader.ref, ask(leader.ref));
      forall ref | ref in refs && !Zero(ref.localOid) && ask(ref).tree == Some(targets[i].tree)
        ensures RankOf(Required(hash, ref, ask(ref))) <= RankOf(targets[i].scope)
      {
        ScopeExactly(hash, ref, ask(ref));
        ScopeIsHighest(targets, plans, i, ResolveRef(hash, ref, ask(ref)).refPlan);
      }
      HighestDecides(hash, refs, ask, targets[i], leader.ref);
    }
  }

  lemma HighestDecides(hash: Hash, refs: seq<Ref>, ask: Ref -> Answers, target: Target, leader: Ref)
    requires leader in refs && Requires(hash, leader, ask(leader), target.tree, target.scope)
    requires forall ref :: ref in refs && !Zero(ref.localOid) && ask(ref).tree == Some(target.tree) ==>
      RankOf(Required(hash, ref, ask(ref))) <= RankOf(target.scope)
    ensures ScopedBy(hash, refs, ask, target)
  {}

  // ---------- What the targets say ----------

  ghost predicate Answer(targets: seq<Target>, plans: seq<RefPlan>) {
    && TargetTrees(targets) == Dedup(TreesOf(plans))
    && (forall i :: 0 <= i < |targets| ==> Represents(targets[i], targets[i].tree, Group(plans, targets[i].tree)))
  }

  function TargetTrees(targets: seq<Target>): seq<string> {
    seq(|targets|, i requires 0 <= i < |targets| => targets[i].tree)
  }

  /** One target per distinct tree, in the order in which the trees first appear. */
  lemma OneTargetPerTree(targets: seq<Target>, plans: seq<RefPlan>)
    requires Answer(targets, plans)
    ensures NoRepeats(TargetTrees(targets))
    ensures forall p :: p in plans ==> p.tree in TargetTrees(targets)
    ensures forall i, j :: 0 <= i < j < |targets| ==> Leading(TreesOf(plans), targets[i].tree, targets[j].tree)
  {
    forall i, j | 0 <= i < j < |targets| ensures Leading(TreesOf(plans), targets[i].tree, targets[j].tree) {
      assert TargetTrees(targets)[i] == targets[i].tree && TargetTrees(targets)[j] == targets[j].tree;
      DedupKeepsOrder(TreesOf(plans), i, j);
    }
    DedupKeepsMembers(TreesOf(plans));
    forall p | p in plans ensures p.tree in TargetTrees(targets) {
      var i :| 0 <= i < |plans| && plans[i] == p;
      assert TreesOf(plans)[i] == p.tree;
    }
  }

  lemma ListAnswers(order: seq<string>, targets: map<string, Target>, plans: seq<RefPlan>, list: seq<Target>)
    requires Joined(order, targets, plans) && |list| == |order|
    requires forall j :: 0 <= j < |order| ==> order[j] in targets && Audited(list[j], targets[order[j]])
    ensures Answer(list, plans)
  {
    forall i | 0 <= i < |list|
      ensures list[i].tree == order[i] && Represents(list[i], list[i].tree, Group(plans, list[i].tree))
    {
      var target, group := targets[order[i]], Group(plans, order[i]);
      assert Represents(target, order[i], group);
      var k: nat :| Leads(target, group, k);
      assert Leads(list[i], group, k);
    }
    assert TargetTrees(list) == order;
  }

  /** The same target but for the mark that the caller's checkout is current. */
  predicate Audited(marked: Target, target: Target) {
    marked.(current := target.current) == target
  }

  /** The pushed refs that are not deletions, in order. */
  function Pushed(refs: seq<Ref>): seq<Ref> {
    if refs == [] then []
    else
      var last := refs[|refs| - 1];
      Pushed(refs[..|refs| - 1]) + if Zero(last.localOid) then [] else [last]
  }

  /** The pushed refs that git resolves to this tree, in order. */
  function RefsTo(refs: seq<Ref>, ask: Ref -> Answers, tree: string): seq<Ref> {
    if refs == [] then []
    else
      var last := refs[|refs| - 1];
      RefsTo(refs[..|refs| - 1], ask, tree) +
      if !Zero(last.localOid) && ask(last).tree == Some(tree) then [last] else []
  }

  /** Git knows the name, and the commit, the tree and the base that are needed. */
  predicate Resolvable(ref: Ref, a: Answers) {
    && a.nameOk
    && (Zero(ref.localOid) || (a.commit.Some? && a.tree.Some? && (Zero(ref.remoteOid) || a.base.Some?)))
  }

  /** A deletion, or a plan for the ref and the tree git names. */
  predicate AlignedAt(ref: Ref, a: Answers, outcome: Outcome) {
    match outcome
    case Malformed => !Resolvable(ref, a)
    case Deletion => Resolvable(ref, a) && Zero(ref.localOid)
    case Resolved(p) => Resolvable(ref, a) && !Zero(ref.localOid) && p.ref == ref && a.tree == Some(p.tree)
  }

  lemma ResolveRefIsAligned(hash: Hash, ref: Ref, a: Answers)
    ensures AlignedAt(ref, a, ResolveRef(hash, ref, a))
  {}

  predicate Aligned(refs: seq<Ref>, outcomes: seq<Outcome>, ask: Ref -> Answers) {
    |refs| == |outcomes| && forall i :: 0 <= i < |refs| ==> AlignedAt(refs[i], ask(refs[i]), outcomes[i])
  }

  lemma OutcomesAreAligned(hash: Hash, refs: seq<Ref>, ask: Ref -> Answers)
    ensures Aligned(refs, Outcomes(hash, refs, ask), ask)
  {
    forall i | 0 <= i < |refs| ensures AlignedAt(refs[i], ask(refs[i]), Outcomes(hash, refs, ask)[i]) {
      ResolveRefIsAligned(hash, refs[i], ask(refs[i]));
    }
  }

  /** A push is refused exactly when a ref cannot be resolved. */
  lemma RefusedWhenUnresolvable(hash: Hash, refs: seq<Ref>, ask: Ref -> Answers)
    ensures Plans(hash, refs, ask).Some? <==> forall i :: 0 <= i < |refs| ==> Resolvable(refs[i], ask(refs[i]))
  {
    OutcomesAreAligned(hash, refs, ask);
    CollectUnlessMalformed(Outcomes(hash, refs, ask));
  }

  /** The plans are those of the pushed refs, in order. */
  lemma PlansAreThePush(hash: Hash, refs: seq<Ref>, ask: Ref -> Answers)
    requires Plans(hash, refs, ask).Some?
    ensures RefsOf(Plans(hash, refs, ask).value) == Pushed(refs)
  {
    OutcomesAreAligned(hash, refs, ask);
    CollectIsThePush(refs, Outcomes(hash, refs, ask), ask);
  }

  lemma {:induction false} CollectIsThePush(refs: seq<Ref>, outcomes: seq<Outcome>, ask: Ref -> Answers)
    requires Aligned(refs, outcomes, ask) && Collect(outcomes).Some?
    ensures RefsOf(Collect(outcomes).value) == Pushed(refs)
    decreases |refs|
  {
    if refs != [] {
      var n := |refs| - 1;
      assert forall i :: 0 <= i < n ==> refs[..n][i] == refs[i] && outcomes[..n][i] == outcomes[i];
      CollectIsThePush(refs[..n], outcomes[..n], ask);
      if outcomes[n].Resolved? {
        RefsOfAppend(Collect(outcomes[..n]).value, outcomes[n].refPlan);
      }
    }
  }

  lemma RefsOfAppend(plans: seq<RefPlan>, p: RefPlan)
    ensures RefsOf(plans + [p]) == RefsOf(plans) + [p.ref]
  {}

  lemma {:induction false} GroupIsRefsTo(refs: seq<Ref>, outcomes: seq<Outcome>, ask: Ref -> Answers, tree: string)
    requires Aligned(refs, outcomes, ask) && Collect(outcomes).Some?
    ensures RefsOf(Group(Collect(outcomes).value, tree)) == RefsTo(refs, ask, tree)
    decreases |refs|
  {
    if refs != [] {
      var n := |refs| - 1;
      AlignedPrefix(refs, outcomes, ask);
      GroupIsRefsTo(refs[..n], outcomes[..n], ask, tree);
      assert AlignedAt(refs[n], ask(refs[n]), outcomes[n]);
      if outcomes[n].Resolved? {
        GroupAppend(Collect(outcomes[..n]).value, outcomes[n].refPlan, tree);
      }
    }
  }

  lemma AlignedPrefix(refs: seq<Ref>, outcomes: seq<Outcome>, ask: Ref -> Answers)
    requires refs != [] && Aligned(refs, outcomes, ask) && Collect(outcomes).Some?
    ensures var n := |refs| - 1;
      && Aligned(refs[..n], outcomes[..n], ask) && Collect(outcomes[..n]).Some?
      && Collect(outcomes).value ==
           Collect(outcomes[..n]).value + if outcomes[n].Resolved? then [outcomes[n].refPlan] else []
  {
    var n := |refs| - 1;
    assert forall i :: 0 <= i < n ==> refs[..n][i] == refs[i] && outcomes[..n][i] == outcomes[i];
  }

  lemma PlansAreSound(hash: Hash, refs: seq<Ref>, ask: Ref -> Answers)
    requires Plans(hash, refs, ask).Some?
    ensures forall p :: p in Plans(hash, refs, ask).value ==> Sound(hash, p)
  {
    var outcomes := Outcomes(hash, refs, ask);
    forall i | 0 <= i < |outcomes| && outcomes[i].Resolved? ensures Sound(hash, outcomes[i].refPlan) {
      var a := ask(refs[i]);
      AssessIsSound(hash, refs[i], a, a.commit.value, a.tree.value);
    }
    CollectKeeps(outcomes);
    forall p | p in Collect(outcomes).value ensures Sound(hash, p) {
      var i :| 0 <= i < |outcomes| && outcomes[i] == Resolved(p);
    }
  }

  lemma {:induction false} CollectKeeps(outcomes: seq<Outcome>)
    requires Collect(outcomes).Some?
    ensures forall p :: p in Collect(outcomes).value ==> exists i :: 0 <= i < |outcomes| && outcomes[i] == Resolved(p)
  {
    if outcomes != [] {
      var n := |outcomes| - 1;
      CollectKeeps(outcomes[..n]);
      forall p | p in Collect(outcomes).value ensures exists i :: 0 <= i < |outcomes| && outcomes[i] == Resolved(p) {
        if p in Collect(outcomes[..n]).value {
          var i :| 0 <= i < n && outcomes[..n][i] == Resolved(p);
          assert outcomes[i] == Resolved(p);
        } else {
          assert outcomes[n] == Resolved(p);
        }
      }
    }
  }

  predicate Covers(target: Target, p: RefPlan) {
    target.tree == p.tree && p.ref in target.refs && RankOf(target.scope) >= RankOf(p.scope)
  }

  /** Every pushed ref that is not a deletion is in a target of its tree that asks for no less than it needs. */
  lemma NoRefIsWeakened(hash: Hash, refs: seq<Ref>, ask: Ref -> Answers, targets: seq<Target>, i: nat)
    requires Plans(hash, refs, ask).Some? && Answer(targets, Plans(hash, refs, ask).value)
    requires i < |refs| && !Zero(refs[i].localOid)
    ensures ResolveRef(hash, refs[i], ask(refs[i])).Resolved?
    ensures exists k :: 0 <= k < |targets| && Covers(targets[k], ResolveRef(hash, refs[i], ask(refs[i])).refPlan)
  {
    CollectUnlessMalformed(Outcomes(hash, refs, ask));
    assert Outcomes(hash, refs, ask)[i] == ResolveRef(hash, refs[i], ask(refs[i]));
    ResolveRefIsAligned(hash, refs[i], ask(refs[i]));
    PlanIsCovered(targets, Plans(hash, refs, ask).value, ResolveRef(hash, refs[i], ask(refs[i])).refPlan);
  }

  lemma PlanIsCovered(targets: seq<Target>, plans: seq<RefPlan>, p: RefPlan)
    requires Answer(targets, plans) && p in plans
    ensures exists i :: 0 <= i < |targets| && Covers(targets[i], p)
  {
    OneTargetPerTree(targets, plans);
    var i :| 0 <= i < |targets| && TargetTrees(targets)[i] == p.tree;
    GroupMembers(plans, p.tree);
    var group := Group(plans, p.tree);
    assert Represents(targets[i], p.tree, group);
    var j :| 0 <= j < |group| && group[j] == p;
    assert targets[i].refs[j] == p.ref;
    assert Covers(targets[i], p);
  }

  predicate SpeaksFor(target: Target, p: RefPlan) {
    target.plan == p.plan && target.commit == p.commit && target.tree == p.tree && target.scope == p.scope
  }

  /** The ref a target speaks for is one of the pushed refs of its tree. */
  lemma Spokesman(targets: seq<Target>, plans: seq<RefPlan>, i: nat) returns (p: RefPlan)
    requires Answer(targets, plans) && i < |targets|
    ensures p in plans && p in targets[i].refPlans && SpeaksFor(targets[i], p)
  {
    var group := Group(plans, targets[i].tree);
    GroupMembers(plans, targets[i].tree);
    assert Represents(targets[i], targets[i].tree, group);
    var k: nat :| Leads(targets[i], group, k);
    p := group[k];
    assert p in group;
  }

  lemma ScopeIsHighest(targets: seq<Target>, plans: seq<RefPlan>, i: nat, p: RefPlan)
    requires Answer(targets, plans) && i < |targets| && p in plans && p.tree == targets[i].tree
    ensures RankOf(p.scope) <= RankOf(targets[i].scope)
  {
    var group := Group(plans, targets[i].tree);
    GroupMembers(plans, targets[i].tree);
    assert Represents(targets[i], targets[i].tree, group);
    assert p in group;
  }

  /**
    A target that needs only the documentation gate carries a bound plan for
    exactly its commit and tree, and no ref of its tree goes to a protected
    branch.
   */
  lemma DocsTargetIsBound(hash: Hash, refs: seq<Ref>, ask: Ref -> Answers, targets: seq<Target>, i: nat)
    requires Plans(hash, refs, ask).Some? && Answer(targets, Plans(hash, refs, ask).value)
    requires i < |targets| && targets[i].scope == Docs
    ensures exists p :: p in targets[i].refPlans && BoundDocsPlan(hash, p) && SpeaksFor(targets[i], p)
    ensures forall p :: p in Plans(hash, refs, ask).value && p.tree == targets[i].tree ==> !Protected(p.ref.remoteRef)
  {
    var plans := Plans(hash, refs, ask).value;
    PlansAreSound(hash, refs, ask);
    var spokesman := Spokesman(targets, plans, i);
    assert Sound(hash, spokesman);
    forall p | p in plans && p.tree == targets[i].tree ensures !Protected(p.ref.remoteRef) {
      ScopeIsHighest(targets, plans, i, p);
      assert Sound(hash, p);
    }
  }

  /** In whatever order refs are pushed, the same plans come of them, or the push is refused. */
  lemma OrderKeepsPlans(hash: Hash, refs: seq<Ref>, again: seq<Ref>, ask: Ref -> Answers)
    requires multiset(refs) == multiset(again)
    ensures Plans(hash, refs, ask).Some? ==> Plans(hash, again, ask).Some?
    ensures Plans(hash, refs, ask).Some? ==>
      forall p :: p in Plans(hash, refs, ask).value ==> p in Plans(hash, again, ask).value
  {
    var before, after := Outcomes(hash, refs, ask), Outcomes(hash, again, ask);
    CollectUnlessMalformed(before);
    CollectUnlessMalformed(after);
    if Plans(hash, refs, ask).Some? {
      forall k | 0 <= k < |after| ensures !after[k].Malformed? {
        var i := Elsewhere(again, refs, k);
        assert before[i] == after[k];
      }
      CollectKeeps(before);
      forall p | p in Plans(hash, refs, ask).value ensures p in Plans(hash, again, ask).value {
        var i :| 0 <= i < |before| && before[i] == Resolved(p);
        var k := Elsewhere(refs, again, i);
        assert after[k] == Resolved(p);
      }
    }
  }

  lemma Elsewhere(refs: seq<Ref>, again: seq<Ref>, i: nat) returns (k: nat)
    requires multiset(refs) == multiset(again) && i < |refs|
    ensures k < |again| && again[k] == refs[i]
  {
    assert refs[i] in multiset(again);
    k :| 0 <= k < |again| && again[k] == refs[i];
  }

  /** The required scope of a tree does not depend on the order in which refs are pushed. */
  lemma ScopeIgnoresOrder(hash: Hash, refs: seq<Ref>, again: seq<Ref>, ask: Ref -> Answers,
                          a: seq<Target>, b: seq<Target>, i: nat, j: nat)
    requires multiset(refs) == multiset(again) && Plans(hash, refs, ask).Some? && Plans(hash, again, ask).Some?
    requires Answer(a, Plans(hash, refs, ask).value) && Answer(b, Plans(hash, again, ask).value)
    requires i < |a| && j < |b| && a[i].tree == b[j].tree
    ensures a[i].scope == b[j].scope
  {
    OrderKeepsPlans(hash, refs, again, ask);
    OrderKeepsPlans(hash, again, refs, ask);
    var p := Spokesman(a, Plans(hash, refs, ask).value, i);
    var q := Spokesman(b, Plans(hash, again, ask).value, j);
    ScopeIsHighest(b, Plans(hash, again, ask).value, j, p);
    ScopeIsHighest(a, Plans(hash, refs, ask).value, i, q);
  }

  /**
    With the planner the push gate uses, a ref is gated by the documentation
    subset only when its base and its commit differ in documentation alone.
   */
  lemma DocsPushChangesOnlyDocs(repo: Repo, hash: Hash, ref: Ref, a: Answers)
    requires ResolveRef(hash, ref, a).Resolved? && ResolveRef(hash, ref, a).refPlan.scope == Docs
    requires a.planned == Create(repo, hash, a.commit.value, a.base, Event(Some("push"), Some(ref.remoteRef), None))
    requires a.base.Some? ==> DiffIsComplete(repo, a.base.value, a.commit.value)
    ensures var p := ResolveRef(hash, ref, a).refPlan;
      && p.base.Some? && p.base.value in repo.commits && repo.commits[p.base.value] in repo.trees
      && p.commit in repo.commits && repo.commits[p.commit] in repo.trees
      && OnlyDocsDiffer(repo.trees[repo.commits[p.base.value]], repo.trees[repo.commits[p.commit]])
  {
    AssessIsSound(hash, ref, a, a.commit.value, a.tree.value);
    DocsPlanChangesOnlyDocs(repo, hash, a.commit.value, a.base, Event(Some("push"), Some(ref.remoteRef), None));
  }
}
