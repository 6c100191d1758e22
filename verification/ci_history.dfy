/**
  What an accepted aggregate says about the past
  (scripts/ci-results.mjs, scripts/ci-plan.mjs): whose proofs still count after
  reruns, and that every selected file succeeded in exactly one worker.
 */
module CiHistory {
  import opened Options
  import opened Text
  import opened Decimals
  import opened Json
  import opened JsonText
  import opened ChangeFacts
  import opened Shards
  import opened GateDiagnostics
  import opened CiResults
  import opened CiAggregate
  import CiAgreement
  import PlanCheck

  // ---------- Reruns ----------

  /** The proof the manifest checker issues under the plan of attempt `k` in attempt `a`. */
  function IssueAt(hash: Hash, routes: nat -> Json, plan: Json, k: nat, w: Worker, node: string,
                   a: nat): Option<Proof> {
    if Fitting(routes(k), plan, w, node, Decimal(a))
    then Some(ExpectedProof(hash, routes(k), plan, w, node, Decimal(a))) else None
  }

  ghost predicate IsIssuer(hash: Hash, routes: nat -> Json, plan: Json, issue: Issue) {
    forall k, w, node, a :: issue(k, w, node, a) == IssueAt(hash, routes, plan, k, w, node, a)
  }

  lemma IssuerNamesNode(hash: Hash, routes: nat -> Json, plan: Json, issue: Issue)
    requires IsIssuer(hash, routes, plan, issue)
    ensures NamesNode(issue)
  {}

  lemma IssuedProof(hash: Hash, routes: nat -> Json, plan: Json, k: nat, w: Worker, node: string, a: nat, p: Proof)
    requires IssueAt(hash, routes, plan, k, w, node, a) == Some(p)
    ensures p.routeDigest == HashPlan(hash, routes(k)) && p.runAttempt == Decimal(a) && p.node == node
  {}

  /** A worker's job satisfies the aggregate: skipped when not planned, else run no earlier than the planner. */
  predicate Current(f: Flow, route: Json, w: Worker)
    requires IsTest(w) && w in f.jobs
  {
    if Planned(route, w) then f.jobs[w].result == Succeeded && w in f.ran && f.ran[w].at >= f.planned
    else f.jobs[w] == Job(Skipped, None)
  }

  predicate AllCurrent(f: Flow, route: Json, platform: Platform)
    requires f.jobs.Keys == ALL
  {
    forall w :: w in ALL && IsTest(w) && PlatformOf(w) == platform ==> Current(f, route, w)
  }

  lemma CurrentProofCounts(hash: Hash, routes: nat -> Json, plan: Json, issue: Issue, f: Flow, w: Worker)
    requires AreRoutes(routes) && IsIssuer(hash, routes, plan, issue) && Traced(issue, f)
    requires w in f.jobs && f.jobs[w].proof.Some? && f.planned > 0 && w in f.ran && f.ran[w].at >= f.planned
    ensures Positive(Decimal(f.attempt))
    ensures ProofOk(hash, routes(f.planned), plan, w, f.jobs[w].proof.value, Decimal(f.attempt))
  {
    assert Earned(issue, f, w) && InOrder(f, w);
    var p := f.jobs[w].proof.value;
    assert IssueAt(hash, routes, plan, f.planned, w, p.node, f.ran[w].at) == Some(p);
    IssuedProof(hash, routes, plan, f.planned, w, p.node, f.ran[w].at, p);
    DecimalReads(f.ran[w].at);
    DecimalReads(f.attempt);
  }

  lemma CountedProofIsCurrent(hash: Hash, routes: nat -> Json, plan: Json, issue: Issue, f: Flow, w: Worker)
    requires CollisionFree(hash) && AreRoutes(routes) && IsIssuer(hash, routes, plan, issue) && Traced(issue, f)
    requires w in f.jobs && f.jobs[w].proof.Some? && f.planned > 0
    requires f.jobs[w].proof.value.routeDigest == HashPlan(hash, routes(f.planned))
    ensures w in f.ran && f.ran[w].at >= f.planned
  {
    assert Earned(issue, f, w) && InOrder(f, w);
    var p := f.jobs[w].proof.value;
    IssuedProof(hash, routes, plan, f.ran[w].under, w, p.node, f.ran[w].at, p);
    RoutesDiffer(hash, routes, f.ran[w].under, f.planned);
  }

  lemma JobCountsWhenCurrent(hash: Hash, routes: nat -> Json, plan: Json, issue: Issue, f: Flow, w: Worker)
    requires CollisionFree(hash) && AreRoutes(routes) && IsIssuer(hash, routes, plan, issue) && Traced(issue, f)
    requires w in f.jobs && IsTest(w) && f.planned > 0
    ensures Positive(Decimal(f.attempt))
    ensures JobOk(hash, routes(f.planned), plan, w, f.jobs[w], Decimal(f.attempt)) <==> Current(f, routes(f.planned), w)
  {
    DecimalReads(f.attempt);
    assert Earned(issue, f, w);
    if f.jobs[w].proof.Some? {
      ProofCountsWhenCurrent(hash, routes, plan, issue, f, w);
    }
    JobByProof(hash, routes(f.planned), plan, w, f.jobs[w], Decimal(f.attempt), w in f.ran && f.ran[w].at >= f.planned);
  }

  lemma JobByProof(hash: Hash, route: Json, plan: Json, w: Worker, job: Job, attempt: string, counts: bool)
    requires IsTest(w) && Positive(attempt) && (job.proof.Some? <==> job.result == Succeeded)
    requires job.proof.Some? ==> (ProofOk(hash, route, plan, w, job.proof.value, attempt) <==> counts)
    ensures JobOk(hash, route, plan, w, job, attempt) <==>
      if Planned(route, w) then job.result == Succeeded && counts else job == Job(Skipped, None)
  {}

  lemma ProofCountsWhenCurrent(hash: Hash, routes: nat -> Json, plan: Json, issue: Issue, f: Flow, w: Worker)
    requires CollisionFree(hash) && AreRoutes(routes) && IsIssuer(hash, routes, plan, issue) && Traced(issue, f)
    requires w in f.jobs && f.jobs[w].proof.Some? && f.planned > 0 && Positive(Decimal(f.attempt))
    ensures ProofOk(hash, routes(f.planned), plan, w, f.jobs[w].proof.value, Decimal(f.attempt)) <==>
      w in f.ran && f.ran[w].at >= f.planned
  {
    if w in f.ran && f.ran[w].at >= f.planned {
      CurrentProofCounts(hash, routes, plan, issue, f, w);
    } else if f.jobs[w].proof.value.routeDigest == HashPlan(hash, routes(f.planned)) {
      CountedProofIsCurrent(hash, routes, plan, issue, f, w);
    }
  }

  /** The jobs the aggregate of a platform is given. */
  function NeedsOf(routes: nat -> Json, f: Flow, platform: Platform): Needs
    requires f.jobs.Keys == ALL
  {
    Needs(f.plannerOk, if f.plannerOk then Some(routes(f.planned)) else None,
          map w | w in f.jobs && PlatformOf(w) == platform :: f.jobs[w])
  }

  lemma PlatformJobs(platform: Platform, w: Worker)
    requires !platform.AnotherPlatform?
    ensures w in PlatformWorkers(platform) <==> w in ALL && PlatformOf(w) == platform
    ensures w in ALL <==> IsTest(w)
  {
    PlatformWorkersAreTheTests(platform, w);
  }

  /**
    Over every history of full and partial reruns: the aggregate of a platform is
    accepted exactly when the planner's last run succeeded, each of its planned
    workers succeeded in an attempt no earlier than that run, and its other test
    workers were skipped.
   */
  lemma AcceptedExactlyWhenCurrent(hash: Hash, routes: nat -> Json, plan: Json, issue: Issue, reruns: seq<Rerun>,
                                   platform: Platform)
    requires CollisionFree(hash) && AreRoutes(routes) && IsIssuer(hash, routes, plan, issue)
    requires CanRun(issue, reruns) && After(issue, reruns).planned > 0 && !platform.AnotherPlatform?
    ensures var f := After(issue, reruns);
      && f.jobs.Keys == ALL
      && (AggregateOk(hash, routes(f.planned), plan, platform, NeedsOf(routes, f, platform), Decimal(f.attempt)) <==>
            f.plannerOk && AllCurrent(f, routes(f.planned), platform))
  {
    IssuerNamesNode(hash, routes, plan, issue);
    HistoryIsTraced(issue, reruns);
    var f := After(issue, reruns);
    AggregateIsCurrent(hash, routes, plan, issue, f, platform);
  }

  lemma RouteIsInTime(routes: nat -> Json, f: Flow)
    requires AreRoutes(routes) && 0 < f.planned <= f.attempt
    ensures InTime(routes(f.planned), Decimal(f.attempt))
  {
    DecimalReads(f.planned);
    DecimalReads(f.attempt);
    assert IsRoute(routes(f.planned), f.planned, Field(routes(1), "scope"));
  }

  lemma AggregateIsCurrent(hash: Hash, routes: nat -> Json, plan: Json, issue: Issue, f: Flow, platform: Platform)
    requires CollisionFree(hash) && AreRoutes(routes) && IsIssuer(hash, routes, plan, issue)
    requires Traced(issue, f) && f.planned > 0 && !platform.AnotherPlatform?
    ensures AggregateOk(hash, routes(f.planned), plan, platform, NeedsOf(routes, f, platform), Decimal(f.attempt)) <==>
      f.plannerOk && AllCurrent(f, routes(f.planned), platform)
  {
    RouteIsInTime(routes, f);
    WorkersTested(platform);
    DecimalReads(f.attempt);
    JobsAreCurrent(hash, routes, plan, issue, f, platform);
  }

  lemma WorkersTested(platform: Platform)
    ensures WorkersAreTests(platform)
  {}

  lemma JobsAreCurrent(hash: Hash, routes: nat -> Json, plan: Json, issue: Issue, f: Flow, platform: Platform)
    requires CollisionFree(hash) && AreRoutes(routes) && IsIssuer(hash, routes, plan, issue)
    requires Traced(issue, f) && f.planned > 0 && !platform.AnotherPlatform?
    requires Positive(Decimal(f.attempt)) && WorkersAreTests(platform)
    ensures var jobs, attempt := NeedsOf(routes, f, platform).jobs, Decimal(f.attempt);
      JobsOk(hash, routes(f.planned), plan, PlatformWorkers(platform), jobs, attempt) <==>
        AllCurrent(f, routes(f.planned), platform)
  {
    var route, jobs, attempt := routes(f.planned), NeedsOf(routes, f, platform).jobs, Decimal(f.attempt);
    forall w ensures w in jobs <==> w in PlatformWorkers(platform) {
      PlatformJobs(platform, w);
    }
    JobsByMember(hash, route, plan, PlatformWorkers(platform), jobs, attempt);
    forall w | w in ALL && IsTest(w) && PlatformOf(w) == platform
      ensures w in jobs && (JobOk(hash, route, plan, w, jobs[w], attempt) <==> Current(f, route, w))
    {
      JobCountsWhenCurrent(hash, routes, plan, issue, f, w);
    }
  }

  lemma JobsByMember(hash: Hash, route: Json, plan: Json, workers: seq<Worker>, jobs: map<Worker, Job>, attempt: string)
    requires Positive(attempt) && forall i :: 0 <= i < |workers| ==> IsTest(workers[i])
    requires forall w :: w in jobs <==> w in workers
    ensures JobsOk(hash, route, plan, workers, jobs, attempt) <==>
      forall w :: w in jobs && IsTest(w) ==> JobOk(hash, route, plan, w, jobs[w], attempt)
  {
    if JobsOk(hash, route, plan, workers, jobs, attempt) {
      forall w | w in jobs && IsTest(w) ensures JobOk(hash, route, plan, w, jobs[w], attempt) {
        var i :| 0 <= i < |workers| && workers[i] == w;
        assert WorkerOk(hash, route, plan, workers[i], jobs, attempt);
      }
    }
  }

  /** The aggregate of a platform after a history. */
  ghost predicate Accepted(hash: Hash, routes: nat -> Json, plan: Json, f: Flow, platform: Platform) {
    f.jobs.Keys == ALL
    && AggregateOk(hash, routes(f.planned), plan, platform, NeedsOf(routes, f, platform), Decimal(f.attempt))
  }

  /**
    Rerunning the planner revokes every earlier proof: a planned worker that does
    not run again is missing, and after a planner run that failed nothing is
    accepted at all.
   */
  lemma PlannerRerunRevokes(hash: Hash, routes: nat -> Json, plan: Json, issue: Issue, f: Flow, r: Rerun, w: Worker)
    requires CollisionFree(hash) && AreRoutes(routes) && IsIssuer(hash, routes, plan, issue)
    requires Traced(issue, f) && Legal(issue, f, r) && !r.planner.Kept?
    requires w in ALL && IsTest(w) && (r.planner.Broken? || (w !in r.ended && Planned(routes(f.attempt + 1), w)))
    ensures !Accepted(hash, routes, plan, Step(issue, f, r), PlatformOf(w))
  {
    IssuerNamesNode(hash, routes, plan, issue);
    Revoked(issue, f, r, routes(f.attempt + 1), w);
    NotCurrentNotAccepted(hash, routes, plan, issue, Step(issue, f, r), f.attempt + 1, w);
  }

  lemma NotCurrentNotAccepted(hash: Hash, routes: nat -> Json, plan: Json, issue: Issue, f: Flow, k: nat, w: Worker)
    requires CollisionFree(hash) && AreRoutes(routes) && IsIssuer(hash, routes, plan, issue)
    requires Traced(issue, f) && f.planned == k > 0 && w in ALL && IsTest(w)
    requires f.plannerOk ==> !Current(f, routes(k), w)
    ensures !Accepted(hash, routes, plan, f, PlatformOf(w))
  {
    AggregateIsCurrent(hash, routes, plan, issue, f, PlatformOf(w));
  }

  lemma Revoked(issue: Issue, f: Flow, r: Rerun, route: Json, w: Worker)
    requires NamesNode(issue) && Traced(issue, f) && Legal(issue, f, r) && !r.planner.Kept?
    requires w in ALL && IsTest(w) && (r.planner.Broken? || (w !in r.ended && Planned(route, w)))
    ensures var next := Step(issue, f, r);
      && Traced(issue, next) && next.planned == f.attempt + 1 && w in next.jobs
      && (next.plannerOk ==> !Current(next, route, w))
  {
    StepKeepsTrace(issue, f, r);
    JobAfter(issue, f, r, w);
    if r.planner.Renewed? {
      LeftBehind(issue, f, r, route, w);
    }
  }

  lemma LeftBehind(issue: Issue, f: Flow, r: Rerun, route: Json, w: Worker)
    requires Traced(issue, f) && Legal(issue, f, r) && !r.planner.Kept?
    requires w in ALL && IsTest(w) && w !in r.ended && Planned(route, w)
    ensures w in Step(issue, f, r).jobs && !Current(Step(issue, f, r), route, w)
  {
    JobAfter(issue, f, r, w);
    assert w in f.ran ==> InOrder(f, w);
  }

  /** Rerunning only workers, with success, keeps an accepted platform accepted. */
  lemma WorkerRerunKeeps(hash: Hash, routes: nat -> Json, plan: Json, issue: Issue, f: Flow, r: Rerun,
                         platform: Platform)
    requires CollisionFree(hash) && AreRoutes(routes) && IsIssuer(hash, routes, plan, issue)
    requires Traced(issue, f) && f.planned > 0 && Legal(issue, f, r) && r.planner.Kept? && !platform.AnotherPlatform?
    requires forall w :: w in r.ended ==> r.ended[w].Some? && IsTest(w) && Planned(routes(f.planned), w)
    requires forall w :: w in r.skipped && IsTest(w) ==> !Planned(routes(f.planned), w)
    requires Accepted(hash, routes, plan, f, platform)
    ensures Accepted(hash, routes, plan, Step(issue, f, r), platform)
  {
    IssuerNamesNode(hash, routes, plan, issue);
    StepKeepsTrace(issue, f, r);
    var next := Step(issue, f, r);
    AggregateIsCurrent(hash, routes, plan, issue, f, platform);
    AggregateIsCurrent(hash, routes, plan, issue, next, platform);
    forall w | w in ALL && IsTest(w) && PlatformOf(w) == platform ensures Current(next, routes(next.planned), w) {
      StaysCurrent(issue, f, r, routes(f.planned), w);
    }
  }

  lemma StaysCurrent(issue: Issue, f: Flow, r: Rerun, route: Json, w: Worker)
    requires Traced(issue, f) && Legal(issue, f, r) && r.planner.Kept? && w in ALL && IsTest(w) && Current(f, route, w)
    requires w in r.ended ==> r.ended[w].Some? && Planned(route, w)
    requires w in r.skipped ==> !Planned(route, w)
    ensures w in Step(issue, f, r).jobs && Current(Step(issue, f, r), route, w)
  {
    JobAfter(issue, f, r, w);
  }

  // ---------- Files ----------

  /** The proof was issued by the manifest checker for this manifest. */
  ghost predicate Issued(hash: Hash, m: Manifest, p: Proof) {
    exists route, plan, w, node, attempt :: IssuedBy(hash, m, p, route, plan, w, node, attempt)
  }

  predicate IssuedBy(hash: Hash, m: Manifest, p: Proof, route: Json, plan: Json, w: Worker, node: string,
                     attempt: string) {
    Earns(m, route, plan, w, node, attempt) && p == ExpectedProof(hash, route, plan, w, node, attempt)
  }

  /** The files with a successful record in a manifest. */
  predicate SucceededIn(m: Manifest, x: string) {
    exists i :: 0 <= i < |m.files| && m.files[i].file == x && m.files[i].success
  }

  /** A counted proof speaks for a manifest that holds exactly the files of its worker, all successful. */
  lemma CountedManifest(hash: Hash, route: Json, plan: Json, w: Worker, p: Proof, attempt: string, m: Manifest)
    requires CollisionFree(hash) && Positive(attempt) && ProofOk(hash, route, plan, w, p, attempt) && Issued(hash, m, p)
    ensures IsTest(w) && Selected(plan).Some? && ShardFiles(Selected(plan).value, ShardOf(w)).Some?
    ensures forall x :: SucceededIn(m, x) <==> x in FilesOf(plan, w)
  {
    var route', plan', w', node, attempt' :| IssuedBy(hash, m, p, route', plan', w', node, attempt');
    PlanCheck.DigestFixesList(hash, FilesOf(plan, w), FilesOf(plan', w'));
    ManifestFiles(FilesOf(plan, w), m);
  }

  lemma ManifestFiles(files: seq<string>, m: Manifest)
    requires FilesOk(files, m)
    ensures forall x :: SucceededIn(m, x) <==> x in files
  {
    SortSorts(ByText, Names(m.files));
    SameMembers(files, Names(m.files));
    forall x | x in files ensures SucceededIn(m, x) {
      var i :| 0 <= i < |Names(m.files)| && Names(m.files)[i] == x;
      assert m.files[i].file == x;
    }
    forall x | SucceededIn(m, x) ensures x in files {
      var i :| 0 <= i < |m.files| && m.files[i].file == x && m.files[i].success;
      assert Names(m.files)[i] == x;
    }
  }

  /** Of the workers of one platform that a scope plans, exactly one is given the file. */
  lemma OneWorkerPerFile(files: seq<string>, platform: Platform, scope: Scope, x: string)
    requires NoRepeats(files) && x in files && !platform.AnotherPlatform?
    ensures exists w :: Gets(files, platform, scope, w, x)
    ensures forall v, w :: Gets(files, platform, scope, v, x) && Gets(files, platform, scope, w, x) ==> v == w
  {
    ExactlyOneShard(files, 2, x);
    var part :| PickedBy(files, 2, x, part);
    var home := HomeOf(platform, scope, part);
    assert Gets(files, platform, scope, home, x);
    forall w | Gets(files, platform, scope, w, x) ensures w == home {
      if ShardOf(w).Some? {
        assert PickedBy(files, 2, x, ShardOf(w).value.part);
      }
    }
  }

  function HomeOf(platform: Platform, scope: Scope, part: int): Worker {
    match platform
    case Linux => if scope == DocsScope then DocsLinux else FullLinux
    case Darwin => if scope == DocsScope then DocsMacos else FullMacos
    case _ => if scope == DocsScope then DocsWindows else if part == 1 then FullWindows1 else FullWindows2
  }

  predicate Gets(files: seq<string>, platform: Platform, scope: Scope, w: Worker, x: string) {
    && IsTest(w) && PlatformOf(w) == platform && ScopeOf(w) == scope
    && if ShardOf(w).None? then x in files else x in Pick(files, ShardOf(w).value)
  }

  /**
    An accepted aggregate whose proofs were issued by the manifest checker: every
    selected file succeeded in exactly one of the platform's planned workers.
   */
  lemma EveryFileSucceededOnce(hash: Hash, route: Json, plan: Json, platform: Platform, needs: Needs, attempt: string,
                               scope: Scope, manifests: map<Worker, Manifest>, x: string)
    requires CollisionFree(hash) && AggregateOk(hash, route, plan, platform, needs, attempt)
    requires Field(route, "scope") == Some(TStr(ScopeText(scope)))
    requires forall w :: w in needs.jobs && needs.jobs[w].proof.Some? ==>
      w in manifests && Issued(hash, manifests[w], needs.jobs[w].proof.value)
    requires Selected(plan).Some? && x in Selected(plan).value
    ensures exists w :: RanIn(manifests, platform, scope, w, x)
    ensures forall v, w :: RanIn(manifests, platform, scope, v, x) && RanIn(manifests, platform, scope, w, x) ==> v == w
  {
    var files := Selected(plan).value;
    CiAgreement.SelectedIsStrict(plan);
    StrictHasNoRepeats(ByText, files);
    OneWorkerPerFile(files, platform, scope, x);
    forall w | IsTest(w) && PlatformOf(w) == platform && ScopeOf(w) == scope
      ensures w in manifests && (SucceededIn(manifests[w], x) <==> Gets(files, platform, scope, w, x))
    {
      CountedJob(hash, route, plan, platform, needs, attempt, w);
      CountedFiles(hash, route, plan, w, needs.jobs[w].proof.value, attempt, manifests[w], files, x);
    }
    var w :| Gets(files, platform, scope, w, x);
    assert RanIn(manifests, platform, scope, w, x);
  }

  lemma CountedFiles(hash: Hash, route: Json, plan: Json, w: Worker, p: Proof, attempt: string, m: Manifest,
                     files: seq<string>, x: string)
    requires CollisionFree(hash) && Positive(attempt) && ProofOk(hash, route, plan, w, p, attempt) && Issued(hash, m, p)
    requires Selected(plan) == Some(files)
    ensures IsTest(w) && (SucceededIn(m, x) <==> Gets(files, PlatformOf(w), ScopeOf(w), w, x))
  {
    CountedManifest(hash, route, plan, w, p, attempt, m);
    GetsItsFiles(files, w, FilesOf(plan, w), x);
  }

  lemma GetsItsFiles(files: seq<string>, w: Worker, mine: seq<string>, x: string)
    requires IsTest(w) && ShardFiles(files, ShardOf(w)) == Some(mine)
    ensures x in mine <==> Gets(files, PlatformOf(w), ScopeOf(w), w, x)
  {}

  lemma CountedJob(hash: Hash, route: Json, plan: Json, platform: Platform, needs: Needs, attempt: string, w: Worker)
    requires AggregateOk(hash, route, plan, platform, needs, attempt)
    requires IsTest(w) && PlatformOf(w) == platform && Planned(route, w)
    ensures Positive(attempt) && w in needs.jobs && needs.jobs[w].proof.Some?
    ensures ProofOk(hash, route, plan, w, needs.jobs[w].proof.value, attempt)
  {
    PlatformWorkersAreTheTests(platform, w);
    var i :| 0 <= i < |PlatformWorkers(platform)| && PlatformWorkers(platform)[i] == w;
  }

  /** The file succeeded in this worker, one of those the scope plans on the platform. */
  predicate RanIn(manifests: map<Worker, Manifest>, platform: Platform, scope: Scope, w: Worker, x: string) {
    IsTest(w) && PlatformOf(w) == platform && ScopeOf(w) == scope && w in manifests && SucceededIn(manifests[w], x)
  }
}
