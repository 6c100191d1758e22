/**
  Completion of a platform over full and partial CI reruns
  (`verifyCiAggregate` in scripts/ci-results.mjs): which proofs still count, and
  what they say together about the selected files.
 */
module CiAggregate {
  import opened Options
  import opened Text
  import opened Decimals
  import opened Json
  import opened JsonText
  import opened ChangeFacts
  import opened GateDiagnostics
  import opened CiResults

  datatype JobResult = Succeeded | Skipped | AnotherResult

  datatype Job = Job(result: JobResult, proof: Option<Proof>)

  /** What the aggregating job is given: the planner's output and the jobs of its workers. */
  datatype Needs = Needs(plannerOk: bool, route: Option<Json>, jobs: map<Worker, Job>)

  predicate Planned(route: Json, w: Worker)
    requires IsTest(w)
  {
    Field(route, "scope") == Some(TStr(ScopeText(ScopeOf(w))))
  }

  /** The proof is the expected one for this route, from an attempt that is not in the future. */
  predicate ProofOk(hash: Hash, route: Json, plan: Json, w: Worker, p: Proof, attempt: string)
    requires Positive(attempt)
  {
    && Positive(p.runAttempt) && Value(p.runAttempt) <= Value(attempt)
    && Fitting(route, plan, w, p.node, p.runAttempt)
    && p == ExpectedProof(hash, route, plan, w, p.node, p.runAttempt)
  }

  predicate JobOk(hash: Hash, route: Json, plan: Json, w: Worker, job: Job, attempt: string)
    requires IsTest(w) && Positive(attempt)
  {
    if Planned(route, w) then
      job.result == Succeeded && job.proof.Some? && ProofOk(hash, route, plan, w, job.proof.value, attempt)
    else job.result == Skipped && job.proof.None?
  }

  /** All test workers of the platform, and no others, have what the route asks of them. */
  predicate JobsOk(hash: Hash, route: Json, plan: Json, workers: seq<Worker>, jobs: map<Worker, Job>, attempt: string)
    requires Positive(attempt) && forall i :: 0 <= i < |workers| ==> IsTest(workers[i])
  {
    && (forall w :: w in jobs ==> w in workers)
    && (forall i :: 0 <= i < |workers| ==> WorkerOk(hash, route, plan, workers[i], jobs, attempt))
  }

  predicate WorkerOk(hash: Hash, route: Json, plan: Json, w: Worker, jobs: map<Worker, Job>, attempt: string)
    requires IsTest(w) && Positive(attempt)
  {
    w in jobs && JobOk(hash, route, plan, w, jobs[w], attempt)
  }

  predicate AggregateOk(hash: Hash, route: Json, plan: Json, platform: Platform, needs: Needs, attempt: string) {
    && !platform.AnotherPlatform? && InTime(route, attempt)
    && needs.plannerOk && needs.route.Some? && HashPlan(hash, needs.route.value) == HashPlan(hash, route)
    && WorkersAreTests(platform) && JobsOk(hash, route, plan, PlatformWorkers(platform), needs.jobs, attempt)
  }

  predicate WorkersAreTests(platform: Platform) {
    forall i :: 0 <= i < |PlatformWorkers(platform)| ==> IsTest(PlatformWorkers(platform)[i])
  }

  /** `verifyCiAggregate`, true when it does not throw. */
  method VerifyCiAggregate(hash: Hash, route: Json, plan: Json, platform: Platform, needs: Needs, attempt: string)
    returns (ok: bool)
    ensures ok <==> AggregateOk(hash, route, plan, platform, needs, attempt)
  {
    var workers := PlatformWorkers(platform);
    if platform.AnotherPlatform? || !InTime(route, attempt) { return false; }
    if !needs.plannerOk || needs.route.None? { return false; }
    if HashPlan(hash, needs.route.value) != HashPlan(hash, route) { return false; }
    ok := VerifyJobs(hash, route, plan, workers, needs.jobs, attempt);
  }

  /** The loop over the workers of the platform. */
  method VerifyJobs(hash: Hash, route: Json, plan: Json, workers: seq<Worker>, jobs: map<Worker, Job>, attempt: string)
    returns (ok: bool)
    requires Positive(attempt) && forall i :: 0 <= i < |workers| ==> IsTest(workers[i])
    ensures ok <==> JobsOk(hash, route, plan, workers, jobs, attempt)
  {
    if !(forall w :: w in jobs ==> w in workers) { return false; }
    ok := VerifyEach(workers, w => IsTest(w) && WorkerOk(hash, route, plan, w, jobs, attempt));
  }

  method VerifyEach(workers: seq<Worker>, holds: Worker -> bool) returns (ok: bool)
    ensures ok <==> forall i :: 0 <= i < |workers| ==> holds(workers[i])
  {
    for i := 0 to |workers|
      invariant forall j :: 0 <= j < i ==> holds(workers[j])
    {
      if !holds(workers[i]) { return false; }
    }
    return true;
  }

  /** Every counted proof lies between the planner's attempt and the current one, and names the planner's route. */
  lemma AcceptedProofsAreCurrent(hash: Hash, route: Json, plan: Json, platform: Platform, needs: Needs, attempt: string,
                                 w: Worker)
    requires AggregateOk(hash, route, plan, platform, needs, attempt)
    requires IsTest(w) && PlatformOf(w) == platform && Planned(route, w)
    ensures w in needs.jobs && needs.jobs[w].proof.Some?
    ensures var p := needs.jobs[w].proof.value;
      && Positive(p.runAttempt) && Value(RouteAttempt(route).value) <= Value(p.runAttempt) <= Value(attempt)
      && p.routeDigest == HashPlan(hash, route) && p.worker == w
  {
    PlatformWorkersAreTheTests(platform, w);
    var i :| 0 <= i < |PlatformWorkers(platform)| && PlatformWorkers(platform)[i] == w;
  }

  // ---------- Attempts ----------

  function DecimalDigit(n: nat): char
    requires n < 10
  {
    "0123456789"[n]
  }

  function Decimal(n: nat): string {
    if n < 10 then [DecimalDigit(n)] else Decimal(n / 10) + [DecimalDigit(n % 10)]
  }

  lemma {:induction false} DecimalReads(n: nat)
    ensures AllDigits(Decimal(n)) && Value(Decimal(n)) == n
    ensures n > 0 ==> Positive(Decimal(n))
  {
    if n < 10 {
      assert Decimal(n)[..0] == [];
    } else {
      DecimalReads(n / 10);
      var s := Decimal(n);
      assert s[..|s| - 1] == Decimal(n / 10);
    }
  }

  /** The planner's output by the attempt it ran in: each names its own attempt, and all have one scope. */
  ghost predicate AreRoutes(routes: nat -> Json) {
    forall k: nat :: k > 0 ==> IsRoute(routes(k), k, Field(routes(1), "scope"))
  }

  predicate IsRoute(route: Json, k: nat, scope: Option<Tree>) {
    Valid(route) && Text1(Field(route, "runAttempt")) == Some(Decimal(k)) && Field(route, "scope") == scope
  }

  lemma RoutesDiffer(hash: Hash, routes: nat -> Json, i: nat, j: nat)
    requires CollisionFree(hash) && AreRoutes(routes) && i > 0 && j > 0
    requires HashPlan(hash, routes(i)) == HashPlan(hash, routes(j))
    ensures i == j
  {
    assert IsRoute(routes(i), i, Field(routes(1), "scope")) && IsRoute(routes(j), j, Field(routes(1), "scope"));
    DigestIsFaithful(hash, routes(i), routes(j));
    DecimalReads(i);
    DecimalReads(j);
  }

  // ---------- Reruns ----------

  /** When a worker ran last, and under which attempt's plan. */
  datatype Ran = Ran(at: nat, under: nat)

  /** A workflow after some attempts: `planned` is the attempt of the planner's last run, which may have failed. */
  datatype Flow = Flow(attempt: nat, planned: nat, plannerOk: bool, jobs: map<Worker, Job>, ran: map<Worker, Ran>)

  datatype PlannerRun = Kept | Renewed | Broken

  /**
    One more attempt: whether the planner runs again and with success, which
    workers are skipped, and how those that run end, with their Node version on
    success.
   */
  datatype Rerun = Rerun(planner: PlannerRun, skipped: set<Worker>, ended: map<Worker, Option<string>>)

  function Start(): Flow {
    Flow(0, 0, false, map w | w in ALL :: Job(Skipped, None), map[])
  }

  const ALL: set<Worker> := {FullLinux, FullMacos, FullWindows1, FullWindows2, DocsLinux, DocsMacos, DocsWindows}

  function NextPlanned(f: Flow, r: Rerun): nat {
    if r.planner.Kept? then f.planned else f.attempt + 1
  }

  function NextOk(f: Flow, r: Rerun): bool {
    match r.planner case Kept => f.plannerOk case Renewed => true case Broken => false
  }

  /**
    The proof a worker earns by the attempt of the plan it runs under, itself, its
    Node version and the attempt it runs in; none when it cannot earn one.
   */
  type Issue = (nat, Worker, string, nat) -> Option<Proof>

  /** Workers run only after a planner that succeeded, and succeed only by earning their proof under its route. */
  predicate Legal(issue: Issue, f: Flow, r: Rerun) {
    && NextPlanned(f, r) > 0 && r.skipped <= ALL && (r.ended.Keys != {} ==> NextOk(f, r))
    && forall w :: w in r.ended ==> w in ALL && MayEnd(issue, f, r, w, r.ended[w])
  }

  predicate MayEnd(issue: Issue, f: Flow, r: Rerun, w: Worker, node: Option<string>) {
    node.Some? ==> issue(NextPlanned(f, r), w, node.value, f.attempt + 1).Some?
  }

  function EndedJob(issue: Issue, f: Flow, r: Rerun, w: Worker, node: Option<string>): Job {
    if node.Some? then Job(Succeeded, issue(NextPlanned(f, r), w, node.value, f.attempt + 1))
    else Job(AnotherResult, None)
  }

  function Step(issue: Issue, f: Flow, r: Rerun): Flow
    requires Legal(issue, f, r)
  {
    Flow(f.attempt + 1, NextPlanned(f, r), NextOk(f, r),
         f.jobs + (map w | w in r.skipped :: Job(Skipped, None))
           + map w | w in r.ended :: EndedJob(issue, f, r, w, r.ended[w]),
         f.ran + map w | w in r.ended :: Ran(f.attempt + 1, NextPlanned(f, r)))
  }

  predicate CanRun(issue: Issue, reruns: seq<Rerun>)
    decreases |reruns|, 0
  {
    reruns == [] ||
    var n := |reruns| - 1;
    CanRun(issue, reruns[..n]) && Legal(issue, After(issue, reruns[..n]), reruns[n])
  }

  /** The workflow after a history of attempts. */
  function After(issue: Issue, reruns: seq<Rerun>): Flow
    requires CanRun(issue, reruns)
    decreases |reruns|, 1
  {
    if reruns == [] then Start() else Step(issue, After(issue, reruns[..|reruns| - 1]), reruns[|reruns| - 1])
  }

  /** A kept proof is the one its worker earned, under the plan of its time. */
  predicate Earned(issue: Issue, f: Flow, w: Worker)
    requires w in f.jobs
  {
    var job := f.jobs[w];
    if job.proof.None? then job.result != Succeeded
    else
      && w in f.ran && f.ran[w].under > 0 && f.ran[w].at > 0 && job.result == Succeeded
      && IssuedFor(issue, f.ran[w], w, job.proof.value)
  }

  predicate IssuedFor(issue: Issue, ran: Ran, w: Worker, p: Proof) {
    issue(ran.under, w, p.node, ran.at) == Some(p)
  }

  /** An issued proof names the Node version it was issued for. */
  ghost predicate NamesNode(issue: Issue) {
    forall k, w, node, a :: issue(k, w, node, a).Some? ==> issue(k, w, node, a).value.node == node
  }

  /** A worker ran under the current plan exactly when it ran no earlier than the planner. */
  predicate InOrder(f: Flow, w: Worker)
    requires w in f.ran
  {
    && f.ran[w].at <= f.attempt && f.ran[w].under <= f.planned
    && (f.ran[w].under == f.planned <==> f.ran[w].at >= f.planned)
  }

  ghost predicate Traced(issue: Issue, f: Flow) {
    && f.planned <= f.attempt && f.jobs.Keys == ALL
    && (forall w :: w in f.ran ==> InOrder(f, w))
    && (forall w :: w in f.jobs ==> Earned(issue, f, w))
  }

  lemma JobAfter(issue: Issue, f: Flow, r: Rerun, w: Worker)
    requires f.jobs.Keys == ALL && Legal(issue, f, r) && w in ALL
    ensures Step(issue, f, r).jobs.Keys == ALL
    ensures Step(issue, f, r).jobs[w] ==
      if w in r.ended then EndedJob(issue, f, r, w, r.ended[w])
      else if w in r.skipped then Job(Skipped, None) else f.jobs[w]
  {
    assert forall v :: v in r.ended ==> v in ALL;
    assert Step(issue, f, r).jobs.Keys == ALL;
  }

  lemma StepKeepsEarned(issue: Issue, f: Flow, r: Rerun, w: Worker)
    requires NamesNode(issue) && f.jobs.Keys == ALL && Legal(issue, f, r) && w in ALL && Earned(issue, f, w)
    ensures w in Step(issue, f, r).jobs && Earned(issue, Step(issue, f, r), w)
  {
    JobAfter(issue, f, r, w);
    if w in r.ended {
      assert MayEnd(issue, f, r, w, r.ended[w]);
    }
  }

  lemma StepKeepsTrace(issue: Issue, f: Flow, r: Rerun)
    requires NamesNode(issue) && Traced(issue, f) && Legal(issue, f, r)
    ensures Traced(issue, Step(issue, f, r))
  {
    var next := Step(issue, f, r);
    JobAfter(issue, f, r, FullLinux);
    forall w | w in next.jobs ensures Earned(issue, next, w) {
      StepKeepsEarned(issue, f, r, w);
    }
    forall w | w in next.ran ensures InOrder(next, w) {
      if w !in r.ended {
        assert InOrder(f, w);
      }
    }
  }

  lemma {:induction false} HistoryIsTraced(issue: Issue, reruns: seq<Rerun>)
    requires NamesNode(issue) && CanRun(issue, reruns)
    ensures Traced(issue, After(issue, reruns)) && After(issue, reruns).attempt == |reruns|
  {
    if reruns != [] {
      HistoryIsTraced(issue, reruns[..|reruns| - 1]);
      StepKeepsTrace(issue, After(issue, reruns[..|reruns| - 1]), reruns[|reruns| - 1]);
    }
  }
}
