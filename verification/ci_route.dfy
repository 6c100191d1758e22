/**
  Routes across reruns (`verifyCiRoute` in scripts/ci-plan.mjs): a route from an
  earlier planner run is taken again when it is, but for its attempt, the route
  this execution would make.
 */
module CiRoute {
  import opened Options
  import opened Text
  import opened Decimals
  import opened Json
  import opened JsonText
  import opened ChangeFacts
  import opened CiResults
  import CiAggregate

  const ATTEMPT := "runAttempt"

  /** `{ ...value, runAttempt }`: the member changes where it is, or comes last. */
  function WithAttempt(v: Json, attempt: string): Json
    requires v.Obj?
  {
    var member := Member(ATTEMPT, Str(attempt));
    if ATTEMPT in Keys(v.members) then Obj(v.members[Index(v.members, ATTEMPT) := member])
    else Obj(v.members + [member])
  }

  /**
    `verifyCiRoute`: the retained route, or a refusal. `expected` is what
    `createCiRoute` gives here; `small` is the size limit.
   */
  function VerifyCiRoute(route: Json, expected: Json, small: bool): Option<Json>
    requires expected.Obj? && RouteAttempt(expected).Some?
  {
    var attempt := RouteAttempt(route);
    if Field(route, "schema") != Some(TNum("1")) || !small then None
    else if attempt.None? || Value(attempt.value) > Value(RouteAttempt(expected).value) then None
    else if Serialize(route) != Serialize(WithAttempt(expected, attempt.value)) then None
    else Some(WithAttempt(expected, attempt.value))
  }

  /** What this execution makes: a route of schema 1 with its own attempt. */
  predicate IsExpected(expected: Json) {
    expected.Obj? && Valid(expected) && RouteAttempt(expected).Some? && Field(expected, "schema") == Some(TNum("1"))
  }

  /** The two agree on every member but the attempt, which `route` has too. */
  predicate SameButAttempt(route: Json, expected: Json)
    requires expected.Obj?
  {
    && RouteAttempt(route).Some?
    && Meaning(route) == TObj(Meaning(expected).members[ATTEMPT := TStr(RouteAttempt(route).value)])
  }

  lemma WithAttemptMeaning(v: Json, attempt: string)
    requires v.Obj? && Valid(v)
    ensures Valid(WithAttempt(v, attempt))
    ensures Meaning(WithAttempt(v, attempt)) == TObj(Meaning(v).members[ATTEMPT := TStr(attempt)])
  {
    var ms, ns := v.members, WithAttempt(v, attempt).members;
    var at := if ATTEMPT in Keys(ms) then Index(ms, ATTEMPT) else |ms|;
    AttemptKeys(ms, ns, at, attempt);
    AttemptMembers(ms, ns, at, attempt);
  }

  lemma AttemptMembers(ms: seq<Member>, ns: seq<Member>, at: nat, attempt: string)
    requires NoRepeats(Keys(ms)) && NoRepeats(Keys(ns)) && Puts(ms, ns, at, attempt)
    ensures Meaning(Obj(ns)).members == Meaning(Obj(ms)).members[ATTEMPT := TStr(attempt)]
  {
    var some, all := Meaning(Obj(ns)).members, Meaning(Obj(ms)).members;
    forall key ensures key in Keys(ns) <==> key == ATTEMPT || key in Keys(ms) {
      MembersOf(ms, ns, at, key);
    }
    forall key | key in Keys(ns) ensures some[key] == if key == ATTEMPT then TStr(attempt) else all[key] {
      AttemptTree(ms, ns, at, attempt, key);
    }
  }

  lemma AttemptTree(ms: seq<Member>, ns: seq<Member>, at: nat, attempt: string, key: string)
    requires NoRepeats(Keys(ms)) && NoRepeats(Keys(ns)) && Puts(ms, ns, at, attempt) && key in Keys(ns)
    requires key != ATTEMPT ==> key in Keys(ms)
    ensures Meaning(Obj(ns)).members[key] == if key == ATTEMPT then TStr(attempt) else Meaning(Obj(ms)).members[key]
  {
    AttemptValue(ms, ns, at, attempt, key);
    assert Meaning(Obj(ns)).members[key] == Meaning(ns[Index(ns, key)].value);
    assert Meaning(Str(attempt)) == TStr(attempt);
  }

  /** `ns` is `ms` with the attempt at position `at`. */
  predicate Puts(ms: seq<Member>, ns: seq<Member>, at: nat, attempt: string) {
    && at < |ns| && ns[at] == Member(ATTEMPT, Str(attempt)) && |ms| <= |ns| <= |ms| + 1
    && (at < |ms| ==> |ns| == |ms| && ms[at].key == ATTEMPT) && (at >= |ms| ==> at == |ms| && ATTEMPT !in Keys(ms))
    && forall j :: 0 <= j < |ns| && j != at ==> j < |ms| && ns[j] == ms[j]
  }

  lemma AttemptKeys(ms: seq<Member>, ns: seq<Member>, at: nat, attempt: string)
    requires Valid(Obj(ms)) && Puts(ms, ns, at, attempt)
    ensures Valid(Obj(ns))
  {
    forall i, j | 0 <= i < j < |ns| ensures Keys(ns)[i] != Keys(ns)[j] {
      assert i < |ms| ==> Keys(ms)[i] == ms[i].key;
      assert j < |ms| ==> Keys(ms)[j] == ms[j].key;
    }
  }

  lemma AttemptValue(ms: seq<Member>, ns: seq<Member>, at: nat, attempt: string, key: string)
    requires NoRepeats(Keys(ms)) && NoRepeats(Keys(ns)) && Puts(ms, ns, at, attempt) && key in Keys(ns)
    requires key != ATTEMPT ==> key in Keys(ms)
    ensures ns[Index(ns, key)].value == if key == ATTEMPT then Str(attempt) else ms[Index(ms, key)].value
  {
    var j := Index(ns, key);
    IndexIsUnique(ns, at);
    if j != at {
      IndexIsUnique(ms, j);
      assert ns[j] == ms[j];
      assert key != ATTEMPT;
    }
  }

  lemma MembersOf(ms: seq<Member>, ns: seq<Member>, at: nat, key: string)
    requires at < |ns| && ns[at].key == ATTEMPT && |ms| <= |ns| && (at < |ms| ==> ms[at].key == ATTEMPT)
    requires forall j :: 0 <= j < |ns| && j != at ==> j < |ms| && ns[j] == ms[j]
    ensures key in Keys(ns) <==> key == ATTEMPT || key in Keys(ms)
  {
    assert Keys(ns)[at] == ATTEMPT;
    if key in Keys(ms) {
      var j :| 0 <= j < |ms| && Keys(ms)[j] == key;
      assert Keys(ns)[j] == key;
    }
    if key in Keys(ns) && key != ATTEMPT {
      var j :| 0 <= j < |ns| && Keys(ns)[j] == key;
      assert Keys(ms)[j] == key;
    }
  }

  /**
    A route is taken if and only if it agrees with this execution on everything
    but its attempt, which is not in the future; what is retained has its digest.
   */
  lemma RouteIsAuthentic(hash: Hash, route: Json, expected: Json, small: bool)
    requires CollisionFree(hash) && Valid(route) && IsExpected(expected)
    ensures VerifyCiRoute(route, expected, small).Some? <==>
      small && SameButAttempt(route, expected) && InTime(route, RouteAttempt(expected).value)
    ensures VerifyCiRoute(route, expected, small).Some? ==>
      HashPlan(hash, VerifyCiRoute(route, expected, small).value) == HashPlan(hash, route)
  {
    if RouteAttempt(route).Some? {
      SameText(route, expected);
      if SameButAttempt(route, expected) {
        SchemaIsNotAttempt(route, expected);
      }
    }
  }

  lemma SameText(route: Json, expected: Json)
    requires Valid(route) && IsExpected(expected) && RouteAttempt(route).Some?
    ensures Serialize(route) == Serialize(WithAttempt(expected, RouteAttempt(route).value)) <==>
      SameButAttempt(route, expected)
  {
    WithAttemptMeaning(expected, RouteAttempt(route).value);
    SerializeIsFaithful(route, WithAttempt(expected, RouteAttempt(route).value));
  }

  lemma SchemaIsNotAttempt(route: Json, expected: Json)
    requires IsExpected(expected) && SameButAttempt(route, expected)
    ensures Field(route, "schema") == Some(TNum("1"))
  {
    assert "schema" != ATTEMPT;
  }

  /** Among the routes one execution takes, the digest tells the planner attempt and nothing else. */
  lemma DigestTellsAttempt(hash: Hash, a: Json, b: Json, expected: Json)
    requires CollisionFree(hash) && Valid(a) && Valid(b) && IsExpected(expected)
    requires VerifyCiRoute(a, expected, true).Some? && VerifyCiRoute(b, expected, true).Some?
    ensures HashPlan(hash, a) == HashPlan(hash, b) <==> RouteAttempt(a) == RouteAttempt(b)
  {
    RouteIsAuthentic(hash, a, expected, true);
    RouteIsAuthentic(hash, b, expected, true);
    DigestIsFaithful(hash, a, b);
  }

  /** A route that is taken is taken again in every later attempt of the same execution. */
  lemma RouteSurvivesReruns(hash: Hash, route: Json, expected: Json, later: string, small: bool)
    requires CollisionFree(hash) && Valid(route) && IsExpected(expected)
    requires Positive(later) && Value(later) >= Value(RouteAttempt(expected).value)
    requires VerifyCiRoute(route, expected, small).Some?
    ensures IsExpected(WithAttempt(expected, later))
    ensures VerifyCiRoute(route, WithAttempt(expected, later), small).Some?
  {
    ExpectedLater(expected, later);
    RouteIsAuthentic(hash, route, expected, small);
    SameLater(route, expected, later);
    RouteIsAuthentic(hash, route, WithAttempt(expected, later), small);
  }

  lemma SameLater(route: Json, expected: Json, later: string)
    requires IsExpected(expected) && SameButAttempt(route, expected)
    ensures SameButAttempt(route, WithAttempt(expected, later))
  {
    WithAttemptMeaning(expected, later);
    var a := TStr(RouteAttempt(route).value);
    assert Meaning(WithAttempt(expected, later)).members[ATTEMPT := a] == Meaning(expected).members[ATTEMPT := a];
  }

  lemma ExpectedLater(expected: Json, later: string)
    requires IsExpected(expected) && Positive(later)
    ensures IsExpected(WithAttempt(expected, later)) && RouteAttempt(WithAttempt(expected, later)) == Some(later)
  {
    WithAttemptMeaning(expected, later);
    assert "schema" != ATTEMPT;
  }

  /** The routes the planner gives in the attempts of one execution are routes in the sense of the aggregate. */
  lemma PlannerRoutes(expected: Json, routes: nat -> Json)
    requires IsExpected(expected)
    requires forall k: nat :: k > 0 ==> routes(k) == WithAttempt(expected, CiAggregate.Decimal(k))
    ensures CiAggregate.AreRoutes(routes)
  {
    forall k: nat | k > 0 ensures CiAggregate.IsRoute(routes(k), k, Field(routes(1), "scope")) {
      assert routes(k) == WithAttempt(expected, CiAggregate.Decimal(k));
      assert routes(1) == WithAttempt(expected, CiAggregate.Decimal(1));
      WithAttemptMeaning(expected, CiAggregate.Decimal(k));
      WithAttemptMeaning(expected, CiAggregate.Decimal(1));
      assert "scope" != ATTEMPT;
    }
  }
}
