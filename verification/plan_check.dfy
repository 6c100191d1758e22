/**
  Checking an untrusted gate plan by making it again from the context it
  records (scripts/change-plan.mjs): what is accepted and what is not.
 */
module PlanCheck {
  import opened Options
  import opened Text
  import opened Json
  import opened JsonText
  import opened RawDiff
  import opened ChangeFacts
  import opened GatePlan

  function WithPrefix(xs: seq<string>, prefix: string): (r: seq<string>)
    ensures forall i :: 0 <= i < |r| ==> StartsWith(r[i], prefix) && r[i] in xs
    ensures forall x :: x in xs && StartsWith(x, prefix) ==> x in r
  {
    if xs == [] then []
    else
      assert xs == [xs[0]] + xs[1..];
      (if StartsWith(xs[0], prefix) then [xs[0]] else []) + WithPrefix(xs[1..], prefix)
  }

  /** The value a reason with this prefix records, if there is one. */
  function Cut(reasons: seq<string>, prefix: string): Option<string> {
    var tagged := WithPrefix(reasons, prefix);
    if tagged == [] then None else Some(tagged[0][|prefix|..])
  }

  function RecordedEvent(reasons: seq<string>): Event {
    Event(Cut(reasons, EVENT), Cut(reasons, REF), Cut(reasons, HEAD))
  }

  predicate Unambiguous(reasons: seq<string>) {
    |WithPrefix(reasons, EVENT)| <= 1 && |WithPrefix(reasons, REF)| <= 1
    && |WithPrefix(reasons, HEAD)| <= 1 && |WithPrefix(reasons, BASE)| <= 1
  }

  /** An object without one of its members. */
  function Without(v: Json, key: string): Json
    requires v.Obj?
  {
    if key !in Keys(v.members) then v
    else
      var i := Index(v.members, key);
      Obj(v.members[..i] + v.members[i + 1..])
  }

  /** The plan that a recorded context leads to. */
  function Again(repo: Repo, hash: Hash, reasons: Option<seq<string>>, target: Option<string>): Option<Json> {
    if reasons.None? || target.None? then None
    else Create(repo, hash, target.value, Cut(reasons.value, BASE), RecordedEvent(reasons.value))
  }

  function Expected(repo: Repo, hash: Hash, plan: Json): Option<Json> {
    Again(repo, hash, Strings(Field(plan, "reasons")), Text1(Field(plan, "targetCommit")))
  }

  /** The schema, scope and reasons a plan must have before its context is read. */
  predicate Supported(plan: Tree) {
    && TreeField(plan, "schema") == Some(TNum("1"))
    && (TreeField(plan, "scope") == Some(TStr("docs")) || TreeField(plan, "scope") == Some(TStr("full")))
    && Strings(TreeField(plan, "reasons")).Some?
  }

  /** `validateGatePlan`, true when it does not throw. */
  predicate Validate(repo: Repo, hash: Hash, plan: Json, discovery: Option<seq<string>>) {
    && plan.Obj? && Supported(Meaning(plan))
    && Field(plan, "planDigest") == Some(TStr(HashPlan(hash, Without(plan, "planDigest"))))
    && Unambiguous(Strings(Field(plan, "reasons")).value)
    && var expected := Expected(repo, hash, plan);
    && expected.Some? && HashPlan(hash, expected.value) == HashPlan(hash, plan)
    && (discovery.Some? ==> Field(expected.value, "discoveryDigest") == Some(TStr(Digest(hash, discovery.value))))
  }

  // ---------- Members ----------

  lemma FieldOf(members: seq<Member>, i: nat)
    requires NoRepeats(Keys(members)) && i < |members|
    ensures Field(Obj(members), members[i].key) == Some(Meaning(members[i].value))
  {
    IndexIsUnique(members, i);
  }

  lemma {:induction false} WithoutMeaning(v: Json, key: string)
    requires v.Obj? && Valid(v)
    ensures Valid(Without(v, key)) && Meaning(Without(v, key)) == TObj(Meaning(v).members - {key})
  {
    var ms := v.members;
    if key in Keys(ms) {
      var i := Index(ms, key);
      var rest := ms[..i] + ms[i + 1..];
      RemovedKeys(ms, i, rest);
      RemovedMembers(ms, i, rest);
      assert ms[i].key == key;
    } else {
      assert Meaning(v).members - {key} == Meaning(v).members;
    }
  }

  lemma RemovedKeys(ms: seq<Member>, i: nat, rest: seq<Member>)
    requires i < |ms| && rest == ms[..i] + ms[i + 1..] && NoRepeats(Keys(ms))
    requires Valid(Obj(ms))
    ensures NoRepeats(Keys(rest)) && Valid(Obj(rest))
  {
    forall a, b | 0 <= a < b < |rest| ensures Keys(rest)[a] != Keys(rest)[b] {
      var m, n := if a < i then a else a + 1, if b < i then b else b + 1;
      assert rest[a] == ms[m] && rest[b] == ms[n];
      assert Keys(ms)[m] != Keys(ms)[n];
    }
  }

  lemma RemovedMembers(ms: seq<Member>, i: nat, rest: seq<Member>)
    requires i < |ms| && rest == ms[..i] + ms[i + 1..]
    requires NoRepeats(Keys(ms)) && NoRepeats(Keys(rest))
    ensures Meaning(Obj(rest)).members == Meaning(Obj(ms)).members - {ms[i].key}
  {
    var all, some := Meaning(Obj(ms)).members, Meaning(Obj(rest)).members;
    forall k | k in Keys(rest) ensures k in all && k != ms[i].key && some[k] == all[k] {
      KeptMember(ms, i, rest, k);
    }
    forall k | k in Keys(ms) && k != ms[i].key ensures k in Keys(rest) {
      var m := Index(ms, k);
      var j := if m < i then m else m - 1;
      assert rest[j] == ms[m] && Keys(rest)[j] == k;
    }
  }

  lemma KeptMember(ms: seq<Member>, i: nat, rest: seq<Member>, k: string)
    requires i < |ms| && rest == ms[..i] + ms[i + 1..] && NoRepeats(Keys(ms)) && k in Keys(rest)
    ensures k in Keys(ms) && k != ms[i].key && ms[Index(ms, k)] == rest[Index(rest, k)]
  {
    var j := Index(rest, k);
    var m := if j < i then j else j + 1;
    assert rest[j] == ms[m];
    IndexIsUnique(ms, m);
    IndexIsUnique(ms, i);
  }

  lemma StrArrMeans(xs: seq<string>)
    ensures Valid(StrArr(xs)) && Strings(Some(Meaning(StrArr(xs)))) == Some(xs)
  {
    assert Strings(Some(Meaning(StrArr(xs)))).value == xs;
  }

  // ---------- Created plans ----------

  const KEYS := ["schema", "scope", "targetCommit", "targetTree", "baseTree", "manifestDigest", "discoveryDigest",
                 "selectionDigest", "selectedFiles", "requiredLanes", "reasons", "planDigest"]

  lemma KeysDiffer()
    ensures NoRepeats(KEYS)
  {
    var sizes := [6, 5, 12, 10, 8, 14, 15, 15, 13, 13, 7, 10];
    assert forall i :: 0 <= i < 12 ==> |KEYS[i]| == sizes[i];
    assert KEYS[3][0] != KEYS[11][0] && KEYS[6][0] != KEYS[7][0] && KEYS[8][0] != KEYS[9][0];
  }

  lemma SealedPlan(hash: Hash, target: string, facts: Facts, docs: bool, baseTree: Option<string>, reasons: seq<string>)
    ensures var body := Body(hash, target, facts, docs, baseTree, reasons);
      var plan := Sealed(hash, body);
      && Keys(plan.members) == KEYS && NoRepeats(KEYS)
      && Valid(plan) && Without(plan, "planDigest") == Obj(body)
  {
    var body := Body(hash, target, facts, docs, baseTree, reasons);
    var plan := Sealed(hash, body);
    var ms := plan.members;
    KeysDiffer();
    assert Keys(ms) == KEYS;
    var selected := if docs then SelectedDocs(facts) else facts.discovery;
    StrArrMeans(selected);
    StrArrMeans(reasons);
    StrArrMeans(["attribution", "package", "syntax", if docs then "test-docs" else "test"]);
    IndexIsUnique(ms, 11);
    assert ms[..11] == body && ms[12..] == [];
    assert IsNumber("1");
    forall i | 0 <= i < |ms| ensures Valid(ms[i].value) {
      BodyValues(hash, target, facts, docs, baseTree, reasons, i);
    }
  }

  lemma BodyValues(hash: Hash, target: string, facts: Facts, docs: bool, baseTree: Option<string>, reasons: seq<string>,
                   i: nat)
    requires i < 12
    ensures Valid(Sealed(hash, Body(hash, target, facts, docs, baseTree, reasons)).members[i].value)
  {
    var v := Sealed(hash, Body(hash, target, facts, docs, baseTree, reasons)).members[i].value;
    assert v.Str? || v.Null? || v == Num("1") || (v.Arr? && forall j :: 0 <= j < |v.items| ==> v.items[j].Str?);
    assert IsNumber("1");
  }

  /** The fields of a made plan that the check reads. */
  lemma PlanFields(hash: Hash, target: string, facts: Facts, docs: bool, baseTree: Option<string>, reasons: seq<string>)
    ensures var body := Body(hash, target, facts, docs, baseTree, reasons);
      var plan := Sealed(hash, body);
      && Field(plan, "schema") == Some(TNum("1"))
      && Field(plan, "scope") == Some(TStr(if docs then "docs" else "full"))
      && Field(plan, "targetCommit") == Some(TStr(target))
      && Strings(Field(plan, "reasons")) == Some(reasons)
      && Field(plan, "planDigest") == Some(TStr(HashPlan(hash, Obj(body))))
  {
    PlanHeadFields(hash, target, facts, docs, baseTree, reasons);
    PlanTailFields(hash, target, facts, docs, baseTree, reasons);
  }

  lemma PlanHeadFields(hash: Hash, target: string, facts: Facts, docs: bool, baseTree: Option<string>,
                       reasons: seq<string>)
    ensures var plan := Sealed(hash, Body(hash, target, facts, docs, baseTree, reasons));
      && Field(plan, "schema") == Some(TNum("1"))
      && Field(plan, "scope") == Some(TStr(if docs then "docs" else "full"))
      && Field(plan, "targetCommit") == Some(TStr(target))
  {
    PlanField(hash, target, facts, docs, baseTree, reasons, 0);
    PlanField(hash, target, facts, docs, baseTree, reasons, 1);
    PlanField(hash, target, facts, docs, baseTree, reasons, 2);
  }

  lemma PlanTailFields(hash: Hash, target: string, facts: Facts, docs: bool, baseTree: Option<string>,
                       reasons: seq<string>)
    ensures var body := Body(hash, target, facts, docs, baseTree, reasons);
      var plan := Sealed(hash, body);
      && Strings(Field(plan, "reasons")) == Some(reasons)
      && Field(plan, "planDigest") == Some(TStr(HashPlan(hash, Obj(body))))
  {
    PlanField(hash, target, facts, docs, baseTree, reasons, 10);
    PlanField(hash, target, facts, docs, baseTree, reasons, 11);
    StrArrMeans(reasons);
  }

  lemma PlanField(hash: Hash, target: string, facts: Facts, docs: bool, baseTree: Option<string>, reasons: seq<string>,
                  i: nat)
    requires i < 12
    ensures var plan := Sealed(hash, Body(hash, target, facts, docs, baseTree, reasons));
      Field(plan, KEYS[i]) == Some(Meaning(plan.members[i].value))
  {
    SealedPlan(hash, target, facts, docs, baseTree, reasons);
    var ms := Sealed(hash, Body(hash, target, facts, docs, baseTree, reasons)).members;
    assert Keys(ms)[i] == ms[i].key;
    FieldOf(ms, i);
  }

  lemma PlanDiscovery(hash: Hash, target: string, facts: Facts, docs: bool, baseTree: Option<string>,
                      reasons: seq<string>)
    ensures Field(Sealed(hash, Body(hash, target, facts, docs, baseTree, reasons)), "discoveryDigest")
      == Some(TStr(Digest(hash, facts.discovery)))
  {
    PlanField(hash, target, facts, docs, baseTree, reasons, 6);
  }

  // ---------- The context a plan records ----------

  predicate Untagged(x: string) {
    !StartsWith(x, EVENT) && !StartsWith(x, REF) && !StartsWith(x, HEAD) && !StartsWith(x, BASE)
  }

  lemma FirstCharTells(x: string)
    requires x != [] && x[0] != 'e' && x[0] != 'r' && x[0] != 'h' && x[0] != 'b'
    ensures Untagged(x)
  {}

  lemma ConstantsUntagged()
    ensures Untagged("event-requires-full") && Untagged("copy-origin-ambiguous") && Untagged("history-incomplete")
    ensures Untagged("docs-selection-incomplete") && Untagged("reader-audit-drift")
    ensures Untagged("target-topology-unsupported")
    ensures Untagged("manifest-unsupported") && Untagged("changes-empty") && Untagged("changes-require-full")
    ensures Untagged("ordinary-documentation-only")
  {
    FirstCharTells("copy-origin-ambiguous");
    FirstCharTells("docs-selection-incomplete");
    FirstCharTells("target-topology-unsupported");
    FirstCharTells("manifest-unsupported");
    FirstCharTells("changes-empty");
    FirstCharTells("changes-require-full");
    FirstCharTells("ordinary-documentation-only");
    CloseCalls();
  }

  lemma CloseCalls()
    ensures Untagged("event-requires-full") && Untagged("history-incomplete") && Untagged("reader-audit-drift")
  {
    var e, h, r := "event-requires-full", "history-incomplete", "reader-audit-drift";
    assert e[5] == '-' && EVENT[5] == ':' && e[0] == 'e';
    assert h[1] == 'i' && HEAD[1] == 'e' && h[0] == 'h';
    assert r[2] == 'a' && REF[2] == 'f' && r[0] == 'r';
  }

  lemma NotesUntagged(hash: Hash, facts: Facts, context: Context, history: History)
    ensures forall x :: x in Notes(hash, facts, context, history) ==> Untagged(x)
  {
    ConstantsUntagged();
    assert Untagged(VerdictOf(facts, history).reason);
  }

  predicate Tagged(x: string, event: bool, ref: bool, head: bool, base: bool) {
    && StartsWith(x, EVENT) == event && StartsWith(x, REF) == ref
    && StartsWith(x, HEAD) == head && StartsWith(x, BASE) == base
  }

  /** A tag is told from every other prefix by its first character. */
  lemma TagsAreTold(value: string)
    ensures Tagged(EVENT + value, true, false, false, false) && Tagged(REF + value, false, true, false, false)
    ensures Tagged(HEAD + value, false, false, true, false) && Tagged(BASE + value, false, false, false, true)
  {
    assert (EVENT + value)[0] == 'e' && (REF + value)[0] == 'r' && (HEAD + value)[0] == 'h' && (BASE + value)[0] == 'b';
  }

  lemma {:induction false} WithPrefixOnce(xs: seq<string>, prefix: string)
    requires NoRepeats(xs)
    ensures NoRepeats(WithPrefix(xs, prefix))
  {
    if xs != [] {
      assert xs == [xs[0]] + xs[1..];
      NoRepeatsFrom(xs[0], xs[1..]);
      WithPrefixOnce(xs[1..], prefix);
      NoRepeatsFrom(xs[0], WithPrefix(xs[1..], prefix));
    }
  }

  lemma AtMostOne(xs: seq<string>, x: string)
    requires NoRepeats(xs) && forall i :: 0 <= i < |xs| ==> xs[i] == x
    ensures |xs| <= 1
  {
    if |xs| > 1 {
      Repeats(xs, x);
    }
  }

  lemma Repeats(xs: seq<string>, x: string)
    requires |xs| > 1 && forall i :: 0 <= i < |xs| ==> xs[i] == x
    ensures !NoRepeats(xs)
  {
    assert xs[0] == xs[1];
  }

  lemma {:induction false} NoneWithPrefix(xs: seq<string>, prefix: string)
    requires forall x :: x in xs ==> !StartsWith(x, prefix)
    ensures WithPrefix(xs, prefix) == []
  {
    if xs != [] {
      assert xs == [xs[0]] + xs[1..];
      NoneWithPrefix(xs[1..], prefix);
    }
  }

  lemma OnlyTag(xs: seq<string>, prefix: string, value: Option<string>)
    requires NoRepeats(xs)
    requires value.Some? ==> prefix + value.value in xs
    requires forall x :: x in xs && StartsWith(x, prefix) ==> value.Some? && x == prefix + value.value
    ensures |WithPrefix(xs, prefix)| <= 1 && Cut(xs, prefix) == value
  {
    WithPrefixOnce(xs, prefix);
    var tagged := WithPrefix(xs, prefix);
    if value.None? {
      NoneWithPrefix(xs, prefix);
    } else {
      assert forall i :: 0 <= i < |tagged| ==> tagged[i] in xs;
      AtMostOne(tagged, prefix + value.value);
      assert prefix + value.value in tagged;
      assert (prefix + value.value)[|prefix|..] == value.value;
    }
  }

  predicate IsTag(x: string, prefix: string, value: Option<string>) {
    value.Some? && x == prefix + value.value
  }

  lemma TagMembers(context: Context, history: History, x: string)
    ensures x in Tags(context, history) <==>
      || x == EVENT + context.kind || IsTag(x, REF, context.ref)
      || IsTag(x, HEAD, context.head) || IsTag(x, BASE, history.base)
  {}

  lemma TagIsRead(reasons: seq<string>, context: Context, history: History, prefix: string, value: Option<string>)
    requires NoRepeats(reasons)
    requires forall x :: x in Tags(context, history) ==> x in reasons
    requires forall x :: x in reasons ==> x in Tags(context, history) || Untagged(x)
    requires || (prefix == EVENT && value == Some(context.kind)) || (prefix == REF && value == context.ref)
             || (prefix == HEAD && value == context.head) || (prefix == BASE && value == history.base)
    ensures |WithPrefix(reasons, prefix)| <= 1 && Cut(reasons, prefix) == value
  {
    if value.Some? {
      TagMembers(context, history, prefix + value.value);
    }
    forall x | x in reasons && StartsWith(x, prefix) ensures value.Some? && x == prefix + value.value {
      TagMembers(context, history, x);
      TagsAreTold(context.kind);
      if context.ref.Some? { TagsAreTold(context.ref.value); }
      if context.head.Some? { TagsAreTold(context.head.value); }
      if history.base.Some? { TagsAreTold(history.base.value); }
    }
    OnlyTag(reasons, prefix, value);
  }

  /** The recorded context and base can be read back from the sorted reasons. */
  lemma ReasonsRecordContext(hash: Hash, facts: Facts, context: Context, history: History)
    ensures var reasons := Reasons(hash, facts, context, history);
      && Unambiguous(reasons) && Cut(reasons, BASE) == history.base
      && RecordedEvent(reasons) == Event(Some(context.kind), context.ref, context.head)
  {
    var reasons := Reasons(hash, facts, context, history);
    SortUniqueIsCanonical(Tags(context, history) + Notes(hash, facts, context, history));
    StrictHasNoRepeats(ByText, reasons);
    NotesUntagged(hash, facts, context, history);
    TagIsRead(reasons, context, history, EVENT, Some(context.kind));
    TagIsRead(reasons, context, history, REF, context.ref);
    TagIsRead(reasons, context, history, HEAD, context.head);
    TagIsRead(reasons, context, history, BASE, history.base);
  }

  // ---------- What the check accepts ----------

  /** A pull request names no head or a well-formed one. */
  predicate GoodHead(event: Event) {
    event.kind == Some("pr") && event.headCommit.Some? ==> IsOid(event.headCommit.value)
  }

  lemma ContextIsRebuilt(event: Event, target: string)
    requires IsOid(target)
    ensures var context := EventContext(event, target);
      var again := EventContext(Event(Some(context.kind), context.ref, context.head), target);
      if GoodHead(event) then again == context else context.head.None? && again.head.Some?
  {}

  lemma HistoryIsRebuilt(repo: Repo, target: string, entries: seq<Entry>, base: Option<string>, head: Option<string>)
    ensures var history := ReadHistory(repo, target, entries, base, head);
      ReadHistory(repo, target, entries, history.base, head) == history
  {}

  /** Plans made from different heads have different reasons. */
  lemma HeadsTellPlansApart(hash: Hash, target: string, facts: Facts, c: Context, h: History, d: Context, k: History)
    requires c.head != d.head
    ensures Meaning(PlanFrom(hash, target, facts, c, h)) != Meaning(PlanFrom(hash, target, facts, d, k))
  {
    ReasonsRecordContext(hash, facts, c, h);
    ReasonsRecordContext(hash, facts, d, k);
    PlanFields(hash, target, facts, DocsScope(hash, facts, c, h), h.baseTree, Reasons(hash, facts, c, h));
    PlanFields(hash, target, facts, DocsScope(hash, facts, d, k), k.baseTree, Reasons(hash, facts, d, k));
  }

  lemma ExpectedOf(repo: Repo, hash: Hash, target: string, facts: Facts, context: Context, history: History)
    ensures Expected(repo, hash, PlanFrom(hash, target, facts, context, history)) ==
      Create(repo, hash, target, history.base, Event(Some(context.kind), context.ref, context.head))
  {
    ReasonsRecordContext(hash, facts, context, history);
    PlanFields(hash, target, facts, DocsScope(hash, facts, context, history), history.baseTree,
               Reasons(hash, facts, context, history));
  }

  /** A made plan leads back to itself, except that a malformed pull-request head is not recorded. */
  lemma PlanIsRebuilt(repo: Repo, hash: Hash, target: string, base: Option<string>, event: Event)
    requires Create(repo, hash, target, base, event).Some?
    ensures var plan := Create(repo, hash, target, base, event).value;
      if GoodHead(event) then Expected(repo, hash, plan) == Some(plan)
      else Expected(repo, hash, plan).Some? && Meaning(Expected(repo, hash, plan).value) != Meaning(plan)
  {
    var facts := TargetFacts(repo, target).value;
    var context := EventContext(event, target);
    var history := ReadHistory(repo, target, facts.entries, base, context.head);
    ExpectedOf(repo, hash, target, facts, context, history);
    ContextIsRebuilt(event, target);
    var context' := EventContext(Event(Some(context.kind), context.ref, context.head), target);
    if GoodHead(event) {
      HistoryIsRebuilt(repo, target, facts.entries, base, context.head);
    } else {
      var history' := ReadHistory(repo, target, facts.entries, history.base, context'.head);
      HeadsTellPlansApart(hash, target, facts, context', history', context, history);
    }
  }

  /** The check reads a plan by its meaning only. */
  lemma ValidateReadsMeaning(repo: Repo, hash: Hash, a: Json, b: Json, discovery: Option<seq<string>>)
    requires CollisionFree(hash) && Valid(a) && Valid(b) && Meaning(a) == Meaning(b)
    ensures Validate(repo, hash, a, discovery) <==> Validate(repo, hash, b, discovery)
  {
    assert a.Obj? <==> b.Obj?;
    if a.Obj? {
      WithoutMeaning(a, "planDigest");
      WithoutMeaning(b, "planDigest");
      DigestIsFaithful(hash, Without(a, "planDigest"), Without(b, "planDigest"));
      DigestIsFaithful(hash, a, b);
    }
  }

  lemma CreatedIsValid(repo: Repo, hash: Hash, target: string, base: Option<string>, event: Event)
    requires Create(repo, hash, target, base, event).Some?
    ensures Valid(Create(repo, hash, target, base, event).value)
  {
    var facts := TargetFacts(repo, target).value;
    var context := EventContext(event, target);
    var history := ReadHistory(repo, target, facts.entries, base, context.head);
    SealedPlan(hash, target, facts, DocsScope(hash, facts, context, history), history.baseTree,
               Reasons(hash, facts, context, history));
  }

  lemma CreatedIsWellFormed(repo: Repo, hash: Hash, target: string, base: Option<string>, event: Event)
    requires Create(repo, hash, target, base, event).Some?
    ensures var plan := Create(repo, hash, target, base, event).value;
      && plan.Obj? && Supported(Meaning(plan)) && Unambiguous(Strings(Field(plan, "reasons")).value)
      && Field(plan, "planDigest") == Some(TStr(HashPlan(hash, Without(plan, "planDigest"))))
  {
    var facts := TargetFacts(repo, target).value;
    var context := EventContext(event, target);
    var history := ReadHistory(repo, target, facts.entries, base, context.head);
    var docs, reasons := DocsScope(hash, facts, context, history), Reasons(hash, facts, context, history);
    SealedPlan(hash, target, facts, docs, history.baseTree, reasons);
    PlanFields(hash, target, facts, docs, history.baseTree, reasons);
    ReasonsRecordContext(hash, facts, context, history);
  }

  /** A made plan passes the check exactly when its pull-request head was absent or well formed. */
  lemma CreatedIsAccepted(repo: Repo, hash: Hash, target: string, base: Option<string>, event: Event)
    requires CollisionFree(hash) && Create(repo, hash, target, base, event).Some?
    ensures Validate(repo, hash, Create(repo, hash, target, base, event).value, None) <==> GoodHead(event)
  {
    var plan := Create(repo, hash, target, base, event).value;
    PlanIsRebuilt(repo, hash, target, base, event);
    CreatedIsWellFormed(repo, hash, target, base, event);
    CreatedIsValid(repo, hash, target, base, event);
    ValidatedExactly(repo, hash, plan);
  }

  /** A well-formed plan passes exactly when making it again gives a plan that means the same. */
  lemma ValidatedExactly(repo: Repo, hash: Hash, plan: Json)
    requires CollisionFree(hash) && Valid(plan) && plan.Obj? && Supported(Meaning(plan))
    requires Unambiguous(Strings(Field(plan, "reasons")).value)
    requires Field(plan, "planDigest") == Some(TStr(HashPlan(hash, Without(plan, "planDigest"))))
    ensures Validate(repo, hash, plan, None) <==>
      Expected(repo, hash, plan).Some? && Meaning(Expected(repo, hash, plan).value) == Meaning(plan)
  {
    if Expected(repo, hash, plan).Some? {
      ExpectedIsValid(repo, hash, plan);
      DigestIsFaithful(hash, Expected(repo, hash, plan).value, plan);
    }
  }

  lemma ExpectedIsValid(repo: Repo, hash: Hash, plan: Json)
    requires Expected(repo, hash, plan).Some?
    ensures Valid(Expected(repo, hash, plan).value)
  {
    var reasons, target := Strings(Field(plan, "reasons")).value, Text1(Field(plan, "targetCommit")).value;
    CreatedIsValid(repo, hash, target, Cut(reasons, BASE), RecordedEvent(reasons));
  }

  /** `plan` is, member order aside, what `createGatePlan` makes of some inputs in this repository. */
  ghost predicate IsMade(repo: Repo, hash: Hash, plan: Json, target: string, base: Option<string>, event: Event) {
    var made := Create(repo, hash, target, base, event);
    GoodHead(event) && made.Some? && Meaning(made.value) == Meaning(plan)
  }

  /** The check accepts exactly the plans that can be made, and nothing else. */
  lemma AcceptsExactlyMadePlans(repo: Repo, hash: Hash, plan: Json)
    requires CollisionFree(hash) && Valid(plan)
    ensures Validate(repo, hash, plan, None) <==>
      exists target, base, event :: IsMade(repo, hash, plan, target, base, event)
  {
    forall target, base, event | IsMade(repo, hash, plan, target, base, event)
      ensures Validate(repo, hash, plan, None)
    {
      CreatedIsAccepted(repo, hash, target, base, event);
      CreatedIsValid(repo, hash, target, base, event);
      ValidateReadsMeaning(repo, hash, Create(repo, hash, target, base, event).value, plan, None);
    }
    if Validate(repo, hash, plan, None) {
      var reasons, target := Strings(Field(plan, "reasons")).value, Text1(Field(plan, "targetCommit")).value;
      var base, event := Cut(reasons, BASE), RecordedEvent(reasons);
      ExpectedIsValid(repo, hash, plan);
      DigestIsFaithful(hash, Expected(repo, hash, plan).value, plan);
      ValidateReadsMeaning(repo, hash, Expected(repo, hash, plan).value, plan, None);
      CreatedIsAccepted(repo, hash, target, base, event);
      assert IsMade(repo, hash, plan, target, base, event);
    }
  }

  /** Two accepted plans with one target and one set of reasons agree in scope, selection, base and all else. */
  lemma AcceptedPlansAgree(repo: Repo, hash: Hash, a: Json, b: Json)
    requires CollisionFree(hash) && Valid(a) && Valid(b)
    requires Validate(repo, hash, a, None) && Validate(repo, hash, b, None)
    requires Field(a, "targetCommit") == Field(b, "targetCommit") && Field(a, "reasons") == Field(b, "reasons")
    ensures Meaning(a) == Meaning(b)
  {
    ExpectedIsValid(repo, hash, a);
    ExpectedIsValid(repo, hash, b);
    DigestIsFaithful(hash, Expected(repo, hash, a).value, a);
    DigestIsFaithful(hash, Expected(repo, hash, b).value, b);
  }

  /** With a discovery list, the check also demands that it is the target's own. */
  lemma DiscoveryMustMatch(repo: Repo, hash: Hash, plan: Json, discovery: seq<string>)
    requires CollisionFree(hash) && Validate(repo, hash, plan, None)
    ensures var facts := TargetFacts(repo, Text1(Field(plan, "targetCommit")).value);
      facts.Some? && (Validate(repo, hash, plan, Some(discovery)) <==> discovery == facts.value.discovery)
  {
    ValidateSplits(repo, hash, plan, discovery);
    var facts := ExpectedDiscovery(repo, hash, plan);
    DigestFixesList(hash, discovery, facts.discovery);
  }

  lemma ValidateSplits(repo: Repo, hash: Hash, plan: Json, discovery: seq<string>)
    requires Validate(repo, hash, plan, None)
    ensures Expected(repo, hash, plan).Some?
    ensures Validate(repo, hash, plan, Some(discovery)) <==>
      Field(Expected(repo, hash, plan).value, "discoveryDigest") == Some(TStr(Digest(hash, discovery)))
  {}

  lemma ExpectedDiscovery(repo: Repo, hash: Hash, plan: Json) returns (facts: Facts)
    requires Expected(repo, hash, plan).Some?
    ensures Text1(Field(plan, "targetCommit")).Some?
    ensures TargetFacts(repo, Text1(Field(plan, "targetCommit")).value) == Some(facts)
    ensures Field(Expected(repo, hash, plan).value, "discoveryDigest") == Some(TStr(Digest(hash, facts.discovery)))
  {
    var reasons, target := Strings(Field(plan, "reasons")).value, Text1(Field(plan, "targetCommit")).value;
    facts := TargetFacts(repo, target).value;
    var context := EventContext(RecordedEvent(reasons), target);
    var history := ReadHistory(repo, target, facts.entries, Cut(reasons, BASE), context.head);
    PlanDiscovery(hash, target, facts, DocsScope(hash, facts, context, history), history.baseTree,
                  Reasons(hash, facts, context, history));
  }

  lemma DigestFixesList(hash: Hash, a: seq<string>, b: seq<string>)
    requires CollisionFree(hash)
    ensures Digest(hash, a) == Digest(hash, b) <==> a == b
  {
    StrArrMeans(a);
    StrArrMeans(b);
    if Digest(hash, a) == Digest(hash, b) {
      WriteIsUnique(StrArr(a), StrArr(b), [], []);
    }
  }

  // ---------- What a documentation plan means ----------

  /** The difference git reports between two commits is complete. */
  ghost predicate DiffIsComplete(repo: Repo, base: string, target: string) {
    (base, target) in repo.diffs && base in repo.commits && target in repo.commits
    && Parse(repo.diffs[(base, target)]).Some?
    && repo.commits[base] in repo.trees && repo.commits[target] in repo.trees
    && IsTree(repo.trees[repo.commits[base]]) && IsTree(repo.trees[repo.commits[target]])
    && Describes(Parse(repo.diffs[(base, target)]).value,
                 repo.trees[repo.commits[base]], repo.trees[repo.commits[target]])
  }

  /** Outside documentation the trees agree, and no new path carries the bytes of a base source file. */
  ghost predicate OnlyDocsDiffer(b: seq<Entry>, t: seq<Entry>) {
    && (forall path :: !DocumentationPath(path) ==> At(b, path) == At(t, path))
    && (forall path :: At(b, path).None? && At(t, path).Some? ==>
          DocumentationPath(path) && At(t, path).value.mode == "100644" && !Foreign(b, At(t, path).value.oid))
  }

  /**
    A plan with the documentation scope was made against a base whose tree agrees
    with the target on every path outside documentation, so their source digests
    agree, and every path that is new in the target is plain documentation whose
    bytes no base file outside plain documentation had.
   */
  lemma DocsPlanChangesOnlyDocs(repo: Repo, hash: Hash, target: string, base: Option<string>, event: Event)
    requires Create(repo, hash, target, base, event).Some?
    requires Field(Create(repo, hash, target, base, event).value, "scope") == Some(TStr("docs"))
    requires base.Some? ==> DiffIsComplete(repo, base.value, target)
    ensures base.Some? && base.value in repo.commits && repo.commits[base.value] in repo.trees
    ensures target in repo.commits && repo.commits[target] in repo.trees
    ensures OnlyDocsDiffer(repo.trees[repo.commits[base.value]], repo.trees[repo.commits[target]])
    ensures SourceDigest(hash, repo.trees[repo.commits[base.value]]) ==
      SourceDigest(hash, repo.trees[repo.commits[target]])
  {
    var facts, history := DocsPlanHistory(repo, hash, target, base, event);
    DocsTrees(hash, history.changes, repo.trees[repo.commits[base.value]], facts.entries);
  }

  /** The history behind a documentation plan: complete, verified, unambiguous and ordinary. */
  lemma DocsPlanHistory(repo: Repo, hash: Hash, target: string, base: Option<string>, event: Event)
    returns (facts: Facts, history: History)
    requires Create(repo, hash, target, base, event).Some?
    requires Field(Create(repo, hash, target, base, event).value, "scope") == Some(TStr("docs"))
    ensures TargetFacts(repo, target) == Some(facts)
    ensures target in repo.commits && repo.commits[target] in repo.trees
    ensures facts.entries == repo.trees[repo.commits[target]]
    ensures base.Some? && base.value in repo.commits && repo.commits[base.value] in repo.trees
    ensures (base.value, target) in repo.diffs && Parse(repo.diffs[(base.value, target)]) == Some(history.changes)
    ensures AllOrdinary(history.changes)
    ensures !CopyOriginAmbiguous(history.changes, repo.trees[repo.commits[base.value]], facts.entries)
  {
    facts := TargetFacts(repo, target).value;
    var context := EventContext(event, target);
    history := ReadHistory(repo, target, facts.entries, base, context.head);
    PlanHeadFields(hash, target, facts, DocsScope(hash, facts, context, history), history.baseTree,
                   Reasons(hash, facts, context, history));
    assert DocsScope(hash, facts, context, history) by {
      assert "docs"[0] != "full"[0];
    }
    DocsHistory(hash, repo, target, facts, context, base, history);
  }

  lemma DocsHistory(hash: Hash, repo: Repo, target: string, facts: Facts, context: Context, base: Option<string>,
                    history: History)
    requires DocsScope(hash, facts, context, history)
    requires history == ReadHistory(repo, target, facts.entries, base, context.head)
    ensures base.Some? && base.value in repo.commits && repo.commits[base.value] in repo.trees
    ensures (base.value, target) in repo.diffs && Parse(repo.diffs[(base.value, target)]) == Some(history.changes)
    ensures AllOrdinary(history.changes)
    ensures !CopyOriginAmbiguous(history.changes, repo.trees[repo.commits[base.value]], facts.entries)
  {
    assert history.complete && history.ancestryVerified;
  }

  lemma DocsTrees(hash: Hash, changes: seq<Change>, b: seq<Entry>, t: seq<Entry>)
    requires IsTree(b) && IsTree(t) && Describes(changes, b, t) && !CopyOriginAmbiguous(changes, b, t)
    requires AllOrdinary(changes)
    ensures OnlyDocsDiffer(b, t) && SourceDigest(hash, b) == SourceDigest(hash, t)
  {
    forall path | !DocumentationPath(path) ensures At(b, path) == At(t, path) {
      DocsChangeNothingElse(changes, b, t, path);
    }
    SameSourcesSameDigest(hash, b, t);
    forall path | At(b, path).None? && At(t, path).Some?
      ensures DocumentationPath(path) && At(t, path).value.mode == "100644" && !Foreign(b, At(t, path).value.oid)
    {
      AddedDocsAreOwn(changes, b, t, path);
    }
  }

  /** The diff is complete, and the modifications it reports are real. */
  ghost predicate DiffIsExact(repo: Repo, base: string, target: string) {
    DiffIsComplete(repo, base, target)
    && RealChanges(Parse(repo.diffs[(base, target)]).value,
                   repo.trees[repo.commits[base]], repo.trees[repo.commits[target]])
  }

  /**
    What a documentation plan lets change carries no bytes of a base source file
    if and only if no modification in the diff does.
   */
  lemma DocsPlanKeepsSourceBytesOut(repo: Repo, hash: Hash, target: string, base: string, event: Event)
    requires Create(repo, hash, target, Some(base), event).Some?
    requires Field(Create(repo, hash, target, Some(base), event).value, "scope") == Some(TStr("docs"))
    requires DiffIsExact(repo, base, target)
    ensures var b, t := repo.trees[repo.commits[base]], repo.trees[repo.commits[target]];
      NoForeignBytes(b, t) <==> ModificationsAreOwn(Parse(repo.diffs[(base, target)]).value, b, t)
  {
    var facts, history := DocsPlanHistory(repo, hash, target, Some(base), event);
    OwnBytesExactlyWhenModificationsAreOwn(history.changes, repo.trees[repo.commits[base]], facts.entries);
  }
}
