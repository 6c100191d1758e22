/**
  Gate runs that overlap: any number of runs, whose file operations come in any
  order (scripts/gate-cache.mjs and scripts/run-tests.mjs). A run that was cut
  off is one that takes no further step.
 */
module ReceiptOverlap {
  import opened Options
  import opened Receipts

  /** A run that is not answered by a receipt, and how its tests will go. */
  datatype Plan = Plan(kind: Kind, key: string, whole: bool, passed: bool, steady: bool)

  /**
    `seen` holds the kinds whose receipts the run has found gone; `slot` is its
    place in the history of runs past invalidation.
   */
  datatype Stage = Waiting(seen: set<Kind>) | Running(slot: nat) | Tested(slot: nat) | Saved(slot: nat)

  /** `writers` says which run wrote a receipt. */
  datatype State = State(files: Files, history: seq<Run>, stages: seq<Stage>,
                         writers: map<(Kind, string), nat>, now: int)

  datatype Op =
    | Remove(run: nat, kind: Kind)
    | Look(run: nat, kind: Kind)
    | Finish(run: nat)
    | Save(run: nat)
    | Sweep(kind: Kind, key: string)
    | Tick(time: nat)

  function Start(plans: seq<Plan>, now: int): State {
    State(map[], [], seq(|plans|, _ => Waiting({})), map[], now)
  }

  predicate Earns(plan: Plan) {
    plan.whole && plan.passed && plan.steady
  }

  predicate Enabled(plans: seq<Plan>, s: State, op: Op) {
    |s.stages| == |plans| &&
    match op
    case Remove(r, _) => r < |plans| && s.stages[r].Waiting?
    case Look(r, kind) =>
      r < |plans| && s.stages[r].Waiting? && kind !in s.stages[r].seen && (kind, plans[r].key) !in s.files
    case Finish(r) => r < |plans| && s.stages[r].Running? && s.stages[r].slot < |s.history|
    case Save(r) => r < |plans| && s.stages[r].Tested? && Earns(plans[r])
    case _ => true
  }

  function Step(plans: seq<Plan>, s: State, op: Op): State
    requires Enabled(plans, s, op)
  {
    match op
    case Remove(r, kind) => s.(files := s.files - {(kind, plans[r].key)})
    case Look(r, kind) =>
      var p := plans[r];
      if s.stages[r].seen == {} then s.(stages := s.stages[r := Waiting({kind})])
      else
        s.(history := s.history + [Run(p.kind, p.key, p.whole, false, false, s.now)],
           stages := s.stages[r := Running(|s.history|)])
    case Finish(r) =>
      var slot := s.stages[r].slot;
      var done := s.history[slot].(passed := plans[r].passed, steady := plans[r].steady, ended := s.now);
      s.(history := s.history[slot := done], stages := s.stages[r := Tested(slot)])
    case Save(r) =>
      var f := (plans[r].kind, plans[r].key);
      s.(files := s.files[f := Receipt(VERSION, f.0, f.1, s.now)], writers := s.writers[f := r],
         stages := s.stages[r := Saved(s.stages[r].slot)])
    case Sweep(kind, key) => s.(files := s.files - {(kind, key)})
    case Tick(time) => s.(now := s.now + time)
  }

  predicate CanRun(plans: seq<Plan>, now: int, ops: seq<Op>)
    decreases |ops|, 0
  {
    ops == [] ||
    var n := |ops| - 1;
    CanRun(plans, now, ops[..n]) && Enabled(plans, After(plans, now, ops[..n]), ops[n])
  }

  /** The state after these operations. */
  function After(plans: seq<Plan>, now: int, ops: seq<Op>): State
    requires CanRun(plans, now, ops)
    decreases |ops|, 1
  {
    if ops == [] then Start(plans, now)
    else
      var n := |ops| - 1;
      Step(plans, After(plans, now, ops[..n]), ops[n])
  }

  // ---------- What every interleaving keeps ----------

  /** The history tells what this run is, and after its tests how they went. */
  predicate Told(plan: Plan, stage: Stage, history: seq<Run>, now: int) {
    !stage.Waiting? ==>
      && stage.slot < |history|
      && var run := history[stage.slot];
      && run.kind == plan.kind && run.key == plan.key && run.whole == plan.whole
      && (stage.Running? ==> !run.passed)
      && (!stage.Running? ==> run.passed == plan.passed && run.steady == plan.steady && run.ended <= now)
  }

  predicate OwnSlots(stages: seq<Stage>) {
    forall r, q :: 0 <= r < q < |stages| && !stages[r].Waiting? && !stages[q].Waiting? ==>
      stages[r].slot != stages[q].slot
  }

  /** A receipt was written by a run that earned it, after its tests ended. */
  predicate Written(plans: seq<Plan>, s: State, f: (Kind, string))
    requires f in s.files && |s.stages| == |plans|
  {
    f in s.writers && s.writers[f] < |plans| &&
    var r := s.writers[f];
    && s.stages[r].Saved? && s.stages[r].slot < |s.history| && Earns(plans[r]) && (plans[r].kind, plans[r].key) == f
    && s.files[f].Receipt? && s.files[f] == Receipt(VERSION, f.0, f.1, s.files[f].passedAt)
    && s.history[s.stages[r].slot].ended <= s.files[f].passedAt <= s.now
  }

  predicate AllTold(plans: seq<Plan>, s: State) {
    |s.stages| == |plans| && forall r :: 0 <= r < |plans| ==> Told(plans[r], s.stages[r], s.history, s.now)
  }

  predicate AllWritten(plans: seq<Plan>, s: State)
    requires |s.stages| == |plans|
  {
    forall f :: f in s.files ==> Written(plans, s, f)
  }

  predicate Inv(plans: seq<Plan>, s: State) {
    AllTold(plans, s) && OwnSlots(s.stages) && AllWritten(plans, s)
  }

  lemma ToldAfter(plans: seq<Plan>, s: State, op: Op)
    requires Inv(plans, s) && Enabled(plans, s, op)
    ensures AllTold(plans, Step(plans, s, op)) && OwnSlots(Step(plans, s, op).stages)
  {
    var next := Step(plans, s, op);
    forall r | 0 <= r < |plans| ensures Told(plans[r], next.stages[r], next.history, next.now) {
      assert Told(plans[r], s.stages[r], s.history, s.now);
    }
    if op.Look? {
      forall q | 0 <= q < |plans| && !s.stages[q].Waiting? ensures s.stages[q].slot < |s.history| {
        assert Told(plans[q], s.stages[q], s.history, s.now);
      }
    }
  }

  lemma WrittenAfter(plans: seq<Plan>, s: State, op: Op, f: (Kind, string))
    requires Inv(plans, s) && Enabled(plans, s, op) && f in Step(plans, s, op).files
    ensures Written(plans, Step(plans, s, op), f)
  {
    if op.Save? && (plans[op.run].kind, plans[op.run].key) == f {
      assert Told(plans[op.run], s.stages[op.run], s.history, s.now);
    } else {
      assert Written(plans, s, f);
    }
  }

  lemma StepKeepsInv(plans: seq<Plan>, s: State, op: Op)
    requires Inv(plans, s) && Enabled(plans, s, op)
    ensures Inv(plans, Step(plans, s, op))
  {
    ToldAfter(plans, s, op);
    forall f | f in Step(plans, s, op).files ensures Written(plans, Step(plans, s, op), f) {
      WrittenAfter(plans, s, op, f);
    }
  }

  lemma {:induction false} RunKeepsInv(plans: seq<Plan>, now: int, ops: seq<Op>)
    requires CanRun(plans, now, ops)
    ensures Inv(plans, After(plans, now, ops))
    decreases |ops|
  {
    if ops != [] {
      var n := |ops| - 1;
      RunKeepsInv(plans, now, ops[..n]);
      StepKeepsInv(plans, After(plans, now, ops[..n]), ops[n]);
    }
  }

  // ---------- When receipts answer for the last run ----------

  /** Run `j` is the last past invalidation for the key. */
  predicate IsLast(history: seq<Run>, key: string, j: nat) {
    j < |history| && history[j].key == key && forall k :: j < k < |history| ==> history[k].key != key
  }

  lemma {:induction false} LastRunAt(history: seq<Run>, key: string, j: nat)
    requires IsLast(history, key, j)
    ensures LastRun(history, key) == Some(history[j])
  {
    if j < |history| - 1 {
      LastRunAt(history[..|history| - 1], key, j);
    }
  }

  function LastIndex(history: seq<Run>, key: string, j: nat): (k: nat)
    requires j < |history| && history[j].key == key
    ensures j <= k && IsLast(history, key, k)
  {
    if history[|history| - 1].key == key then |history| - 1
    else
      var k := LastIndex(history[..|history| - 1], key, j);
      assert forall i :: 0 <= i < |history| - 1 ==> history[..|history| - 1][i] == history[i];
      k
  }

  /** A whole, steady success of this kind by that time. */
  predicate SucceededBy(run: Run, kind: Kind, time: int) {
    run.kind == kind && run.whole && run.passed && run.steady && run.ended <= time
  }

  /**
    After the run in `slot`, others of its key went past invalidation, and the
    last of them was not, by that time, a success of this kind itself.
   */
  predicate Overtaken(history: seq<Run>, slot: nat, kind: Kind, key: string, time: int) {
    exists j :: slot < j < |history| && IsLast(history, key, j) && !SucceededBy(history[j], kind, time)
  }

  /** For a success in `slot`, being the proof of its key and not being overtaken are the same. */
  lemma ProvenUnlessOvertaken(history: seq<Run>, slot: nat, kind: Kind, key: string, time: int)
    requires slot < |history| && history[slot].key == key && SucceededBy(history[slot], kind, time)
    ensures Proven(history, kind, key, time) <==> !Overtaken(history, slot, kind, key, time)
  {
    var j := LastIndex(history, key, slot);
    LastRunAt(history, key, j);
    forall k | slot < k < |history| && IsLast(history, key, k) ensures k == j {}
  }

  /** The receipt was written by a run that has been overtaken. */
  predicate Stale(s: State, f: (Kind, string))
    requires f in s.files && s.files[f].Receipt?
  {
    f in s.writers && s.writers[f] < |s.stages| && !s.stages[s.writers[f]].Waiting? &&
    Overtaken(s.history, s.stages[s.writers[f]].slot, f.0, f.1, s.files[f].passedAt)
  }

  /** After any interleaving, the receipts answer for the last runs if and only if none is stale. */
  lemma ProvenExactlyUnlessStale(plans: seq<Plan>, now: int, ops: seq<Op>)
    requires CanRun(plans, now, ops)
    ensures var s := After(plans, now, ops);
      AllProven(s.files, s.history, s.now) <==> forall f :: f in s.files && s.files[f].Receipt? ==> !Stale(s, f)
  {
    RunKeepsInv(plans, now, ops);
    var s := After(plans, now, ops);
    forall f | f in s.files ensures Proven(s.history, f.0, f.1, s.files[f].passedAt) <==> !Stale(s, f) {
      ReceiptIsProven(plans, s, f);
    }
    forall f | f in s.files ensures Written(plans, s, f) {}
  }

  lemma ReceiptIsProven(plans: seq<Plan>, s: State, f: (Kind, string))
    requires Inv(plans, s) && f in s.files
    ensures s.files[f].Receipt? && (Proven(s.history, f.0, f.1, s.files[f].passedAt) <==> !Stale(s, f))
  {
    assert Written(plans, s, f);
    var r := s.writers[f];
    assert Told(plans[r], s.stages[r], s.history, s.now);
    ProvenUnlessOvertaken(s.history, s.stages[r].slot, f.0, f.1, s.files[f].passedAt);
  }

  // ---------- Over whole runs ----------

  /** A save that comes after a later run of its key went past invalidation and has not succeeded in its place. */
  predicate LateSave(plans: seq<Plan>, s: State, op: Op) {
    op.Save? && op.run < |plans| && op.run < |s.stages| && !s.stages[op.run].Waiting? &&
    Overtaken(s.history, s.stages[op.run].slot, plans[op.run].kind, plans[op.run].key, s.now)
  }

  predicate AllProvenIn(s: State) {
    AllProven(s.files, s.history, s.now)
  }

  /** The end of a run's tests takes no proof away from a receipt that is there. */
  lemma {:induction false} FinishKeepsProof(history: seq<Run>, slot: nat, done: Run, kind: Kind, key: string, time: int)
    requires slot < |history| && done.key == history[slot].key && !history[slot].passed
    requires Proven(history, kind, key, time)
    ensures Proven(history[slot := done], kind, key, time)
  {
    var n := |history| - 1;
    if history[n].key == key {
      assert slot != n;
    } else {
      assert history[slot := done][..n] == if slot < n then history[..n][slot := done] else history[..n];
      if slot < n {
        FinishKeepsProof(history[..n], slot, done, kind, key, time);
      }
    }
  }

  /** This look lets the run go past invalidation: it has found the other kind gone before. */
  predicate Enters(s: State, op: Op) {
    op.Look? && op.run < |s.stages| && s.stages[op.run].Waiting? && s.stages[op.run].seen != {}
  }

  /** A run goes past invalidation although a receipt of its key was saved between its two looks. */
  predicate LateEntry(plans: seq<Plan>, s: State, op: Op) {
    Enters(s, op) && op.run < |plans| && !Cleared(s.files, plans[op.run].key)
  }

  lemma LookIsProven(plans: seq<Plan>, s: State, r: nat, kind: Kind)
    requires Inv(plans, s) && AllProvenIn(s) && Enabled(plans, s, Look(r, kind))
    ensures AllProvenIn(Step(plans, s, Look(r, kind))) <==> !LateEntry(plans, s, Look(r, kind))
  {
    if Enters(s, Look(r, kind)) {
      var p, next := plans[r], Step(plans, s, Look(r, kind));
      forall f | f in s.files
        ensures s.files[f].Receipt?
        ensures Proven(next.history, f.0, f.1, s.files[f].passedAt) <==> f.1 != p.key
      {
        assert Written(plans, s, f);
        AppendedRun(s.history, Run(p.kind, p.key, p.whole, false, false, s.now), f.1);
      }
      forall other | (other, p.key) in s.files
        ensures !Proven(next.history, other, p.key, s.files[(other, p.key)].passedAt)
      {}
    }
  }

  lemma FinishKeepsProven(plans: seq<Plan>, s: State, r: nat)
    requires Inv(plans, s) && AllProvenIn(s) && Enabled(plans, s, Finish(r))
    ensures AllProvenIn(Step(plans, s, Finish(r)))
  {
    var next, slot := Step(plans, s, Finish(r)), s.stages[r].slot;
    assert Told(plans[r], s.stages[r], s.history, s.now);
    forall f | f in s.files && s.files[f].Receipt? ensures Proven(next.history, f.0, f.1, s.files[f].passedAt) {
      FinishKeepsProof(s.history, slot, next.history[slot], f.0, f.1, s.files[f].passedAt);
    }
  }

  lemma SaveIsProven(plans: seq<Plan>, s: State, r: nat)
    requires Inv(plans, s) && AllProvenIn(s) && Enabled(plans, s, Save(r))
    ensures AllProvenIn(Step(plans, s, Save(r))) <==> !LateSave(plans, s, Save(r))
  {
    var next, f := Step(plans, s, Save(r)), (plans[r].kind, plans[r].key);
    assert Told(plans[r], s.stages[r], s.history, s.now);
    ProvenUnlessOvertaken(s.history, s.stages[r].slot, f.0, f.1, s.now);
    assert next.files[f] == Receipt(VERSION, f.0, f.1, s.now);
    forall g | g in next.files && g != f ensures g in s.files && next.files[g] == s.files[g] {}
  }

  /** The two steps at which a save and the entry of a later run cross. */
  predicate Late(plans: seq<Plan>, s: State, op: Op) {
    LateSave(plans, s, op) || LateEntry(plans, s, op)
  }

  /** A step leaves every receipt proven if and only if it is not late. */
  lemma StepIsProven(plans: seq<Plan>, s: State, op: Op)
    requires Inv(plans, s) && AllProvenIn(s) && Enabled(plans, s, op)
    ensures AllProvenIn(Step(plans, s, op)) <==> !Late(plans, s, op)
  {
    match op
    case Look(r, kind) => LookIsProven(plans, s, r, kind);
    case Finish(r) => FinishKeepsProven(plans, s, r);
    case Save(r) => SaveIsProven(plans, s, r);
    case _ =>
  }

  predicate CanRunAll(plans: seq<Plan>, now: int, ops: seq<Op>) {
    forall n :: 0 <= n <= |ops| ==> CanRun(plans, now, ops[..n])
  }

  lemma {:induction false} PrefixesRun(plans: seq<Plan>, now: int, ops: seq<Op>)
    requires CanRun(plans, now, ops)
    ensures CanRunAll(plans, now, ops)
    decreases |ops|
  {
    assert ops[..|ops|] == ops;
    if ops != [] {
      var m := |ops| - 1;
      PrefixesRun(plans, now, ops[..m]);
      forall n | 0 <= n <= m ensures CanRun(plans, now, ops[..n]) {
        assert ops[..m][..n] == ops[..n];
      }
    }
  }

  /** At every moment of this run the receipts answer for the last runs past invalidation. */
  ghost predicate AlwaysProven(plans: seq<Plan>, now: int, ops: seq<Op>)
    requires CanRunAll(plans, now, ops)
  {
    forall n :: 0 <= n <= |ops| ==> AllProvenIn(After(plans, now, ops[..n]))
  }

  ghost predicate NothingLate(plans: seq<Plan>, now: int, ops: seq<Op>)
    requires CanRunAll(plans, now, ops)
  {
    forall n :: 0 <= n < |ops| ==> !Late(plans, After(plans, now, ops[..n]), ops[n])
  }

  /**
    Over every interleaving: receipts always answer for the last runs if and only
    if no save and no entry comes late.
   */
  lemma {:induction false} ProvenExactlyWhenNothingIsLate(plans: seq<Plan>, now: int, ops: seq<Op>)
    requires CanRunAll(plans, now, ops)
    ensures AlwaysProven(plans, now, ops) <==> NothingLate(plans, now, ops)
    decreases |ops|
  {
    if ops != [] {
      var m := |ops| - 1;
      var before := ops[..m];
      PrefixSplits(plans, now, ops);
      LateSplits(plans, now, ops);
      ProvenSplits(plans, now, ops);
      ProvenExactlyWhenNothingIsLate(plans, now, before);
      RunKeepsInv(plans, now, before);
      assert ops[..|ops|] == ops && before[..m] == before;
      if AlwaysProven(plans, now, before) {
        StepIsProven(plans, After(plans, now, before), ops[m]);
      }
    }
  }

  lemma PrefixSplits(plans: seq<Plan>, now: int, ops: seq<Op>)
    requires CanRunAll(plans, now, ops) && ops != []
    ensures var m := |ops| - 1;
      && CanRunAll(plans, now, ops[..m]) && CanRun(plans, now, ops[..m])
      && Enabled(plans, After(plans, now, ops[..m]), ops[m])
    ensures forall n :: 0 <= n < |ops| ==> ops[..|ops| - 1][..n] == ops[..n]
  {
    var m := |ops| - 1;
    forall n | 0 <= n <= m ensures ops[..m][..n] == ops[..n] {}
    assert ops[..|ops|] == ops;
  }

  lemma LateSplits(plans: seq<Plan>, now: int, ops: seq<Op>)
    requires CanRunAll(plans, now, ops) && ops != [] && CanRunAll(plans, now, ops[..|ops| - 1])
    ensures var m := |ops| - 1;
      NothingLate(plans, now, ops) <==>
        NothingLate(plans, now, ops[..m]) && !Late(plans, After(plans, now, ops[..m]), ops[m])
  {
    PrefixSplits(plans, now, ops);
    var m := |ops| - 1;
    assert forall n :: 0 <= n < m ==> ops[..m][n] == ops[n];
  }

  lemma ProvenSplits(plans: seq<Plan>, now: int, ops: seq<Op>)
    requires CanRunAll(plans, now, ops) && ops != [] && CanRunAll(plans, now, ops[..|ops| - 1])
    ensures AlwaysProven(plans, now, ops) <==>
      AlwaysProven(plans, now, ops[..|ops| - 1]) && AllProvenIn(After(plans, now, ops[..|ops|]))
  {
    PrefixSplits(plans, now, ops);
    var m := |ops| - 1;
    forall n | 0 <= n <= m
      ensures AllProvenIn(After(plans, now, ops[..m][..n])) <==> AllProvenIn(After(plans, now, ops[..n]))
    {
      assert ops[..m][..n] == ops[..n];
    }
  }

  predicate BothKinds(s: State, key: string) {
    (Test, key) in s.files && (TestDocs, key) in s.files
  }

  /** When nothing is late a key never has receipts of both kinds. */
  lemma OneKindWhenNothingIsLate(plans: seq<Plan>, now: int, ops: seq<Op>, key: string)
    requires CanRunAll(plans, now, ops) && NothingLate(plans, now, ops)
    ensures forall n :: 0 <= n <= |ops| ==> !BothKinds(After(plans, now, ops[..n]), key)
  {
    ProvenExactlyWhenNothingIsLate(plans, now, ops);
    forall n | 0 <= n <= |ops| ensures !BothKinds(After(plans, now, ops[..n]), key) {
      var s := After(plans, now, ops[..n]);
      RunKeepsInv(plans, now, ops[..n]);
      assert forall f :: f in s.files ==> Written(plans, s, f);
      assert AllProvenIn(s);
      OneKindPerKey(s.files, s.history, s.now, key);
    }
  }

  // ---------- When a key has receipts of both kinds ----------

  function FileOf(plan: Plan): (Kind, string) {
    (plan.kind, plan.key)
  }

  /** The operation removes, sweeps or rewrites this receipt. */
  predicate Touches(plans: seq<Plan>, op: Op, f: (Kind, string)) {
    match op
    case Remove(r, kind) => r < |plans| && (kind, plans[r].key) == f
    case Save(r) => r < |plans| && FileOf(plans[r]) == f
    case Sweep(kind, key) => (kind, key) == f
    case _ => false
  }

  /** The save at `j` writes this receipt, and nothing touches it afterwards. */
  predicate SavedAt(plans: seq<Plan>, ops: seq<Op>, f: (Kind, string), j: nat) {
    && j < |ops| && ops[j].Save? && ops[j].run < |plans| && FileOf(plans[ops[j].run]) == f
    && forall m :: j < m < |ops| ==> !Touches(plans, ops[m], f)
  }

  lemma StepTouches(plans: seq<Plan>, s: State, op: Op, f: (Kind, string))
    requires Enabled(plans, s, op)
    ensures f in Step(plans, s, op).files <==> if Touches(plans, op, f) then op.Save? else f in s.files
  {}

  lemma SavedBefore(plans: seq<Plan>, ops: seq<Op>, op: Op, f: (Kind, string), j: nat)
    ensures SavedAt(plans, ops + [op], f, j) <==>
      if j < |ops| then SavedAt(plans, ops, f, j) && !Touches(plans, op, f)
      else j == |ops| && op.Save? && Touches(plans, op, f)
  {
    var more := ops + [op];
    assert forall m :: 0 <= m < |ops| ==> more[m] == ops[m];
    assert more[|ops|] == op;
  }

  /** A receipt is there if and only if a save of it stands. */
  lemma {:induction false} PresentExactlyWhenSaved(plans: seq<Plan>, now: int, ops: seq<Op>, f: (Kind, string))
    requires CanRun(plans, now, ops)
    ensures f in After(plans, now, ops).files <==> exists j: nat :: SavedAt(plans, ops, f, j)
    decreases |ops|
  {
    if ops != [] {
      var n := |ops| - 1;
      var before, op := ops[..n], ops[n];
      assert before + [op] == ops;
      PresentExactlyWhenSaved(plans, now, before, f);
      StepTouches(plans, After(plans, now, before), op, f);
      SavesAfter(plans, before, op, f);
    }
  }

  lemma SavesAfter(plans: seq<Plan>, ops: seq<Op>, op: Op, f: (Kind, string))
    ensures (exists j: nat :: SavedAt(plans, ops + [op], f, j)) <==>
      if Touches(plans, op, f) then op.Save? else exists j: nat :: SavedAt(plans, ops, f, j)
  {
    SavedBefore(plans, ops, op, f, |ops|);
    forall j: nat | SavedAt(plans, ops, f, j) && !Touches(plans, op, f) ensures SavedAt(plans, ops + [op], f, j) {
      SavedBefore(plans, ops, op, f, j);
    }
    forall j: nat | SavedAt(plans, ops + [op], f, j)
      ensures if Touches(plans, op, f) then op.Save? else SavedAt(plans, ops, f, j)
    {
      SavedBefore(plans, ops, op, f, j);
    }
  }

  lemma StandsFrom(plans: seq<Plan>, now: int, ops: seq<Op>, f: (Kind, string), j: nat, n: nat)
    requires SavedAt(plans, ops, f, j) && j < n <= |ops| && CanRun(plans, now, ops[..n])
    ensures f in After(plans, now, ops[..n]).files
  {
    assert SavedAt(plans, ops[..n], f, j);
    PresentExactlyWhenSaved(plans, now, ops[..n], f);
  }

  predicate LookedAt(ops: seq<Op>, r: nat, kind: Kind, i: nat) {
    i < |ops| && ops[i] == Look(r, kind)
  }

  /** What a run has seen it has looked for, and a run past invalidation has looked for each kind. */
  lemma {:induction false} HasLooked(plans: seq<Plan>, now: int, ops: seq<Op>, r: nat, kind: Kind)
    requires CanRun(plans, now, ops) && r < |plans| && r < |After(plans, now, ops).stages|
    requires var stage := After(plans, now, ops).stages[r]; stage.Waiting? ==> kind in stage.seen
    ensures exists i: nat :: LookedAt(ops, r, kind, i)
    decreases |ops|
  {
    if ops != [] {
      var n := |ops| - 1;
      if ops[n] == Look(r, kind) {
        assert LookedAt(ops, r, kind, n);
      } else {
        EarlierSeen(plans, After(plans, now, ops[..n]), ops[n], r, kind);
        HasLooked(plans, now, ops[..n], r, kind);
        var i: nat :| LookedAt(ops[..n], r, kind, i);
        assert LookedAt(ops, r, kind, i);
      }
    }
  }

  lemma EarlierSeen(plans: seq<Plan>, s: State, op: Op, r: nat, kind: Kind)
    requires Enabled(plans, s, op) && r < |s.stages| && op != Look(r, kind)
    requires var stage := Step(plans, s, op).stages[r]; stage.Waiting? ==> kind in stage.seen
    ensures s.stages[r].Waiting? ==> kind in s.stages[r].seen
  {
    if op.Look? && op.run == r && s.stages[r].Waiting? && s.stages[r].seen != {} {
      var seen: Kind :| seen in s.stages[r].seen;
      assert seen == kind || op.kind == kind || seen == op.kind;
    }
  }

  /**
    A run of the key looks for the other kind at `i`; at `j` a receipt of that
    other kind is saved; at `k` the run saves its own; and both saves stand.
   */
  predicate Crossing(plans: seq<Plan>, ops: seq<Op>, key: string, i: nat, j: nat, k: nat) {
    && i < j < k < |ops| && ops[k].Save? && ops[k].run < |plans| && plans[ops[k].run].key == key
    && var r, other := ops[k].run, Other(plans[ops[k].run].kind);
    ops[i] == Look(r, other) && SavedAt(plans, ops, (other, key), j) && SavedAt(plans, ops, FileOf(plans[r]), k)
  }

  function Other(kind: Kind): Kind {
    if kind == Test then TestDocs else Test
  }

  /** Of two standing saves of a key, the run of the later one had looked for the other kind before the earlier one. */
  lemma LaterSaveCrosses(plans: seq<Plan>, now: int, ops: seq<Op>, key: string, kind: Kind, j: nat, k: nat)
    returns (i: nat)
    requires CanRun(plans, now, ops) && j < k
    requires SavedAt(plans, ops, (Other(kind), key), j) && SavedAt(plans, ops, (kind, key), k)
    ensures Crossing(plans, ops, key, i, j, k)
  {
    PrefixesRun(plans, now, ops);
    var r := ops[k].run;
    StepOf(plans, now, ops, k);
    HasLooked(plans, now, ops[..k], r, Other(kind));
    i :| LookedAt(ops[..k], r, Other(kind), i);
    assert ops[i] == Look(r, Other(kind));
    StepOf(plans, now, ops, i);
    if j < i {
      StandsFrom(plans, now, ops, (Other(kind), key), j, i);
    }
  }

  lemma StepOf(plans: seq<Plan>, now: int, ops: seq<Op>, n: nat)
    requires CanRunAll(plans, now, ops) && n < |ops|
    ensures CanRun(plans, now, ops[..n]) && Enabled(plans, After(plans, now, ops[..n]), ops[n])
  {
    assert CanRun(plans, now, ops[..n + 1]);
    assert ops[..n + 1][..n] == ops[..n] && ops[..n + 1][n] == ops[n];
  }

  lemma BothKindsCross(plans: seq<Plan>, now: int, ops: seq<Op>, key: string)
    requires CanRun(plans, now, ops) && BothKinds(After(plans, now, ops), key)
    ensures exists i: nat, j: nat, k: nat :: Crossing(plans, ops, key, i, j, k)
  {
    PresentExactlyWhenSaved(plans, now, ops, (Test, key));
    PresentExactlyWhenSaved(plans, now, ops, (TestDocs, key));
    var a: nat :| SavedAt(plans, ops, (Test, key), a);
    var b: nat :| SavedAt(plans, ops, (TestDocs, key), b);
    if a < b {
      var i := LaterSaveCrosses(plans, now, ops, key, TestDocs, a, b);
    } else {
      var i := LaterSaveCrosses(plans, now, ops, key, Test, b, a);
    }
  }

  lemma CrossingLeavesBothKinds(plans: seq<Plan>, now: int, ops: seq<Op>, key: string, i: nat, j: nat, k: nat)
    requires CanRun(plans, now, ops) && Crossing(plans, ops, key, i, j, k)
    ensures BothKinds(After(plans, now, ops), key)
  {
    var kind := plans[ops[k].run].kind;
    PresentExactlyWhenSaved(plans, now, ops, (kind, key));
    PresentExactlyWhenSaved(plans, now, ops, (Other(kind), key));
  }

  /** After every interleaving, a key has receipts of both kinds if and only if a look and two saves cross. */
  lemma BothKindsExactlyWhenCrossing(plans: seq<Plan>, now: int, ops: seq<Op>, key: string)
    requires CanRun(plans, now, ops)
    ensures BothKinds(After(plans, now, ops), key) <==>
      exists i: nat, j: nat, k: nat :: Crossing(plans, ops, key, i, j, k)
  {
    if BothKinds(After(plans, now, ops), key) {
      BothKindsCross(plans, now, ops, key);
    }
    forall i: nat, j: nat, k: nat | Crossing(plans, ops, key, i, j, k)
      ensures BothKinds(After(plans, now, ops), key)
    {
      CrossingLeavesBothKinds(plans, now, ops, key, i, j, k);
    }
  }

  // ---------- What overlap cannot break ----------

  /** Tests are deterministic: a whole run tells the verdict of its kind and key. */
  ghost predicate Deterministic(plans: seq<Plan>, verdict: (Kind, string) -> bool) {
    forall r :: 0 <= r < |plans| && plans[r].whole ==> plans[r].passed == verdict(plans[r].kind, plans[r].key)
  }

  /** However runs overlap, a hit still gives the answer that running the tests gives. */
  lemma HitsStayTruthful(plans: seq<Plan>, now: int, ops: seq<Op>, verdict: (Kind, string) -> bool, kind: Kind,
                         snapshot: Snapshot, at: int, ci: bool, readable: bool)
    requires CanRun(plans, now, ops) && Deterministic(plans, verdict)
    requires ReceiptDecision(After(plans, now, ops).files, kind, Some(snapshot), at, ci, readable).reused
    ensures verdict(kind, snapshot.key)
  {
    RunKeepsInv(plans, now, ops);
    var s := After(plans, now, ops);
    assert Written(plans, s, (kind, snapshot.key));
  }

  // ---------- Two schedules ----------

  lemma OneMore(plans: seq<Plan>, now: int, ops: seq<Op>, op: Op)
    requires CanRun(plans, now, ops) && Enabled(plans, After(plans, now, ops), op)
    ensures CanRun(plans, now, ops + [op])
    ensures After(plans, now, ops + [op]) == Step(plans, After(plans, now, ops), op)
  {
    assert (ops + [op])[..|ops|] == ops;
  }

  function FailingDocs(key: string): seq<Plan> {
    [Plan(Test, key, true, true, true), Plan(TestDocs, key, true, false, true)]
  }

  function PassingDocs(key: string): seq<Plan> {
    [Plan(Test, key, true, true, true), Plan(TestDocs, key, true, true, true)]
  }

  function PassingTests(key: string): seq<Plan> {
    [Plan(Test, key, true, true, true), Plan(Test, key, true, true, true)]
  }

  /** In an empty store, both runs go past invalidation, then the tests of the second end. */
  const OVERLAP: seq<Op> := [Look(0, Test)] + [Look(0, TestDocs)] + [Look(1, Test)] + [Look(1, TestDocs)] + [Finish(1)]

  lemma OverlapRuns(plans: seq<Plan>, key: string, now: int)
    requires plans == FailingDocs(key) || plans == PassingDocs(key) || plans == PassingTests(key)
    ensures CanRun(plans, now, OVERLAP)
    ensures After(plans, now, OVERLAP) ==
      State(map[], [Run(Test, key, true, false, false, now), Run(plans[1].kind, key, true, plans[1].passed, true, now)],
            [Running(0), Tested(1)], map[], now)
  {
    var first := [Look(0, Test)] + [Look(0, TestDocs)];
    OneMore(plans, now, [], Look(0, Test));
    assert [] + [Look(0, Test)] == [Look(0, Test)];
    OneMore(plans, now, [Look(0, Test)], Look(0, TestDocs));
    assert After(plans, now, first) ==
      State(map[], [Run(Test, key, true, false, false, now)], [Running(0), Waiting({})], map[], now);
    OneMore(plans, now, first, Look(1, Test));
    OneMore(plans, now, first + [Look(1, Test)], Look(1, TestDocs));
    OneMore(plans, now, first + [Look(1, Test)] + [Look(1, TestDocs)], Finish(1));
  }

  /**
    A `test` and a `test-docs` run of one key overlap; the first passes, the
    second fails. At the end a receipt hits although the last run past
    invalidation failed, and was of another kind.
   */
  lemma OverlapLeavesAStaleReceipt(key: string, now: int)
    ensures var plans, ops := FailingDocs(key), OVERLAP + [Finish(0)] + [Save(0)];
      && CanRun(plans, now, ops) && Deterministic(plans, (kind, _) => kind == Test)
      && var s := After(plans, now, ops);
      && ReceiptDecision(s.files, Test, Some(Snapshot(key, "")), now, false, true).reused
      && LastRun(s.history, key) == Some(Run(TestDocs, key, true, false, true, now)) && !AllProvenIn(s)
  {
    var plans := FailingDocs(key);
    OverlapRuns(plans, key, now);
    OneMore(plans, now, OVERLAP, Finish(0));
    OneMore(plans, now, OVERLAP + [Finish(0)], Save(0));
    var s := After(plans, now, OVERLAP + [Finish(0)] + [Save(0)]);
    LastRunAt(s.history, key, 1);
    assert (Test, key) in s.files;
  }

  /** The same overlap with two successes leaves receipts of both kinds for one key. */
  lemma OverlapLeavesBothKinds(key: string, now: int)
    ensures var plans, ops := PassingDocs(key), OVERLAP + [Finish(0)] + [Save(0)] + [Save(1)];
      && CanRun(plans, now, ops) && Deterministic(plans, (_, _) => true)
      && var s := After(plans, now, ops);
      forall kind :: ReceiptDecision(s.files, kind, Some(Snapshot(key, "")), now, false, true).reused
  {
    var plans := PassingDocs(key);
    OverlapRuns(plans, key, now);
    OneMore(plans, now, OVERLAP, Finish(0));
    OneMore(plans, now, OVERLAP + [Finish(0)], Save(0));
    OneMore(plans, now, OVERLAP + [Finish(0)] + [Save(0)], Save(1));
    var s := After(plans, now, OVERLAP + [Finish(0)] + [Save(0)] + [Save(1)]);
    forall kind ensures (kind, key) in s.files && s.files[(kind, key)] == Receipt(VERSION, kind, key, now) {
      assert kind == Test || kind == TestDocs;
    }
  }

  /** A save after the entry of a later run is not late when that run has become a success of the same kind. */
  lemma OverlapOfSuccessesIsProven(key: string, now: int)
    ensures var plans, ops := PassingTests(key), OVERLAP + [Finish(0)] + [Save(0)];
      CanRun(plans, now, ops) && (Test, key) in After(plans, now, ops).files && AllProvenIn(After(plans, now, ops))
  {
    var plans := PassingTests(key);
    OverlapRuns(plans, key, now);
    OneMore(plans, now, OVERLAP, Finish(0));
    OneMore(plans, now, OVERLAP + [Finish(0)], Save(0));
    LastRunAt(After(plans, now, OVERLAP + [Finish(0)] + [Save(0)]).history, key, 1);
  }
}
