/**
  Freeze-then-kill cancellation of a process tree
  (scripts/push-process-tree.mjs). The system keeps moving between any two of
  our calls; each call below first lets it run for as long as it likes.
 */
module ProcessStop {
  import opened Options
  import opened ProcessTables
  import opened ProcessOs

  /** One call on the system, with its outcome; an observation has its table, a kill the state it found. */
  datatype Event =
    | Observed(ok: bool, table: seq<Row>)
    | StopSent(target: nat, wholeGroup: bool, ok: bool)
    | KillSent(target: nat, ok: bool, at: Os)

  predicate AllOk(log: seq<Event>) {
    forall i :: 0 <= i < |log| ==> log[i].ok
  }

  /** A failed observation or a denied signal is the last thing that happens. */
  predicate NothingAfterFailure(log: seq<Event>) {
    forall i :: 0 <= i < |log| - 1 ==> log[i].ok
  }

  predicate LastFailed(log: seq<Event>) {
    log != [] && !log[|log| - 1].ok
  }

  /** The tables of the observations that succeeded, in order. */
  function Tables(log: seq<Event>): seq<seq<Row>> {
    if log == [] then []
    else
      var last := log[|log| - 1];
      Tables(log[..|log| - 1]) + if last.Observed? && last.ok then [last.table] else []
  }

  lemma TablesAppend(log: seq<Event>, e: Event)
    ensures Tables(log + [e]) == Tables(log) + if e.Observed? && e.ok then [e.table] else []
  {
    assert (log + [e])[..|log|] == log;
  }

  function TableOr(table: Option<seq<Row>>): seq<Row> {
    if table.Some? then table.value else []
  }

  ghost predicate Evolved(before: Os, after: Os, root: nat) {
    exists acts :: CanRun(before, root, acts) && after == Run(before, root, acts)
  }

  lemma {:induction false} RunAppend(os: Os, root: nat, first: seq<Act>, second: seq<Act>)
    requires CanRun(os, root, first) && CanRun(Run(os, root, first), root, second)
    ensures CanRun(os, root, first + second) && Run(os, root, first + second) == Run(Run(os, root, first), root, second)
    decreases |first|
  {
    if first == [] {
      assert first + second == second;
    } else {
      assert (first + second)[0] == first[0] && (first + second)[1..] == first[1..] + second;
      RunAppend(Apply(os, root, first[0]), root, first[1..], second);
    }
  }

  lemma EvolvedTwice(a: Os, b: Os, c: Os, root: nat)
    requires Evolved(a, b, root) && Evolved(b, c, root)
    ensures Evolved(a, c, root)
  {
    var first :| CanRun(a, root, first) && b == Run(a, root, first);
    var second :| CanRun(b, root, second) && c == Run(b, root, second);
    RunAppend(a, root, first, second);
  }

  lemma EvolvedNever(os: Os, root: nat)
    ensures Evolved(os, os, root)
  {
    assert CanRun(os, root, []);
  }

  function Killed(os: Os, p: nat): Os {
    if p in os.procs && os.procs[p].state != Zombie then SetState(os, p, Doomed) else os
  }

  /** The calls the cancellation makes; the outcome of each is up to the system. */
  class System {
    const root: nat
    var os: Os
    var log: seq<Event>

    ghost predicate Valid()
      reads this
    {
      root > 0 && ValidOs(os, root)
    }

    constructor (root: nat, os: Os)
      requires root > 0 && ValidOs(os, root)
      ensures Valid() && this.root == root && this.os == os && log == []
    {
      this.root, this.os, this.log := root, os, [];
    }

    method Elapse()
      requires Valid()
      modifies this`os
      ensures Valid() && Evolved(old(os), os, root)
    {
      var acts: seq<Act> :| CanRun(os, root, acts);
      RunKeepsValid(os, root, acts);
      os := Run(os, root, acts);
    }

    method Observe() returns (table: Option<seq<Row>>)
      requires Valid()
      modifies this
      ensures Valid() && Evolved(old(os), os, root)
      ensures log == old(log) + [Observed(table.Some?, TableOr(table))]
      ensures table.Some? ==> Faithful(table.value, os)
    {
      Elapse();
      table :| table.Some? ==> Faithful(table.value, os);
      log := log + [Observed(table.Some?, TableOr(table))];
    }

    /** SIGSTOP; a process it reaches stops at some later moment, which `Halt` stands for. */
    method Stop(target: nat, wholeGroup: bool) returns (ok: bool)
      requires Valid()
      modifies this
      ensures Valid() && Evolved(old(os), os, root)
      ensures log == old(log) + [StopSent(target, wholeGroup, ok)]
    {
      Elapse();
      ok :| ok ==> wholeGroup || target in os.procs;
      log := log + [StopSent(target, wholeGroup, ok)];
    }

    method Kill(target: nat) returns (ok: bool, ghost at: Os)
      requires Valid() && target != REAPER
      modifies this
      ensures Valid() && log == old(log) + [KillSent(target, ok, at)]
      ensures Evolved(old(os), at, root)
      ensures os == if ok then Killed(at, target) else at
    {
      Elapse();
      at := os;
      ok :| ok ==> target in os.procs;
      log := log + [KillSent(target, ok, os)];
      if ok {
        os := Killed(os, target);
        if os != at {
          UpdateKeepsValid(at, root, target, at.procs[target].(state := Doomed));
        }
      }
    }
  }

  // ---------- Freezing ----------

  /** The rows are the whole tree of `root` in `os`, parents first, and every one is stopped. */
  ghost predicate FrozenRows(rows: seq<Row>, os: Os, root: nat) {
    && Distinct(rows) && ParentFirst(rows, root) && Pids(rows) == Tree(OsLinks(os), root)
    && (forall i :: 0 <= i < |rows| ==> FrozenRow(rows[i], os))
  }

  predicate FrozenRow(row: Row, os: Os) {
    row.pid in os.procs && FaithfulRow(row, os.procs[row.pid]) && os.procs[row.pid].state == Stopped
  }

  predicate NoKills(log: seq<Event>) {
    forall i :: 0 <= i < |log| ==> !log[i].KillSent?
  }

  /** The SIGSTOPs sent after the first `start` events go exactly to the rows not yet seen stopped. */
  ghost predicate StopsUnstopped(log: seq<Event>, start: nat, rows: seq<Row>) {
    && (forall i :: 0 <= i < |rows| && 'T' !in rows[i].stat ==> SentTo(log, start, rows[i].pid))
    && (forall i :: start <= i < |log| && log[i].StopSent? ==>
          !log[i].wholeGroup && Unstopped(rows, log[i].target))
  }

  predicate Unstopped(rows: seq<Row>, pid: nat) {
    exists j :: 0 <= j < |rows| && rows[j].pid == pid && 'T' !in rows[j].stat
  }

  ghost predicate SentTo(log: seq<Event>, start: nat, pid: nat) {
    exists i :: start <= i < |log| && log[i] == StopSent(pid, false, true)
  }

  /**
    One round: observe, recompute the tree, re-check what was owned, take the
    observation over and stop whatever still runs. A round that does not fail
    leaves exactly the observed tree owned, with earlier rows where they were.
   */
  method FreezeRound(sys: System, before: seq<Row>)
    returns (owned: Option<seq<Row>>, frozen: bool, ghost seen: Os)
    requires sys.Valid() && AllOk(sys.log) && NoKills(sys.log)
    requires Distinct(before) && ParentFirst(before, sys.root) && OwnedFrom(before, Tables(sys.log), sys.root)
    modifies sys
    ensures sys.Valid() && NoKills(sys.log) && NothingAfterFailure(sys.log)
    ensures Evolved(old(sys.os), seen, sys.root) && Evolved(seen, sys.os, sys.root)
    // It fails only on a call that failed or a snapshot that does not fit the one before.
    ensures old(sys.log) <= sys.log && (owned.None? ==> RoundFailed(sys.log, sys.root))
    ensures owned.Some? ==> OneMoreTable(Tables(old(sys.log)), Tables(sys.log), owned.value, frozen, sys.root)
    ensures owned.Some? ==> AllOk(sys.log) && TakenOver(owned.value, before, seen, sys.root)
    ensures owned.Some? ==> |old(sys.log)| < |sys.log| && StopsUnstopped(sys.log, |old(sys.log)| + 1, owned.value)
    ensures owned.Some? && frozen ==> sys.os == seen && FrozenRows(owned.value, sys.os, sys.root)
  {
    frozen, owned := false, None;
    var table := Look(sys);
    seen := sys.os;
    EvolvedNever(seen, sys.root);
    if table.Some? {
      owned, frozen := Respond(sys, table.value, before, Tables(old(sys.log)));
    }
  }

  /** The observation of a round. */
  method Look(sys: System) returns (table: Option<seq<Row>>)
    requires sys.Valid() && AllOk(sys.log) && NoKills(sys.log)
    modifies sys
    ensures sys.Valid() && NoKills(sys.log) && NothingAfterFailure(sys.log)
    ensures |sys.log| == |old(sys.log)| + 1 && old(sys.log) <= sys.log
    ensures Evolved(old(sys.os), sys.os, sys.root)
    ensures table.None? ==> RoundFailed(sys.log, sys.root)
    ensures table.Some? ==> AllOk(sys.log) && Faithful(table.value, sys.os)
    ensures table.Some? ==> Tables(sys.log) == Tables(old(sys.log)) + [table.value]
  {
    table := sys.Observe();
    TablesAppend(old(sys.log), Observed(table.Some?, TableOr(table)));
    if table.None? {
      FailedRound(sys.log, sys.root);
    }
  }

  /** A call failed, or the last snapshot does not fit the one before it. */
  ghost predicate RoundFailed(log: seq<Event>, root: nat) {
    LastFailed(log) || BadLast(Tables(log), root)
  }

  lemma FailedRound(log: seq<Event>, root: nat)
    requires LastFailed(log) || BadLast(Tables(log), root)
    ensures RoundFailed(log, root)
  {}

  /** The rows are those of the tree in the table. */
  ghost predicate TreeRows(rows: seq<Row>, table: seq<Row>, root: nat) {
    Distinct(rows) && RowsOf(rows, table) && Pids(rows) == Tree(TableLinks(table), root)
  }

  /** What is owned comes from the last table, if there is one. */
  ghost predicate OwnedFrom(rows: seq<Row>, tables: seq<seq<Row>>, root: nat) {
    if tables == [] then rows == [] else TreeRows(rows, tables[|tables| - 1], root)
  }

  /** The last table cannot be acted on after what was owned from the one before it. */
  ghost predicate BadLast(tables: seq<seq<Row>>, root: nat) {
    tables != [] &&
    var n := |tables| - 1;
    exists before :: OwnedFrom(before, tables[..n], root) && !Acceptable(tables[n], before, root)
  }

  lemma SnapshotIsBad(tables: seq<seq<Row>>, table: seq<Row>, before: seq<Row>, root: nat)
    requires OwnedFrom(before, tables, root) && !Acceptable(table, before, root)
    ensures BadLast(tables + [table], root)
  {
    assert (tables + [table])[..|tables|] == tables;
  }

  /** Every process of the tree is seen stopped. */
  ghost predicate FrozenTable(table: seq<Row>, root: nat) {
    forall t :: 0 <= t < |table| && table[t].pid in Tree(TableLinks(table), root) ==> 'T' in table[t].stat
  }

  ghost predicate OneMoreTable(before: seq<seq<Row>>, after: seq<seq<Row>>, rows: seq<Row>, frozen: bool, root: nat) {
    && |after| == |before| + 1 && after[..|before|] == before
    && TreeRows(rows, after[|before|], root) && (frozen <==> FrozenTable(after[|before|], root))
  }

  lemma StoppedTable(table: seq<Row>, related: seq<Row>, root: nat)
    requires Distinct(table) && TreeRows(related, table, root)
    ensures AllStopped(related) <==> FrozenTable(table, root)
  {
    forall t | 0 <= t < |table| && table[t].pid in Tree(TableLinks(table), root) ensures RowOf(related, table[t]) {
      var i := Place(related, table[t].pid);
      assert RowOf(table, related[i]);
    }
    forall i | 0 <= i < |related| ensures RowOf(table, related[i]) && related[i].pid in Tree(TableLinks(table), root) {
      assert related[i].pid in Pids(related);
    }
  }

  /** The part of a round after its observation. */
  method Respond(sys: System, table: seq<Row>, before: seq<Row>, ghost tables: seq<seq<Row>>)
    returns (owned: Option<seq<Row>>, frozen: bool)
    requires sys.Valid() && AllOk(sys.log) && NoKills(sys.log) && Faithful(table, sys.os)
    requires Distinct(before) && ParentFirst(before, sys.root) && OwnedFrom(before, tables, sys.root)
    requires Tables(sys.log) == tables + [table]
    modifies sys
    ensures sys.Valid() && NoKills(sys.log) && NothingAfterFailure(sys.log) && Evolved(old(sys.os), sys.os, sys.root)
    ensures Tables(sys.log) == Tables(old(sys.log)) && old(sys.log) <= sys.log
    ensures owned.None? ==> RoundFailed(sys.log, sys.root)
    ensures owned.Some? ==> OneMoreTable(tables, Tables(sys.log), owned.value, frozen, sys.root)
    ensures owned.Some? ==> AllOk(sys.log) && TakenOver(owned.value, before, old(sys.os), sys.root)
    ensures owned.Some? ==> |old(sys.log)| <= |sys.log| && StopsUnstopped(sys.log, |old(sys.log)|, owned.value)
    ensures owned.Some? && frozen ==> sys.os == old(sys.os) && FrozenRows(owned.value, sys.os, sys.root)
  {
    owned := None;
    EvolvedNever(sys.os, sys.root);
    var related;
    related, frozen := Examine(table, before, sys.root);
    if related.None? {
      SnapshotIsBad(tables, table, before, sys.root);
      FailedRound(sys.log, sys.root);
      return;
    }
    var ok, rows := Adopt(sys, before, related.value);
    TablesAfterStops(old(sys.log), sys.log);
    if !ok {
      FailedRound(sys.log, sys.root);
      return;
    }
    TakesOver(table, old(sys.os), sys.root, before, related.value, sys.log, |old(sys.log)|);
    StoppedTable(table, related.value, sys.root);
    owned := Some(rows);
  }

  /** The rows are exactly the tree of `root` in `os`, parents first, and those of `before` have kept their places. */
  ghost predicate TakenOver(rows: seq<Row>, before: seq<Row>, os: Os, root: nat) {
    && Distinct(rows) && ParentFirst(rows, root) && SamePlaces(before, rows)
    && Pids(rows) == Tree(OsLinks(os), root) && root in Pids(rows)
  }

  lemma TakesOver(table: seq<Row>, os: Os, root: nat, before: seq<Row>, related: seq<Row>, log: seq<Event>, start: nat)
    requires Faithful(table, os) && Distinct(before) && ParentFirst(before, root)
    requires Examined(related, table, before, root)
    requires StopsUnstopped(log, start, related)
    ensures TakenOver(SetAll(before, related), before, os, root) && TreeRows(SetAll(before, related), table, root)
    ensures StopsUnstopped(log, start, SetAll(before, related))
    ensures AllStopped(related) ==> FrozenRows(SetAll(before, related), os, root)
  {
    var rows := SetAll(before, related);
    FaithfulLinks(table, os);
    AdoptAll(before, related, root);
    AdoptedSameRows(related, rows);
    forall i | 0 <= i < |rows| ensures RowOf(table, rows[i]) {
      assert RowOf(rows, rows[i]);
    }
    StopsSameRows(log, start, related, rows);
    if AllStopped(related) {
      FrozenObservation(table, os, root, related, rows);
    }
  }

  /** The part of a round that only looks: the tree, the re-check, and whether all of it is stopped. */
  method Examine(table: seq<Row>, before: seq<Row>, root: nat) returns (result: Option<seq<Row>>, frozen: bool)
    requires Distinct(table)
    // Acted on exactly when the root leads its group, every earlier row is still in the tree with its parent and
    // group, whatever its state, and no row of the tree is a zombie or has no group.
    ensures result.Some? <==>
      && (exists t :: 0 <= t < |table| && table[t].pid == root && table[t].group == root)
      && (forall i :: 0 <= i < |before| ==>
            before[i].pid in Tree(TableLinks(table), root) &&
            exists t :: 0 <= t < |table| && table[t].pid == before[i].pid && table[t].parent == before[i].parent
              && table[t].group == before[i].group)
      && (forall t :: 0 <= t < |table| && table[t].pid in Tree(TableLinks(table), root) ==>
            table[t].group != 0 && 'Z' !in table[t].stat)
    ensures result.Some? <==> Acceptable(table, before, root)
    ensures result.Some? ==> Examined(result.value, table, before, root) && frozen == AllStopped(result.value)
  {
    result, frozen := None, false;
    AcceptableInFields(table, before, root);
    var top := Find(table, root);
    if top.None? || top.value.group != root { return; }
    var related := RelatedRows(table, root);
    RelatedAcceptable(table, before, root, related);
    RootIsRelated(table, root);
    if !Consistent(before, related) { return; }
    if exists i :: 0 <= i < |related| && Unusable(related[i]) { return; }
    frozen := AllStopped(related);
    result := Some(related);
  }

  predicate AllStopped(rows: seq<Row>) {
    forall i :: 0 <= i < |rows| ==> 'T' in rows[i].stat
  }

  /** The rows are exactly the tree in the table, parents first, and fit what was owned before. */
  ghost predicate Examined(related: seq<Row>, table: seq<Row>, before: seq<Row>, root: nat) {
    && Distinct(related) && RowsOf(related, table) && ParentFirst(related, root) && Consistent(before, related)
    && Pids(related) == Tree(TableLinks(table), root) && root in Pids(related)
  }

  lemma RootIsRelated(table: seq<Row>, root: nat)
    requires Distinct(table) && Find(table, root).Some? && Find(table, root).value.group == root
    ensures root in Tree(TableLinks(table), root)
  {
    TableLinksOfRow(table, Place(table, root));
    TreeIsLeast(TableLinks(table), root);
  }

  predicate Unusable(row: Row) {
    row.group == 0 || 'Z' in row.stat
  }

  /**
    A snapshot that can be acted on: the root leads its group, every owned row is
    still in the tree with its parent and group, and the tree holds no zombie
    and no process without a group.
   */
  ghost predicate Acceptable(table: seq<Row>, before: seq<Row>, root: nat) {
    var tree := Tree(TableLinks(table), root);
    && Find(table, root).Some? && Find(table, root).value.group == root
    && (forall i :: 0 <= i < |before| ==> before[i].pid in tree && Unmoved(before[i], Find(table, before[i].pid)))
    && (forall i :: 0 <= i < |table| && table[i].pid in tree ==> !Unusable(table[i]))
  }

  lemma AcceptableInFields(table: seq<Row>, before: seq<Row>, root: nat)
    requires Distinct(table)
    ensures Acceptable(table, before, root) <==>
      && (exists t :: 0 <= t < |table| && table[t].pid == root && table[t].group == root)
      && (forall i :: 0 <= i < |before| ==>
            before[i].pid in Tree(TableLinks(table), root) &&
            exists t :: 0 <= t < |table| && table[t].pid == before[i].pid && table[t].parent == before[i].parent
              && table[t].group == before[i].group)
      && (forall t :: 0 <= t < |table| && table[t].pid in Tree(TableLinks(table), root) ==>
            table[t].group != 0 && 'Z' !in table[t].stat)
  {
    RowInTable(table, root);
    forall i | 0 <= i < |before|
      ensures Unmoved(before[i], Find(table, before[i].pid)) <==>
        exists t :: 0 <= t < |table| && table[t].pid == before[i].pid && table[t].parent == before[i].parent
          && table[t].group == before[i].group
    {
      RowInTable(table, before[i].pid);
    }
  }

  /** The row of a process, when there is one, is the only one. */
  lemma RowInTable(table: seq<Row>, pid: nat)
    requires Distinct(table)
    ensures Find(table, pid).Some? <==> exists t :: 0 <= t < |table| && table[t].pid == pid
    ensures forall t :: 0 <= t < |table| && table[t].pid == pid ==> Find(table, pid) == Some(table[t])
  {
    forall t | 0 <= t < |table| && table[t].pid == pid ensures Find(table, pid) == Some(table[t]) {
      FindUnique(table, t);
    }
    if Find(table, pid).Some? {
      assert table[Place(table, pid)].pid == pid;
    }
  }

  lemma RelatedAcceptable(table: seq<Row>, before: seq<Row>, root: nat, related: seq<Row>)
    requires Distinct(table) && Distinct(related) && RowsOf(related, table)
    requires Pids(related) == Tree(TableLinks(table), root)
    requires Find(table, root).Some? && Find(table, root).value.group == root
    ensures Acceptable(table, before, root) <==>
      Consistent(before, related) && forall i :: 0 <= i < |related| ==> !Unusable(related[i])
  {
    forall p | p in Pids(related) ensures Find(related, p) == Find(table, p) {
      var i := Place(related, p);
      assert RowOf(table, related[i]);
      var t :| 0 <= t < |table| && table[t] == related[i];
      FindUnique(table, t);
    }
    forall i | 0 <= i < |related| ensures related[i].pid in Pids(related) && RowOf(table, related[i]) {}
    forall t | 0 <= t < |table| && table[t].pid in Pids(related) ensures RowOf(related, table[t]) {
      FindUnique(table, t);
      assert related[Place(related, table[t].pid)] == table[t];
    }
  }

  lemma AdoptedSameRows(related: seq<Row>, rows: seq<Row>)
    requires Distinct(related) && Distinct(rows) && Pids(rows) == Pids(related)
    requires forall i :: 0 <= i < |rows| ==> Find(related, rows[i].pid) == Some(rows[i])
    ensures forall r :: RowOf(rows, r) <==> RowOf(related, r)
  {
    forall r | RowOf(related, r) ensures RowOf(rows, r) {
      var m :| 0 <= m < |related| && related[m] == r;
      FindUnique(related, m);
      assert r.pid in Pids(related);
      var i := Place(rows, r.pid);
      assert rows[i] == r;
    }
  }

  method Adopt(sys: System, before: seq<Row>, related: seq<Row>) returns (ok: bool, owned: seq<Row>)
    requires sys.Valid() && AllOk(sys.log) && NoKills(sys.log)
    modifies sys
    ensures sys.Valid() && NoKills(sys.log) && NothingAfterFailure(sys.log) && Evolved(old(sys.os), sys.os, sys.root)
    ensures OnlyStops(old(sys.log), sys.log) && (!ok ==> LastFailed(sys.log))
    ensures ok ==> owned == SetAll(before, related) && AllOk(sys.log)
    ensures ok ==> |old(sys.log)| <= |sys.log| && StopsUnstopped(sys.log, |old(sys.log)|, related)
    ensures ok && AllStopped(related) ==> sys.os == old(sys.os) && sys.log == old(sys.log)
  {
    owned := before;
    ok := true;
    EvolvedNever(sys.os, sys.root);
    for i := 0 to |related|
      invariant sys.Valid() && Evolved(old(sys.os), sys.os, sys.root)
      invariant owned == SetAll(before, related[..i]) && Stopping(old(sys.log), sys.log, related[..i])
      invariant AllStopped(related[..i]) ==> sys.os == old(sys.os) && sys.log == old(sys.log)
    {
      owned := SetRow(owned, related[i]);
      assert related[..i + 1][..i] == related[..i];
      ghost var log, os := sys.log, sys.os;
      ok := StopRow(sys, related[i]);
      EvolvedTwice(old(sys.os), os, sys.os, sys.root);
      StoppingOneMore(old(sys.log), log, sys.log, related, i, ok);
      if !ok { return; }
    }
    assert related[..|related|] == related;
  }

  /** Since `start` there were only SIGSTOPs, all delivered, to exactly the rows not seen stopped. */
  ghost predicate Stopping(start: seq<Event>, log: seq<Event>, rows: seq<Row>) {
    AllOk(log) && NoKills(log) && OnlyStops(start, log) && StopsUnstopped(log, |start|, rows)
  }

  lemma StoppingOneMore(start: seq<Event>, log: seq<Event>, next: seq<Event>, related: seq<Row>, i: nat, ok: bool)
    requires i < |related| && Stopping(start, log, related[..i])
    requires if 'T' in related[i].stat then ok && next == log else next == log + [StopSent(related[i].pid, false, ok)]
    ensures NoKills(next) && NothingAfterFailure(next) && OnlyStops(start, next) && (!ok ==> LastFailed(next))
    ensures ok ==> Stopping(start, next, related[..i + 1])
  {
    if ok {
      StopsOneMore(log, next, |start|, related, i);
    }
  }

  /** SIGSTOP to a row that is not seen stopped. */
  method StopRow(sys: System, row: Row) returns (ok: bool)
    requires sys.Valid()
    modifies sys
    ensures sys.Valid() && Evolved(old(sys.os), sys.os, sys.root)
    ensures 'T' in row.stat ==> ok && sys.os == old(sys.os) && sys.log == old(sys.log)
    ensures 'T' !in row.stat ==> sys.log == old(sys.log) + [StopSent(row.pid, false, ok)]
  {
    ok := true;
    EvolvedNever(sys.os, sys.root);
    if 'T' !in row.stat { ok := sys.Stop(row.pid, false); }
  }

  /** Nothing but SIGSTOPs was added. */
  predicate OnlyStops(log: seq<Event>, more: seq<Event>) {
    log <= more && forall i :: |log| <= i < |more| ==> more[i].StopSent?
  }

  lemma {:induction false} TablesAfterStops(log: seq<Event>, more: seq<Event>)
    requires OnlyStops(log, more)
    ensures Tables(more) == Tables(log)
    decreases |more|
  {
    if |log| < |more| {
      TablesAfterStops(log, more[..|more| - 1]);
    } else {
      assert more == log;
    }
  }

  lemma StopsOneMore(log: seq<Event>, next: seq<Event>, start: nat, related: seq<Row>, i: nat)
    requires start <= |log| && i < |related| && StopsUnstopped(log, start, related[..i])
    requires next == if 'T' in related[i].stat then log else log + [StopSent(related[i].pid, false, true)]
    ensures StopsUnstopped(next, start, related[..i + 1])
  {
    forall j | 0 <= j < i + 1 && 'T' !in related[j].stat ensures SentTo(next, start, related[j].pid) {
      if j < i {
        assert related[..i][j] == related[j];
        var k :| start <= k < |log| && log[k] == StopSent(related[j].pid, false, true);
        assert next[k] == log[k];
      } else {
        assert next[|log|] == StopSent(related[j].pid, false, true);
      }
    }
    forall k | start <= k < |next| && next[k].StopSent?
      ensures !next[k].wholeGroup
      ensures Unstopped(related[..i + 1], next[k].target)
    {
      if k < |log| {
        assert next[k] == log[k];
        assert Unstopped(related[..i], log[k].target);
        var j :| 0 <= j < i && related[..i][j].pid == log[k].target && 'T' !in related[..i][j].stat;
        assert related[..i + 1][j] == related[..i][j];
      } else {
        assert related[..i + 1][i] == related[i];
      }
    }
  }

  lemma StopsSameRows(log: seq<Event>, start: nat, related: seq<Row>, rows: seq<Row>)
    requires StopsUnstopped(log, start, related)
    requires forall r :: RowOf(rows, r) <==> RowOf(related, r)
    ensures StopsUnstopped(log, start, rows)
  {
    forall i | 0 <= i < |rows| && 'T' !in rows[i].stat ensures SentTo(log, start, rows[i].pid) {
      assert RowOf(rows, rows[i]);
      var j :| 0 <= j < |related| && related[j] == rows[i];
    }
    forall k | start <= k < |log| && log[k].StopSent?
      ensures Unstopped(rows, log[k].target)
    {
      assert Unstopped(related, log[k].target);
      var j :| 0 <= j < |related| && related[j].pid == log[k].target && 'T' !in related[j].stat;
      assert RowOf(related, related[j]);
      var i :| 0 <= i < |rows| && rows[i] == related[j];
    }
  }

  lemma FrozenObservation(table: seq<Row>, os: Os, root: nat, related: seq<Row>, rows: seq<Row>)
    requires Faithful(table, os) && RowsOf(related, table)
    requires Distinct(rows) && ParentFirst(rows, root) && Pids(rows) == Tree(OsLinks(os), root)
    requires AllStopped(related)
    requires forall i :: 0 <= i < |rows| ==> Find(related, rows[i].pid) == Some(rows[i])
    ensures FrozenRows(rows, os, root)
  {
    forall i | 0 <= i < |rows| ensures FrozenRow(rows[i], os) {
      var m := Place(related, rows[i].pid);
      assert RowOf(table, related[m]);
      var t :| 0 <= t < |table| && table[t] == related[m];
      assert table[t].pid in Pids(table);
    }
  }

  /** Up to twenty rounds; success leaves the whole tree owned, stopped and unchanged since it was seen. */
  method FreezeTree(sys: System) returns (owned: Option<seq<Row>>)
    requires sys.Valid() && sys.log == []
    modifies sys
    ensures sys.Valid() && NoKills(sys.log) && NothingAfterFailure(sys.log)
    ensures Evolved(old(sys.os), sys.os, sys.root)
    ensures owned.Some? ==> AllOk(sys.log) && FrozenRows(owned.value, sys.os, sys.root) && sys.root in Pids(owned.value)
    ensures owned.None? ==> NotFrozen(sys.log, sys.root)
    ensures GroupFirst(sys.log, sys.root)
  {
    var ok := sys.Stop(sys.root, true);
    assert sys.log == [StopSent(sys.root, true, ok)];
    if !ok {
      FailedIsNotFrozen(sys.log, sys.root);
      return None;
    }
    ghost var os := sys.os;
    owned := FreezeRounds(sys);
    EvolvedTwice(old(sys.os), os, sys.os, sys.root);
  }

  method FreezeRounds(sys: System) returns (owned: Option<seq<Row>>)
    requires sys.Valid() && sys.log == [StopSent(sys.root, true, true)]
    modifies sys
    ensures sys.Valid() && NoKills(sys.log) && NothingAfterFailure(sys.log)
    ensures Evolved(old(sys.os), sys.os, sys.root)
    ensures owned.Some? ==> AllOk(sys.log) && FrozenRows(owned.value, sys.os, sys.root) && sys.root in Pids(owned.value)
    ensures owned.None? ==> NotFrozen(sys.log, sys.root)
    ensures GroupFirst(sys.log, sys.root)
  {
    var rows: seq<Row> := [];
    StartsFreezing(sys.root);
    EvolvedNever(sys.os, sys.root);
    for attempt := 0 to 20
      invariant sys.Valid() && Freezing(sys.log, rows, attempt, sys.root) && Evolved(old(sys.os), sys.os, sys.root)
    {
      ghost var os := sys.os;
      var next, frozen := TryFreeze(sys, rows, attempt);
      EvolvedTwice(old(sys.os), os, sys.os, sys.root);
      if next.None? || frozen { return next; }
      rows := next.value;
    }
    TwentyRounds(sys.log, rows, sys.root);
    return None;
  }

  lemma FailedIsNotFrozen(log: seq<Event>, root: nat)
    requires LastFailed(log)
    ensures NotFrozen(log, root)
  {}

  lemma TwentyRounds(log: seq<Event>, rows: seq<Row>, root: nat)
    requires Freezing(log, rows, 20, root)
    ensures NotFrozen(log, root) && NoKills(log) && NothingAfterFailure(log)
  {}

  /** The first thing done is to stop the whole root group. */
  predicate GroupFirst(log: seq<Event>, root: nat) {
    log != [] && log[0].StopSent? && log[0].target == root && log[0].wholeGroup
  }

  /** After so many rounds that did not fail: rows owned from the last table, and no table with everything stopped. */
  ghost predicate Freezing(log: seq<Event>, rows: seq<Row>, rounds: nat, root: nat) {
    && GroupFirst(log, root) && NoKills(log) && AllOk(log) && Distinct(rows) && ParentFirst(rows, root)
    && OwnedFrom(rows, Tables(log), root) && |Tables(log)| == rounds && NoneFrozen(Tables(log), root)
  }

  lemma StartsFreezing(root: nat)
    ensures Freezing([StopSent(root, true, true)], [], 0, root)
  {
    TablesAppend([], StopSent(root, true, true));
    assert [] + [StopSent(root, true, true)] == [StopSent(root, true, true)];
  }

  /** A round, and a pause when something still runs. */
  method TryFreeze(sys: System, rows: seq<Row>, ghost rounds: nat) returns (next: Option<seq<Row>>, frozen: bool)
    requires sys.Valid() && Freezing(sys.log, rows, rounds, sys.root)
    modifies sys
    ensures sys.Valid() && NoKills(sys.log) && NothingAfterFailure(sys.log) && Evolved(old(sys.os), sys.os, sys.root)
    ensures GroupFirst(sys.log, sys.root) && (next.None? ==> NotFrozen(sys.log, sys.root))
    ensures next.Some? && frozen ==>
      AllOk(sys.log) && FrozenRows(next.value, sys.os, sys.root) && sys.root in Pids(next.value)
    ensures next.Some? && !frozen ==> Freezing(sys.log, next.value, rounds + 1, sys.root)
  {
    ghost var seen;
    next, frozen, seen := FreezeRound(sys, rows);
    EvolvedTwice(old(sys.os), seen, sys.os, sys.root);
    if next.Some? && !frozen {
      StillNoneFrozen(Tables(old(sys.log)), Tables(sys.log), next.value, sys.root);
      ghost var os := sys.os;
      sys.Elapse();
      EvolvedTwice(old(sys.os), os, sys.os, sys.root);
    }
  }

  ghost predicate NoneFrozen(tables: seq<seq<Row>>, root: nat) {
    forall i :: 0 <= i < |tables| ==> !FrozenTable(tables[i], root)
  }

  lemma StillNoneFrozen(before: seq<seq<Row>>, after: seq<seq<Row>>, rows: seq<Row>, root: nat)
    requires NoneFrozen(before, root) && OneMoreTable(before, after, rows, false, root)
    ensures NoneFrozen(after, root) && OwnedFrom(rows, after, root)
  {
    forall i | 0 <= i < |before| ensures !FrozenTable(after[i], root) {
      assert after[..|before|][i] == before[i];
    }
  }

  /** Why a tree was not frozen: a call failed, a snapshot did not fit, or in twenty snapshots something still ran. */
  ghost predicate NotFrozen(log: seq<Event>, root: nat) {
    || RoundFailed(log, root)
    || (|Tables(log)| == 20 && NoneFrozen(Tables(log), root))
  }

  // ---------- When freezing succeeds ----------

  /** The root leads its group, and every process of the tree has a group and is not a zombie. */
  ghost predicate Healthy(table: seq<Row>, root: nat) {
    && Distinct(table) && (exists t :: 0 <= t < |table| && table[t].pid == root && table[t].group == root)
    && (forall t :: 0 <= t < |table| && table[t].pid in Tree(TableLinks(table), root) ==>
          table[t].group != 0 && 'Z' !in table[t].stat)
  }

  /** Every process of the earlier tree is there again, with the same parent and group, in whatever state. */
  ghost predicate Related(earlier: seq<Row>, later: seq<Row>, root: nat) {
    forall s :: 0 <= s < |earlier| && earlier[s].pid in Tree(TableLinks(earlier), root) ==>
      exists t :: 0 <= t < |later| && later[t].pid == earlier[s].pid && later[t].parent == earlier[s].parent
        && later[t].group == earlier[s].group
  }

  /** Snapshots of a tree that lives on in place, and in one of the first twenty is stopped altogether. */
  ghost predicate Steady(tables: seq<seq<Row>>, root: nat) {
    && (forall n :: 0 <= n < |tables| ==> Healthy(tables[n], root))
    && (forall n :: 0 < n < |tables| ==> Related(tables[n - 1], tables[n], root))
    && (|tables| >= 20 ==> exists n :: 0 <= n < 20 && SeenStopped(tables[n], root))
  }

  /** Every process of the tree was seen stopped. */
  ghost predicate SeenStopped(table: seq<Row>, root: nat) {
    forall r :: r in table && r.pid in Tree(TableLinks(table), root) ==> 'T' in r.stat
  }

  lemma InTreeFor(links: Links, root: nat, p: nat)
    requires p in Tree(links, root)
    ensures p in links && (links[p].group == root || links[p].parent in Tree(links, root))
  {
    TreeIsLeast(links, root);
    var tree := Tree(links, root);
    var reasons := set q | q in tree && q in links && (links[q].group == root || links[q].parent in tree);
    assert ClosedFrom(links, root, reasons);
  }

  /** A tree whose processes are all related as before is still part of the tree. */
  lemma RelatedTree(earlier: seq<Row>, later: seq<Row>, root: nat)
    requires Distinct(earlier) && Distinct(later) && Related(earlier, later, root)
    ensures Tree(TableLinks(earlier), root) <= Tree(TableLinks(later), root)
  {
    var a, b := TableLinks(earlier), TableLinks(later);
    TreeIsLeast(a, root);
    TreeIsLeast(b, root);
    var kept := Tree(b, root) + (a.Keys - Tree(a, root));
    forall p | p in Tree(a, root) ensures p in b && p in a && b[p] == a[p] {
      var s := Place(earlier, p);
      TableLinksOfRow(earlier, s);
      var t :| 0 <= t < |later| && later[t].pid == earlier[s].pid && later[t].parent == earlier[s].parent
        && later[t].group == earlier[s].group;
      TableLinksOfRow(later, t);
    }
    assert ClosedFrom(a, root, kept) by {
      forall p | p in a && a[p].parent in kept ensures p in kept {
        if p in Tree(a, root) {
          InTreeFor(a, root, p);
        }
      }
    }
  }

  lemma SteadyIsAcceptable(tables: seq<seq<Row>>, root: nat, before: seq<Row>)
    requires tables != [] && Steady(tables, root) && OwnedFrom(before, tables[..|tables| - 1], root)
    ensures Acceptable(tables[|tables| - 1], before, root)
  {
    var n := |tables| - 1;
    assert Healthy(tables[n], root);
    AcceptableInFields(tables[n], before, root);
    if n > 0 {
      var earlier := tables[n - 1];
      assert Healthy(earlier, root) && Related(earlier, tables[n], root) && tables[..n][n - 1] == earlier;
      RelatedTree(earlier, tables[n], root);
      forall i | 0 <= i < |before|
        ensures before[i].pid in Tree(TableLinks(tables[n]), root)
        ensures RelatedRow(before[i], tables[n])
      {
        assert RowOf(earlier, before[i]) && before[i].pid in Pids(before);
        var s :| 0 <= s < |earlier| && earlier[s] == before[i];
      }
    }
  }

  predicate RelatedRow(row: Row, table: seq<Row>) {
    exists t :: 0 <= t < |table| && table[t].pid == row.pid && table[t].parent == row.parent
      && table[t].group == row.group
  }

  /** When every call succeeds and the snapshots are steady, there is no reason not to freeze. */
  lemma SteadyIsFrozen(log: seq<Event>, root: nat)
    requires AllOk(log) && Steady(Tables(log), root)
    ensures !NotFrozen(log, root)
  {
    var tables := Tables(log);
    SteadyIsNotBad(tables, root);
    if |tables| == 20 {
      SomeFrozen(tables, root);
    }
  }

  lemma SteadyIsNotBad(tables: seq<seq<Row>>, root: nat)
    requires Steady(tables, root)
    ensures !BadLast(tables, root)
  {
    if BadLast(tables, root) {
      var n := |tables| - 1;
      var before :| OwnedFrom(before, tables[..n], root) && !Acceptable(tables[n], before, root);
      SteadyIsAcceptable(tables, root, before);
    }
  }

  lemma SomeFrozen(tables: seq<seq<Row>>, root: nat)
    requires Steady(tables, root) && |tables| >= 20
    ensures !NoneFrozen(tables, root)
  {
    var n :| 0 <= n < 20 &&
      (forall r :: r in tables[n] && r.pid in Tree(TableLinks(tables[n]), root) ==> 'T' in r.stat);
    assert FrozenTable(tables[n], root);
  }

  // ---------- Killing ----------

  ghost function Births(os: Os, root: nat): map<nat, nat> {
    map p | p in os.procs && Owned(os, root, p) :: os.procs[p].birth
  }

  lemma FreezeHolds(os: Os, root: nat, rows: seq<Row>)
    requires ValidOs(os, root) && FrozenRows(rows, os, root)
    ensures Held(os, root, Births(os, root), os.clock, rows)
    ensures REAPER !in Pids(rows)
  {
    var links, births := OsLinks(os), Births(os, root);
    TreeIsLeast(links, root);
    assert forall p :: Same(os, births, p) <==> p in Tree(links, root);
    forall i | 0 <= i < |rows| ensures Waiting(os, births, root, rows[i]) && rows[i].pid != REAPER {
      assert FrozenRow(rows[i], os) && rows[i].pid in Pids(rows);
    }
    forall p | p in os.procs && (os.procs[p].group == root || Same(os, births, os.procs[p].parent))
      ensures Same(os, births, p)
    {
      assert links[p] == Link(os.procs[p].parent, os.procs[p].group);
    }
  }

  lemma WithoutLast(rows: seq<Row>, root: nat, k: nat)
    requires k < |rows| && Distinct(rows[..k + 1]) && ParentFirst(rows[..k + 1], root)
    ensures Distinct(rows[..k]) && ParentFirst(rows[..k], root)
    ensures Pids(rows[..k]) == Pids(rows[..k + 1]) - {rows[k].pid}
  {
    var more, fewer := rows[..k + 1], rows[..k];
    forall i | 0 <= i < k ensures fewer[i] == more[i] && fewer[i].pid != rows[k].pid {
      assert more[i].pid != more[k].pid;
    }
    forall i | 0 <= i < k && fewer[i].group != root ensures Earlier(fewer, i, fewer[i].parent) {
      assert Earlier(more, i, more[i].parent);
      var j :| 0 <= j < i && more[j].pid == more[i].parent;
      assert fewer[j].pid == fewer[i].parent;
    }
    forall p | p in Pids(fewer) ensures p in Pids(more) {
      assert more[Place(fewer, p)].pid == p;
    }
  }

  lemma HeldKill(os: Os, root: nat, births: map<nat, nat>, since: nat, rows: seq<Row>, k: nat)
    requires k < |rows| && Held(os, root, births, since, rows[..k + 1])
    ensures Held(Killed(os, rows[k].pid), root, births, since, rows[..k])
    ensures Same(os, births, rows[k].pid) && Owned(os, root, rows[k].pid) && os.procs[rows[k].pid].state == Stopped
  {
    var more, fewer, p := rows[..k + 1], rows[..k], rows[k].pid;
    assert more[k] == rows[k] && Waiting(os, births, root, more[k]);
    HeldTree(os, root, births, since, more);
    WithoutLast(rows, root, k);
    KilledHeld(os, root, births, since, more, fewer, p);
  }

  lemma KilledHeld(os: Os, root: nat, births: map<nat, nat>, since: nat, more: seq<Row>, fewer: seq<Row>, p: nat)
    requires Held(os, root, births, since, more) && Same(os, births, p)
    requires Distinct(fewer) && ParentFirst(fewer, root) && fewer <= more && Pids(fewer) == Pids(more) - {p}
    ensures Held(Killed(os, p), root, births, since, fewer)
  {
    var next := Killed(os, p);
    assert forall q :: Same(next, births, q) <==> Same(os, births, q);
    forall i | 0 <= i < |fewer| ensures Waiting(next, births, root, fewer[i]) {
      assert Waiting(os, births, root, more[i]) && fewer[i].pid in Pids(fewer);
    }
    KilledOthers(os, root, births, since, Pids(more), Pids(fewer), p);
  }

  lemma KilledOthers(os: Os, root: nat, births: map<nat, nat>, since: nat, more: set<nat>, fewer: set<nat>, p: nat)
    requires OthersDying(os, births, more) && NoNewcomers(os, root, births) && NoOffspring(os, births, since)
    requires Same(os, births, p) && fewer == more - {p}
    ensures OthersDying(Killed(os, p), births, fewer)
    ensures NoNewcomers(Killed(os, p), root, births) && NoOffspring(Killed(os, p), births, since)
  {
    KilledDies(os, births, more, fewer, p);
    UpdateBringsNobody(os, births, since, p, os.procs[p].(state := Doomed));
    assert forall q :: Same(Killed(os, p), births, q) <==> Same(os, births, q);
  }

  lemma KilledDies(os: Os, births: map<nat, nat>, more: set<nat>, fewer: set<nat>, p: nat)
    requires OthersDying(os, births, more) && Same(os, births, p) && fewer == more - {p}
    ensures OthersDying(Killed(os, p), births, fewer)
  {
    assert forall q :: Same(Killed(os, p), births, q) <==> Same(os, births, q);
  }

  /** The signal found the very process that was frozen, still stopped and still in the tree. */
  predicate Justified(event: Event, frozen: Os, root: nat) {
    event.KillSent? ==>
      && event.target in frozen.procs && frozen.procs[event.target].state == Stopped
      && event.target in event.at.procs && event.at.procs[event.target].state == Stopped
      && event.at.procs[event.target].birth == frozen.procs[event.target].birth
      && Owned(frozen, root, event.target) && Owned(event.at, root, event.target)
  }

  predicate AllJustified(log: seq<Event>, frozen: Os, root: nat) {
    forall i :: 0 <= i < |log| ==> Justified(log[i], frozen, root)
  }

  /** Of two kills, the later one never hits a child of the earlier one's target, outside the root group. */
  predicate ChildrenFirst(log: seq<Event>, frozen: Os, root: nat) {
    forall i, j :: 0 <= i < j < |log| && log[i].KillSent? && log[j].KillSent? && log[j].target in frozen.procs ==>
      frozen.procs[log[j].target].group == root || frozen.procs[log[j].target].parent != log[i].target
  }

  predicate IsKill(event: Event, pid: nat) {
    event.KillSent? && event.target == pid
  }

  /** The events after `start` are kills of `owned[k..]`, last row first. */
  ghost predicate KillsBackwards(log: seq<Event>, start: nat, owned: seq<Row>, k: nat) {
    && k <= |owned| && |log| == start + |owned| - k
    && (forall i :: 0 <= i < start ==> !log[i].KillSent?)
    && (forall j :: k <= j < |owned| ==> IsKill(log[start + |owned| - 1 - j], owned[j].pid))
  }

  lemma OneMoreBackwards(log: seq<Event>, start: nat, owned: seq<Row>, k: nat, event: Event)
    requires k < |owned| && KillsBackwards(log, start, owned, k + 1) && IsKill(event, owned[k].pid)
    ensures KillsBackwards(log + [event], start, owned, k)
  {
    var next := log + [event];
    forall j | k <= j < |owned| ensures IsKill(next[start + |owned| - 1 - j], owned[j].pid) {
      if j > k {
        assert IsKill(log[start + |owned| - 1 - j], owned[j].pid);
      }
    }
  }

  lemma LogGrows(log: seq<Event>, event: Event, frozen: Os, root: nat)
    requires AllOk(log) && AllJustified(log, frozen, root) && Justified(event, frozen, root)
    ensures NothingAfterFailure(log + [event]) && AllJustified(log + [event], frozen, root)
    ensures event.ok ==> AllOk(log + [event])
    ensures !event.KillSent? && ChildrenFirst(log, frozen, root) ==> ChildrenFirst(log + [event], frozen, root)
  {
    var next := log + [event];
    assert forall i :: 0 <= i < |log| ==> next[i] == log[i];
    assert next[|log|] == event;
  }

  lemma BackwardsIsChildrenFirst(log: seq<Event>, start: nat, owned: seq<Row>, k: nat, frozen: Os, root: nat)
    requires FrozenRows(owned, frozen, root) && KillsBackwards(log, start, owned, k)
    ensures ChildrenFirst(log, frozen, root)
  {
    forall i, j | 0 <= i < j < |log| && log[i].KillSent? && log[j].KillSent? && log[j].target in frozen.procs
      ensures frozen.procs[log[j].target].group == root || frozen.procs[log[j].target].parent != log[i].target
    {
      var parent, child := start + |owned| - 1 - i, start + |owned| - 1 - j;
      assert IsKill(log[i], owned[parent].pid) && IsKill(log[j], owned[child].pid);
      assert FrozenRow(owned[child], frozen);
      if owned[child].group != root {
        assert Earlier(owned, child, owned[child].parent);
      }
    }
  }

  method KillTree(sys: System, owned: seq<Row>) returns (ok: bool)
    requires sys.Valid() && AllOk(sys.log) && NoKills(sys.log) && FrozenRows(owned, sys.os, sys.root)
    modifies sys
    ensures sys.Valid() && NothingAfterFailure(sys.log)
    ensures AllJustified(sys.log, old(sys.os), sys.root) && ChildrenFirst(sys.log, old(sys.os), sys.root)
    ensures old(sys.log) <= sys.log && (!ok ==> LastFailed(sys.log))
    ensures ok ==> AllOk(sys.log) && KillsBackwards(sys.log, |old(sys.log)|, owned, 0)
    ensures ok ==> Held(sys.os, sys.root, Births(old(sys.os), sys.root), old(sys.os).clock, [])
  {
    ghost var frozen, births, start := sys.os, Births(sys.os, sys.root), |sys.log|;
    FreezeHolds(frozen, sys.root, owned);
    assert owned[..|owned|] == owned;
    ok := true;
    for k := |owned| downto 0
      invariant sys.Valid() && AllOk(sys.log) && AllJustified(sys.log, frozen, sys.root)
      invariant Held(sys.os, sys.root, births, frozen.clock, owned[..k])
      invariant old(sys.log) <= sys.log && KillsBackwards(sys.log, start, owned, k)
    {
      ghost var log := sys.log;
      ok := KillOne(sys, owned, k, frozen);
      OneMoreBackwards(log, start, owned, k, sys.log[|log|]);
      if !ok {
        BackwardsIsChildrenFirst(sys.log, start, owned, k, frozen, sys.root);
        return;
      }
    }
    assert owned[..0] == [];
    BackwardsIsChildrenFirst(sys.log, start, owned, 0, frozen, sys.root);
  }

  method KillOne(sys: System, owned: seq<Row>, k: nat, ghost frozen: Os) returns (ok: bool)
    requires sys.Valid() && AllOk(sys.log) && AllJustified(sys.log, frozen, sys.root)
    requires FrozenRows(owned, frozen, sys.root) && REAPER !in Pids(owned) && k < |owned|
    requires Held(sys.os, sys.root, Births(frozen, sys.root), frozen.clock, owned[..k + 1])
    modifies sys
    ensures sys.Valid() && NothingAfterFailure(sys.log) && (ok ==> AllOk(sys.log))
    ensures exists at :: sys.log == old(sys.log) + [KillSent(owned[k].pid, ok, at)]
    ensures AllJustified(sys.log, frozen, sys.root)
    ensures ok ==> Held(sys.os, sys.root, Births(frozen, sys.root), frozen.clock, owned[..k])
  {
    ghost var births, at := Births(frozen, sys.root), sys.os;
    assert owned[k].pid in Pids(owned) && FrozenRow(owned[k], frozen);
    ok, at := sys.Kill(owned[k].pid);
    HeldEvolved(old(sys.os), at, sys.root, births, frozen.clock, owned[..k + 1]);
    HeldKill(at, sys.root, births, frozen.clock, owned, k);
    LogGrows(old(sys.log), KillSent(owned[k].pid, ok, at), frozen, sys.root);
  }

  lemma HeldEvolved(os: Os, next: Os, root: nat, births: map<nat, nat>, since: nat, waiting: seq<Row>)
    requires ValidOs(os, root) && Evolved(os, next, root) && Held(os, root, births, since, waiting)
    ensures Held(next, root, births, since, waiting)
  {
    var acts :| CanRun(os, root, acts) && next == Run(os, root, acts);
    HeldRun(os, root, births, since, waiting, acts);
  }

  // ---------- Confirming ----------

  /** Every process of the frozen tree is gone or a zombie. */
  ghost predicate TreeIsDead(os: Os, frozen: Os, root: nat) {
    forall p :: p in frozen.procs && Owned(frozen, root, p) && p in os.procs ==>
      os.procs[p].birth != frozen.procs[p].birth || os.procs[p].state == Zombie
  }

  /** No process in `os` was forked after the freeze by a process of the frozen tree. */
  ghost predicate TreeLeftNothing(os: Os, frozen: Os, root: nat) {
    forall p, q :: p in os.procs && os.procs[p].birth >= frozen.clock && q in frozen.procs && Owned(frozen, root, q) ==>
      os.procs[p].creator != frozen.procs[q].birth
  }

  function Remaining(rows: seq<Row>, table: seq<Row>): seq<Row> {
    if rows == [] then []
    else
      var rest := Remaining(rows[..|rows| - 1], table);
      var now := Find(table, rows[|rows| - 1].pid);
      if now.Some? then rest + [now.value] else rest
  }

  lemma {:induction false} RemainingHoldsAll(rows: seq<Row>, table: seq<Row>, i: nat)
    requires i < |rows| && Find(table, rows[i].pid).Some?
    ensures RowOf(Remaining(rows, table), Find(table, rows[i].pid).value)
    decreases |rows|
  {
    var rest, all := Remaining(rows[..|rows| - 1], table), Remaining(rows, table);
    if i < |rows| - 1 {
      RemainingHoldsAll(rows[..|rows| - 1], table, i);
      var j :| 0 <= j < |rest| && rest[j] == Find(table, rows[i].pid).value;
      assert all[j] == rest[j];
    } else {
      assert all[|rest|] == Find(table, rows[i].pid).value;
    }
  }

  /** After the kills: everything done so far was justified, and nothing of the frozen tree is left waiting. */
  ghost predicate Confirming(os: Os, log: seq<Event>, frozen: Os, root: nat) {
    && AllJustified(log, frozen, root) && ChildrenFirst(log, frozen, root)
    && Held(os, root, Births(frozen, root), frozen.clock, [])
  }

  method Poll(sys: System, ghost frozen: Os) returns (table: Option<seq<Row>>)
    requires sys.Valid() && AllOk(sys.log) && Confirming(sys.os, sys.log, frozen, sys.root)
    modifies sys
    ensures sys.Valid() && Confirming(sys.os, sys.log, frozen, sys.root) && NothingAfterFailure(sys.log)
    ensures sys.log == old(sys.log) + [Observed(table.Some?, TableOr(table))]
    ensures table.Some? ==> AllOk(sys.log) && Faithful(table.value, sys.os)
  {
    table := sys.Observe();
    LogGrows(old(sys.log), Observed(table.Some?, TableOr(table)), frozen, sys.root);
    HeldEvolved(old(sys.os), sys.os, sys.root, Births(frozen, sys.root), frozen.clock, []);
  }

  method Pause(sys: System, ghost frozen: Os)
    requires sys.Valid() && Confirming(sys.os, sys.log, frozen, sys.root)
    modifies sys`os
    ensures sys.Valid() && Confirming(sys.os, sys.log, frozen, sys.root)
  {
    sys.Elapse();
    HeldEvolved(old(sys.os), sys.os, sys.root, Births(frozen, sys.root), frozen.clock, []);
  }

  /** One look after the kills: the tree is confirmed dead, the look fails, or it goes on after a pause. */
  method LookForSurvivors(sys: System, owned: seq<Row>, patient: bool, ghost frozen: Os)
    returns (confirmed: bool, failed: bool, ghost table: seq<Row>)
    requires sys.Valid() && AllOk(sys.log) && Confirming(sys.os, sys.log, frozen, sys.root)
    requires Pids(owned) == Tree(OsLinks(frozen), sys.root)
    modifies sys
    ensures sys.Valid() && NothingAfterFailure(sys.log) && Confirming(sys.os, sys.log, frozen, sys.root)
    ensures sys.log == old(sys.log) + [Observed(!failed, table)]
    ensures !(confirmed && failed) && (!failed ==> AllOk(sys.log))
    ensures confirmed ==> TreeIsDead(sys.os, frozen, sys.root) && TreeLeftNothing(sys.os, frozen, sys.root)
    ensures !confirmed && !failed && !patient ==> ShowsLive(table, Pids(owned))
    ensures confirmed && patient ==> ShowsNone(table, Pids(owned))
  {
    var seen := Poll(sys, frozen);
    table, failed := TableOr(seen), seen.None?;
    if failed { return false, failed, table; }
    var remaining := Remaining(owned, seen.value);
    confirmed := remaining == [] || (AllZombies(remaining) && !patient);
    if confirmed {
      SeenDead(owned, seen.value, sys.os, frozen, sys.root);
      if remaining == [] {
        NoneIsShown(owned, seen.value);
      }
    } else {
      if !patient {
        LiveIsShown(owned, seen.value);
      }
      Pause(sys, frozen);
    }
  }

  method ConfirmGone(sys: System, owned: seq<Row>, ghost frozen: Os) returns (confirmed: bool)
    requires sys.Valid() && AllOk(sys.log) && Confirming(sys.os, sys.log, frozen, sys.root)
    requires Pids(owned) == Tree(OsLinks(frozen), sys.root)
    modifies sys
    ensures sys.Valid() && NothingAfterFailure(sys.log) && Confirming(sys.os, sys.log, frozen, sys.root)
    ensures old(sys.log) <= sys.log && (!confirmed ==> LastFailed(sys.log) || NeverGone(sys.log, Pids(owned)))
    ensures confirmed ==> SeenEnough(sys.log, Pids(owned))
    ensures confirmed ==> AllOk(sys.log)
    ensures confirmed ==> TreeIsDead(sys.os, frozen, sys.root) && TreeLeftNothing(sys.os, frozen, sys.root)
  {
    for attempt := 0 to 100
      invariant sys.Valid() && AllOk(sys.log) && Confirming(sys.os, sys.log, frozen, sys.root)
      invariant old(sys.log) <= sys.log && |sys.log| == |old(sys.log)| + attempt
      invariant StillSeen(sys.log, |old(sys.log)|, Pids(owned))
    {
      ghost var log := sys.log;
      var failed;
      ghost var table;
      confirmed, failed, table := LookForSurvivors(sys, owned, attempt < 10, frozen);
      if confirmed || failed {
        if confirmed {
          EnoughIsSeen(log, |old(sys.log)|, Observed(true, table), Pids(owned));
        }
        return;
      }
      StillSeenMore(log, |old(sys.log)|, Observed(true, table), Pids(owned));
    }
    return false;
  }

  predicate ShowsNone(table: seq<Row>, pids: set<nat>) {
    forall t :: 0 <= t < |table| ==> table[t].pid !in pids
  }

  /** The last look shows none of the processes, or comes after ten others. */
  predicate SeenEnough(log: seq<Event>, pids: set<nat>) {
    && log != [] && log[|log| - 1].Observed?
    && (ShowsNone(log[|log| - 1].table, pids)
        || (|log| >= 11 && forall i :: |log| - 11 <= i < |log| ==> log[i].Observed?))
  }

  lemma EnoughIsSeen(log: seq<Event>, start: nat, e: Event, pids: set<nat>)
    requires StillSeen(log, start, pids) && e.Observed? && (|log| < start + 10 ==> ShowsNone(e.table, pids))
    ensures SeenEnough(log + [e], pids)
  {}

  lemma NoneIsShown(owned: seq<Row>, table: seq<Row>)
    requires Remaining(owned, table) == []
    ensures ShowsNone(table, Pids(owned))
  {
    forall t | 0 <= t < |table| ensures table[t].pid !in Pids(owned) {
      if table[t].pid in Pids(owned) {
        var i := Place(owned, table[t].pid);
        RemainingHoldsAll(owned, table, i);
      }
    }
  }

  predicate AllZombies(rows: seq<Row>) {
    forall i :: 0 <= i < |rows| ==> 'Z' in rows[i].stat
  }

  lemma StillSeenMore(log: seq<Event>, start: nat, e: Event, pids: set<nat>)
    requires StillSeen(log, start, pids) && e.Observed? && (|log| >= start + 10 ==> ShowsLive(e.table, pids))
    ensures StillSeen(log + [e], start, pids)
  {}

  /** The table shows a process under one of these pids that is not a zombie. */
  predicate ShowsLive(table: seq<Row>, pids: set<nat>) {
    exists t :: 0 <= t < |table| && table[t].pid in pids && 'Z' !in table[t].stat
  }

  /** From `start` on there are only observations, and from the eleventh on each shows a process that lives. */
  predicate StillSeen(log: seq<Event>, start: nat, pids: set<nat>) {
    && start <= |log| && (forall i :: start <= i < |log| ==> log[i].Observed?)
    && (forall i :: start + 10 <= i < |log| ==> ShowsLive(log[i].table, pids))
  }

  /** The log ends with a hundred observations that do not show the processes dead. */
  predicate NeverGone(log: seq<Event>, pids: set<nat>) {
    |log| >= 100 && StillSeen(log, |log| - 100, pids)
  }

  lemma LiveIsShown(owned: seq<Row>, table: seq<Row>)
    requires !AllZombies(Remaining(owned, table))
    ensures ShowsLive(table, Pids(owned))
  {
    var i :| 0 <= i < |Remaining(owned, table)| && 'Z' !in Remaining(owned, table)[i].stat;
    RemainingIsOwned(owned, table, i);
  }

  lemma {:induction false} RemainingIsOwned(rows: seq<Row>, table: seq<Row>, i: nat)
    requires i < |Remaining(rows, table)|
    ensures Remaining(rows, table)[i].pid in Pids(rows) && RowOf(table, Remaining(rows, table)[i])
    decreases |rows|
  {
    var n := |rows| - 1;
    var rest := Remaining(rows[..n], table);
    if i < |rest| {
      RemainingIsOwned(rows[..n], table, i);
      var k := Place(rows[..n], rest[i].pid);
      assert rows[k].pid == rest[i].pid;
    } else {
      var now := Find(table, rows[n].pid);
      assert now.value in table;
      var t :| 0 <= t < |table| && table[t] == now.value;
    }
  }

  lemma SeenDead(owned: seq<Row>, table: seq<Row>, os: Os, frozen: Os, root: nat)
    requires Faithful(table, os) && Pids(owned) == Tree(OsLinks(frozen), root)
    requires AllZombies(Remaining(owned, table))
    requires NoOffspring(os, Births(frozen, root), frozen.clock)
    ensures TreeIsDead(os, frozen, root) && TreeLeftNothing(os, frozen, root)
  {
    forall p | p in frozen.procs && Owned(frozen, root, p) && p in os.procs ensures os.procs[p].state == Zombie {
      var i := Place(owned, p);
      RemainingHoldsAll(owned, table, i);
      var t := Place(table, p);
    }
    forall p, q | p in os.procs && os.procs[p].birth >= frozen.clock && q in frozen.procs && Owned(frozen, root, q)
      ensures os.procs[p].creator != frozen.procs[q].birth
    {
      assert Births(frozen, root)[q] == frozen.procs[q].birth;
    }
  }

  // ---------- The whole cancellation ----------

  /** The root is there and no process of its tree runs. */
  ghost predicate TreeStopped(os: Os, root: nat) {
    && Owned(os, root, root)
    && forall p :: Owned(os, root, p) ==> p in os.procs && os.procs[p].state == Stopped
  }

  ghost predicate KilledIn(log: seq<Event>, pid: nat) {
    exists i :: 0 <= i < |log| && IsKill(log[i], pid)
  }

  ghost predicate WholeTreeKilled(log: seq<Event>, frozen: Os, root: nat) {
    forall p :: Owned(frozen, root, p) ==> KilledIn(log, p)
  }

  lemma FrozenTreeIsStopped(rows: seq<Row>, os: Os, root: nat)
    requires FrozenRows(rows, os, root) && root in Pids(rows)
    ensures TreeStopped(os, root)
  {
    forall p | Owned(os, root, p) ensures p in os.procs && os.procs[p].state == Stopped {
      assert FrozenRow(rows[Place(rows, p)], os);
    }
  }

  lemma BackwardsIsWhole(log: seq<Event>, start: nat, owned: seq<Row>, frozen: Os, root: nat)
    requires FrozenRows(owned, frozen, root) && KillsBackwards(log, start, owned, 0)
    ensures WholeTreeKilled(log, frozen, root)
  {
    forall p | Owned(frozen, root, p) ensures KilledIn(log, p) {
      var j := Place(owned, p);
      assert IsKill(log[start + |owned| - 1 - j], owned[j].pid);
    }
  }

  lemma KilledStays(log: seq<Event>, more: seq<Event>, frozen: Os, root: nat)
    requires log <= more && WholeTreeKilled(log, frozen, root)
    ensures WholeTreeKilled(more, frozen, root)
  {
    forall p | Owned(frozen, root, p) ensures KilledIn(more, p) {
      assert KilledIn(log, p);
      var i :| 0 <= i < |log| && IsKill(log[i], p);
      assert IsKill(more[i], p);
    }
  }

  /**
    `confirmed` is the source's `null` result; otherwise termination is
    unconfirmed. `frozen` is the state of the system at the frozen snapshot,
    when there was one.
   */
  method StopPushProcessTree(sys: System, pid: int) returns (confirmed: bool, ghost frozen: Option<Os>)
    requires sys.Valid() && sys.log == [] && (pid > 0 ==> sys.root == pid)
    modifies sys
    ensures sys.Valid() && NothingAfterFailure(sys.log)
    ensures pid <= 0 ==> !confirmed && sys.log == []
    ensures frozen.None? ==> !confirmed && NoKills(sys.log)
    // Without confirmation there is a reason in what was seen.
    ensures pid > 0 ==> GroupFirst(sys.log, sys.root) && (frozen.None? ==> NotFrozen(sys.log, sys.root))
    // Progress: a tree that lives on in place and stops is frozen, when no call fails.
    ensures pid > 0 && AllOk(sys.log) && Steady(Tables(sys.log), sys.root) ==> frozen.Some?
    ensures frozen.Some? && !confirmed ==>
      LastFailed(sys.log) || NeverGone(sys.log, Tree(OsLinks(frozen.value), sys.root))
    ensures frozen.Some? ==> Evolved(old(sys.os), frozen.value, sys.root) && TreeStopped(frozen.value, sys.root)
    ensures frozen.Some? ==>
      AllJustified(sys.log, frozen.value, sys.root) && ChildrenFirst(sys.log, frozen.value, sys.root)
    ensures confirmed ==>
      && frozen.Some? && AllOk(sys.log) && WholeTreeKilled(sys.log, frozen.value, sys.root)
      && TreeIsDead(sys.os, frozen.value, sys.root)
      && TreeLeftNothing(sys.os, frozen.value, sys.root)
      && SeenEnough(sys.log, Tree(OsLinks(frozen.value), sys.root))
  {
    confirmed, frozen := false, None;
    if pid <= 0 { return; }
    var owned := FreezeTree(sys);
    if owned.None? {
      if AllOk(sys.log) && Steady(Tables(sys.log), sys.root) {
        SteadyIsFrozen(sys.log, sys.root);
      }
      return;
    }
    frozen := Some(sys.os);
    ghost var start := |sys.log|;
    FrozenTreeIsStopped(owned.value, sys.os, sys.root);
    var ok := KillTree(sys, owned.value);
    if !ok { return; }
    BackwardsIsWhole(sys.log, start, owned.value, frozen.value, sys.root);
    ghost var log := sys.log;
    confirmed := ConfirmGone(sys, owned.value, frozen.value);
    KilledStays(log, sys.log, frozen.value, sys.root);
  }
}
