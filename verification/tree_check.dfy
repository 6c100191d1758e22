/**
  Does a checkout hold exactly the bytes of a commit
  (`checkoutMatchesCommit` in scripts/push-tree-check.mjs)? Up to eight workers
  share a counter over the tree records; the scheduler below picks any of them
  at every await.
 */
module TreeCheck {
  import opened Options

  /** One `ls-tree` record; `Garbled` has no separator. */
  datatype Record = Garbled | Record(mode: string, kind: string, oid: string, name: string)

  /** What is found at a path: `digest` is the blob hash of its bytes or of the link text. */
  datatype Found =
    | Missing
    | Regular(executable: bool, digest: string)
    | Link(digest: string)
    | Other

  /** The file system while the check runs, by path relative to the root; `readable` is false where reading fails. */
  datatype Disk = Disk(posix: bool, at: string -> Found, readable: string -> bool, target: string -> Option<string>)

  const LINK := "120000"
  const PLAIN := "100644"
  const EXECUTABLE := "100755"

  predicate Usable(r: Record) {
    r.Record? && '\U{FFFD}' !in r.name && r.kind == "blob"
  }

  predicate IsLink(disk: Disk, r: Record) {
    Usable(r) && r.mode == LINK && disk.at(r.name).Link?
  }

  predicate IsFile(disk: Disk, r: Record) {
    Usable(r) && disk.at(r.name).Regular? && (r.mode == PLAIN || r.mode == EXECUTABLE)
  }

  predicate ModeAgrees(disk: Disk, r: Record)
    requires IsFile(disk, r)
  {
    disk.posix ==> r.mode == if disk.at(r.name).executable then EXECUTABLE else PLAIN
  }

  /** The path of the record holds what the record says. */
  predicate Matches(disk: Disk, r: Record) {
    && (IsLink(disk, r) || (IsFile(disk, r) && ModeAgrees(disk, r)))
    && disk.readable(r.name) && disk.at(r.name).digest == r.oid
  }

  datatype Worker = Ready | Stating(index: nat) | Reading(index: nat) | Gone

  /** The variables the workers share, and where each of them is. */
  datatype Pool = Pool(next: nat, matches: bool, failed: bool, known: set<string>, links: set<string>,
                       workers: seq<Worker>)

  predicate Holds(w: Worker, i: nat) {
    (w.Stating? || w.Reading?) && w.index == i
  }

  predicate InFlight(workers: seq<Worker>, i: nat) {
    exists w :: 0 <= w < |workers| && Holds(workers[w], i)
  }

  /** No record is in two hands. */
  predicate OneHand(workers: seq<Worker>) {
    forall v, w :: 0 <= v < w < |workers| && (workers[w].Stating? || workers[w].Reading?) ==>
      !Holds(workers[v], workers[w].index)
  }

  predicate WorkerOk(disk: Disk, records: seq<Record>, next: nat, w: Worker) {
    match w
    case Ready => true
    case Gone => next >= |records|
    case Stating(i) => i < next && i < |records| && Usable(records[i])
    case Reading(i) => i < next && i < |records| && (IsLink(disk, records[i]) || IsFile(disk, records[i]))
  }

  predicate ReadingAgrees(disk: Disk, records: seq<Record>, w: Worker) {
    w.Reading? && w.index < |records| && IsFile(disk, records[w.index]) ==> ModeAgrees(disk, records[w.index])
  }

  /** Records taken and finished all match, and so do the modes of those being read. */
  ghost predicate GoodSoFar(disk: Disk, records: seq<Record>, pool: Pool) {
    && (forall i :: 0 <= i < pool.next && i < |records| && !InFlight(pool.workers, i) ==> Matches(disk, records[i]))
    && (forall w :: 0 <= w < |pool.workers| ==> ReadingAgrees(disk, records, pool.workers[w]))
  }

  ghost predicate BadSoFar(disk: Disk, records: seq<Record>, next: nat) {
    exists i :: 0 <= i < next && i < |records| && !Matches(disk, records[i])
  }

  function NamesOf(records: seq<Record>, next: nat): set<string> {
    set i | 0 <= i < next && i < |records| && Usable(records[i]) :: records[i].name
  }

  function LinksOf(disk: Disk, records: seq<Record>, next: nat): set<string> {
    set i | 0 <= i < next && i < |records| && IsLink(disk, records[i]) :: records[i].name
  }

  /** Links finished are listed, and only links are. */
  ghost predicate LinksListed(disk: Disk, records: seq<Record>, pool: Pool) {
    && pool.links <= LinksOf(disk, records, pool.next)
    && (forall i :: 0 <= i < pool.next && i < |records| && !InFlight(pool.workers, i) && IsLink(disk, records[i]) ==>
          records[i].name in pool.links)
  }

  ghost predicate Valid(disk: Disk, records: seq<Record>, pool: Pool) {
    && pool.next <= |records| && OneHand(pool.workers)
    && (forall w :: 0 <= w < |pool.workers| ==> WorkerOk(disk, records, pool.next, pool.workers[w]))
    && (pool.matches ==> GoodSoFar(disk, records, pool))
    && (!pool.matches || pool.failed ==> BadSoFar(disk, records, pool.next))
    && pool.known == NamesOf(records, pool.next)
    && LinksListed(disk, records, pool)
  }

  // ---------- One worker between two awaits ----------

  /** Take the next record, or leave when there is none. */
  function Take(records: seq<Record>, pool: Pool, w: nat): Pool
    requires w < |pool.workers|
  {
    if pool.next >= |records| then pool.(workers := pool.workers[w := Gone])
    else
      var r := records[pool.next];
      if !Usable(r) then pool.(next := pool.next + 1, matches := false)
      else pool.(next := pool.next + 1, known := pool.known + {r.name},
                 workers := pool.workers[w := Stating(pool.next)])
  }

  function Stat(disk: Disk, records: seq<Record>, pool: Pool, w: nat): Pool
    requires w < |pool.workers| && pool.workers[w].Stating? && pool.workers[w].index < |records|
    requires Usable(records[pool.workers[w].index])
  {
    var i := pool.workers[w].index;
    var r := records[i];
    if disk.at(r.name).Missing? then pool.(failed := true)
    else if IsLink(disk, r) then pool.(workers := pool.workers[w := Reading(i)])
    else if IsFile(disk, r) then
      pool.(workers := pool.workers[w := Reading(i)], matches := pool.matches && ModeAgrees(disk, r))
    else pool.(workers := pool.workers[w := Ready], matches := false)
  }

  function Read(disk: Disk, records: seq<Record>, pool: Pool, w: nat): Pool
    requires w < |pool.workers| && pool.workers[w].Reading? && pool.workers[w].index < |records|
    requires IsLink(disk, records[pool.workers[w].index]) || IsFile(disk, records[pool.workers[w].index])
  {
    var r := records[pool.workers[w].index];
    if !disk.readable(r.name) then pool.(failed := true)
    else
      pool.(workers := pool.workers[w := Ready],
            links := if IsLink(disk, r) then pool.links + {r.name} else pool.links,
            matches := pool.matches && disk.at(r.name).digest == r.oid)
  }

  predicate CanStep(disk: Disk, records: seq<Record>, pool: Pool, w: nat) {
    w < |pool.workers| && !pool.workers[w].Gone? && WorkerOk(disk, records, pool.next, pool.workers[w])
  }

  function Step(disk: Disk, records: seq<Record>, pool: Pool, w: nat): Pool
    requires CanStep(disk, records, pool, w)
  {
    match pool.workers[w]
    case Ready => Take(records, pool, w)
    case Stating(_) => Stat(disk, records, pool, w)
    case Reading(_) => Read(disk, records, pool, w)
  }

  lemma InFlightUpdate(workers: seq<Worker>, w: nat, to: Worker, i: nat)
    requires w < |workers|
    ensures InFlight(workers[w := to], i) <==>
      Holds(to, i) || exists v :: 0 <= v < |workers| && v != w && Holds(workers[v], i)
  {
    var next := workers[w := to];
    if InFlight(next, i) {
      var v :| 0 <= v < |next| && Holds(next[v], i);
      assert v != w ==> Holds(workers[v], i);
    }
    if Holds(to, i) {
      assert Holds(next[w], i);
    }
    forall v | 0 <= v < |workers| && v != w && Holds(workers[v], i) ensures InFlight(next, i) {
      assert Holds(next[v], i);
    }
  }

  /** A worker that goes from one hand to another on the same record changes nothing in flight. */
  lemma SameHand(workers: seq<Worker>, w: nat, to: Worker)
    requires w < |workers| && workers[w].Stating? && to == Reading(workers[w].index) && OneHand(workers)
    ensures OneHand(workers[w := to])
    ensures forall i :: InFlight(workers[w := to], i) <==> InFlight(workers, i)
  {
    var next := workers[w := to];
    assert workers == workers[w := workers[w]];
    forall i ensures InFlight(next, i) <==> InFlight(workers, i) {
      InFlightUpdate(workers, w, to, i);
      InFlightUpdate(workers, w, workers[w], i);
    }
  }

  /** A worker that puts its record down takes just that record out of flight. */
  lemma PutDown(workers: seq<Worker>, w: nat)
    requires w < |workers| && (workers[w].Stating? || workers[w].Reading?) && OneHand(workers)
    ensures OneHand(workers[w := Ready])
    ensures forall i :: InFlight(workers[w := Ready], i) <==> InFlight(workers, i) && i != workers[w].index
  {
    assert workers == workers[w := workers[w]];
    forall i ensures InFlight(workers[w := Ready], i) <==> InFlight(workers, i) && i != workers[w].index {
      InFlightUpdate(workers, w, Ready, i);
      InFlightUpdate(workers, w, workers[w], i);
    }
  }

  lemma PickUp(workers: seq<Worker>, w: nat, n: nat, to: Worker)
    requires w < |workers| && workers[w].Ready? && OneHand(workers) && (to == Stating(n) || to == Gone)
    requires to == Stating(n) ==> !InFlight(workers, n)
    ensures OneHand(workers[w := to])
    ensures forall i :: InFlight(workers[w := to], i) <==> InFlight(workers, i) || Holds(to, i)
  {
    assert workers == workers[w := workers[w]];
    var next := workers[w := to];
    forall i ensures InFlight(next, i) <==> InFlight(workers, i) || Holds(to, i) {
      InFlightUpdate(workers, w, to, i);
      InFlightUpdate(workers, w, workers[w], i);
    }
    forall u, v | 0 <= u < v < |next| && (next[v].Stating? || next[v].Reading?) ensures !Holds(next[u], next[v].index) {
      if v != w && u == w && to == Stating(n) {
        assert !Holds(workers[v], n);
      }
      if v == w {
        assert !Holds(workers[u], n);
      }
    }
  }

  lemma MoreNames(disk: Disk, records: seq<Record>, n: nat)
    requires n < |records|
    ensures NamesOf(records, n + 1) == NamesOf(records, n) + if Usable(records[n]) then {records[n].name} else {}
    ensures LinksOf(disk, records, n) <= LinksOf(disk, records, n + 1)
  {
    forall name | name in NamesOf(records, n + 1)
      ensures name in NamesOf(records, n) || (Usable(records[n]) && name == records[n].name)
    {
      var i :| 0 <= i < n + 1 && i < |records| && Usable(records[i]) && records[i].name == name;
    }
  }

  lemma NotYetTaken(disk: Disk, records: seq<Record>, pool: Pool)
    requires Valid(disk, records, pool)
    ensures !InFlight(pool.workers, pool.next)
  {
    forall w | 0 <= w < |pool.workers| ensures !Holds(pool.workers[w], pool.next) {
      assert WorkerOk(disk, records, pool.next, pool.workers[w]);
    }
  }

  lemma TakeKeepsValid(disk: Disk, records: seq<Record>, pool: Pool, w: nat)
    requires Valid(disk, records, pool) && w < |pool.workers| && pool.workers[w].Ready?
    ensures Valid(disk, records, Take(records, pool, w))
  {
    var n, after := pool.next, Take(records, pool, w);
    NotYetTaken(disk, records, pool);
    if n < |records| {
      MoreNames(disk, records, n);
    }
    if n >= |records| || Usable(records[n]) {
      PickUp(pool.workers, w, n, after.workers[w]);
    }
    assert forall v :: 0 <= v < |pool.workers| && v != w ==> after.workers[v] == pool.workers[v];
    forall v | 0 <= v < |after.workers| ensures WorkerOk(disk, records, after.next, after.workers[v]) {
      assert WorkerOk(disk, records, pool.next, pool.workers[v]);
    }
    assert after.matches ==> GoodSoFar(disk, records, after);
  }

  lemma StatKeepsValid(disk: Disk, records: seq<Record>, pool: Pool, w: nat)
    requires Valid(disk, records, pool) && w < |pool.workers| && pool.workers[w].Stating?
    requires WorkerOk(disk, records, pool.next, pool.workers[w])
    ensures Valid(disk, records, Stat(disk, records, pool, w))
  {
    var i, after := pool.workers[w].index, Stat(disk, records, pool, w);
    var r := records[i];
    assert Matches(disk, r) ==> IsLink(disk, r) || IsFile(disk, r);
    if !disk.at(r.name).Missing? {
      if IsLink(disk, r) || IsFile(disk, r) {
        SameHand(pool.workers, w, Reading(i));
      } else {
        PutDown(pool.workers, w);
      }
    }
    assert forall v :: 0 <= v < |pool.workers| && v != w ==> after.workers[v] == pool.workers[v];
    assert !after.matches || after.failed ==> BadSoFar(disk, records, after.next);
  }

  lemma ReadKeepsValid(disk: Disk, records: seq<Record>, pool: Pool, w: nat)
    requires Valid(disk, records, pool) && w < |pool.workers| && pool.workers[w].Reading?
    requires WorkerOk(disk, records, pool.next, pool.workers[w])
    ensures Valid(disk, records, Read(disk, records, pool, w))
  {
    var i, after := pool.workers[w].index, Read(disk, records, pool, w);
    PutDown(pool.workers, w);
    assert ReadingAgrees(disk, records, pool.workers[w]) || !pool.matches;
    assert forall v :: 0 <= v < |pool.workers| && v != w ==> after.workers[v] == pool.workers[v];
    assert records[i].name in LinksOf(disk, records, pool.next) || !IsLink(disk, records[i]);
    assert !after.matches || after.failed ==> BadSoFar(disk, records, after.next);
  }

  /** Whichever worker goes next, no record is taken twice and a lost match stays lost. */
  lemma StepKeepsValid(disk: Disk, records: seq<Record>, pool: Pool, w: nat)
    requires Valid(disk, records, pool) && CanStep(disk, records, pool, w)
    ensures Valid(disk, records, Step(disk, records, pool, w))
    ensures !pool.matches ==> !Step(disk, records, pool, w).matches
    ensures pool.next <= Step(disk, records, pool, w).next <= pool.next + 1
  {
    match pool.workers[w]
    case Ready => TakeKeepsValid(disk, records, pool, w);
    case Stating(_) => StatKeepsValid(disk, records, pool, w);
    case Reading(_) => ReadKeepsValid(disk, records, pool, w);
  }

  // ---------- The whole pool ----------

  function Weight(w: Worker): nat {
    match w case Ready => 1 case Stating(_) => 3 case Reading(_) => 2 case Gone => 0
  }

  function Load(workers: seq<Worker>): nat {
    if workers == [] then 0 else Weight(workers[0]) + Load(workers[1..])
  }

  lemma {:induction false} LoadUpdate(workers: seq<Worker>, w: nat, to: Worker)
    requires w < |workers|
    ensures Load(workers[w := to]) == Load(workers) - Weight(workers[w]) + Weight(to)
  {
    if w == 0 {
      assert workers[0 := to][1..] == workers[1..];
    } else {
      LoadUpdate(workers[1..], w - 1, to);
      assert workers[w := to][1..] == workers[1..][w - 1 := to];
    }
  }

  function Remaining(records: seq<Record>, pool: Pool): nat
    requires pool.next <= |records|
  {
    4 * (|records| - pool.next) + Load(pool.workers) + if pool.failed then 0 else 1
  }

  lemma StepShrinks(disk: Disk, records: seq<Record>, pool: Pool, w: nat)
    requires Valid(disk, records, pool) && CanStep(disk, records, pool, w) && !pool.failed
    ensures var after := Step(disk, records, pool, w);
      after.next <= |records| && Remaining(records, after) < Remaining(records, pool)
  {
    StepKeepsValid(disk, records, pool, w);
    var after := Step(disk, records, pool, w);
    LoadUpdate(pool.workers, w, after.workers[w]);
    assert after.workers == pool.workers[w := after.workers[w]];
  }

  // ---------- Which record a worker examines ----------

  /** The record whose examination this step brings to its end. */
  function Judged(disk: Disk, records: seq<Record>, pool: Pool, w: nat): Option<nat>
    requires CanStep(disk, records, pool, w)
  {
    match pool.workers[w]
    case Ready => if pool.next < |records| && !Usable(records[pool.next]) then Some(pool.next) else None
    case Stating(i) =>
      if disk.at(records[i].name).Missing? || IsLink(disk, records[i]) || IsFile(disk, records[i]) then None
      else Some(i)
    case Reading(i) => if disk.readable(records[i].name) then Some(i) else None
  }

  predicate Once(log: seq<nat>) {
    forall i, j :: 0 <= i < j < |log| ==> log[i] != log[j]
  }

  /** The log holds, once each, the records that were taken and are in no hand any more. */
  ghost predicate Logged(log: seq<nat>, pool: Pool) {
    Once(log) && forall i: nat :: i in log <==> i < pool.next && !InFlight(pool.workers, i)
  }

  function Extended(log: seq<nat>, judged: Option<nat>): seq<nat> {
    if judged.Some? then log + [judged.value] else log
  }

  lemma AppendOnce(log: seq<nat>, k: nat)
    requires Once(log) && k !in log
    ensures Once(log + [k]) && forall i :: i in log + [k] <==> i in log || i == k
  {
    var more := log + [k];
    forall i, j | 0 <= i < j < |more| ensures more[i] != more[j] {
      if j == |log| {
        assert more[i] == log[i] && log[i] in log;
      }
    }
  }

  lemma TakeIsLogged(disk: Disk, records: seq<Record>, pool: Pool, w: nat, log: seq<nat>)
    requires Valid(disk, records, pool) && CanStep(disk, records, pool, w) && pool.workers[w].Ready?
    requires Logged(log, pool)
    ensures Logged(Extended(log, Judged(disk, records, pool, w)), Take(records, pool, w))
  {
    var n, after := pool.next, Take(records, pool, w);
    NotYetTaken(disk, records, pool);
    if n >= |records| || Usable(records[n]) {
      PickUp(pool.workers, w, n, after.workers[w]);
    } else {
      AppendOnce(log, n);
    }
  }

  lemma PutDownIsLogged(pool: Pool, after: Pool, w: nat, log: seq<nat>)
    requires w < |pool.workers| && (pool.workers[w].Stating? || pool.workers[w].Reading?) && OneHand(pool.workers)
    requires pool.workers[w].index < pool.next == after.next && after.workers == pool.workers[w := Ready]
    requires Logged(log, pool)
    ensures Logged(log + [pool.workers[w].index], after)
  {
    assert Holds(pool.workers[w], pool.workers[w].index);
    PutDown(pool.workers, w);
    AppendOnce(log, pool.workers[w].index);
  }

  lemma StepIsLogged(disk: Disk, records: seq<Record>, pool: Pool, w: nat, log: seq<nat>)
    requires Valid(disk, records, pool) && CanStep(disk, records, pool, w) && Logged(log, pool)
    ensures Logged(Extended(log, Judged(disk, records, pool, w)), Step(disk, records, pool, w))
  {
    if pool.workers[w].Ready? {
      TakeIsLogged(disk, records, pool, w, log);
    } else if Judged(disk, records, pool, w).Some? {
      PutDownIsLogged(pool, Step(disk, records, pool, w), w, log);
    } else if Step(disk, records, pool, w).workers != pool.workers {
      SameHand(pool.workers, w, Reading(pool.workers[w].index));
    }
  }

  /** The log is the records' positions in some order: each was examined exactly once. */
  ghost predicate IsPermutation(log: seq<nat>, n: nat) {
    Once(log) && forall i: nat :: i in log <==> i < n
  }

  predicate AllGone(workers: seq<Worker>) {
    forall w :: 0 <= w < |workers| ==> workers[w].Gone?
  }

  /** Eight workers, or fewer for fewer records. */
  function StartPool(records: seq<Record>): Pool {
    Pool(0, true, false, {}, {}, seq(if |records| < 8 then |records| else 8, _ => Ready))
  }

  lemma StartIsValid(disk: Disk, records: seq<Record>)
    ensures Valid(disk, records, StartPool(records)) && Logged([], StartPool(records))
  {}

  // ---------- Every schedule ----------

  /** A schedule names the worker that goes next at every await; a read that fails ends it. */
  predicate CanFollow(disk: Disk, records: seq<Record>, pool: Pool, schedule: seq<nat>)
    decreases |schedule|
  {
    schedule == [] ||
    (!pool.failed && CanStep(disk, records, pool, schedule[0])
     && CanFollow(disk, records, Step(disk, records, pool, schedule[0]), schedule[1..]))
  }

  function Follow(disk: Disk, records: seq<Record>, pool: Pool, schedule: seq<nat>): Pool
    requires CanFollow(disk, records, pool, schedule)
    decreases |schedule|
  {
    if schedule == [] then pool else Follow(disk, records, Step(disk, records, pool, schedule[0]), schedule[1..])
  }

  /** The records in the order in which the workers are done with them. */
  function Examined(disk: Disk, records: seq<Record>, pool: Pool, schedule: seq<nat>): seq<nat>
    requires CanFollow(disk, records, pool, schedule)
    decreases |schedule|
  {
    if schedule == [] then []
    else
      var w := schedule[0];
      Extended([], Judged(disk, records, pool, w))
      + Examined(disk, records, Step(disk, records, pool, w), schedule[1..])
  }

  /** What holds between two awaits, with the log of what has been examined so far. */
  ghost predicate Sound(disk: Disk, records: seq<Record>, pool: Pool, log: seq<nat>, workers: nat) {
    Valid(disk, records, pool) && Logged(log, pool) && |pool.workers| == workers
  }

  lemma StepKeepsSound(disk: Disk, records: seq<Record>, pool: Pool, w: nat, log: seq<nat>, workers: nat)
    requires Sound(disk, records, pool, log, workers) && CanStep(disk, records, pool, w)
    ensures Sound(disk, records, Step(disk, records, pool, w), Extended(log, Judged(disk, records, pool, w)), workers)
  {
    StepKeepsValid(disk, records, pool, w);
    StepIsLogged(disk, records, pool, w, log);
  }

  lemma ExtendedTwice(log: seq<nat>, judged: Option<nat>, rest: seq<nat>)
    ensures Extended(log, judged) + rest == log + (Extended([], judged) + rest)
  {}

  lemma {:induction false} FollowKeepsSound(disk: Disk, records: seq<Record>, pool: Pool, schedule: seq<nat>,
                                            log: seq<nat>, workers: nat)
    requires Sound(disk, records, pool, log, workers) && CanFollow(disk, records, pool, schedule)
    ensures Sound(disk, records, Follow(disk, records, pool, schedule),
                  log + Examined(disk, records, pool, schedule), workers)
    decreases |schedule|
  {
    if schedule == [] {
      assert log + [] == log;
    } else {
      var w := schedule[0];
      var next, judged := Step(disk, records, pool, w), Judged(disk, records, pool, w);
      StepKeepsSound(disk, records, pool, w, log, workers);
      FollowKeepsSound(disk, records, next, schedule[1..], Extended(log, judged), workers);
      ExtendedTwice(log, judged, Examined(disk, records, next, schedule[1..]));
    }
  }

  /** No schedule goes on for ever. */
  lemma {:induction false} FollowEnds(disk: Disk, records: seq<Record>, pool: Pool, schedule: seq<nat>)
    requires Valid(disk, records, pool) && CanFollow(disk, records, pool, schedule)
    ensures |schedule| <= Remaining(records, pool)
    decreases |schedule|
  {
    if schedule != [] {
      StepKeepsValid(disk, records, pool, schedule[0]);
      StepShrinks(disk, records, pool, schedule[0]);
      FollowEnds(disk, records, Step(disk, records, pool, schedule[0]), schedule[1..]);
    }
  }

  /** What the pool has found out when all its workers are gone. */
  ghost predicate IsVerdict(disk: Disk, records: seq<Record>, pool: Pool) {
    && (pool.matches <==> forall i :: 0 <= i < |records| ==> Matches(disk, records[i]))
    && pool.known == NamesOf(records, |records|) && pool.links == LinksOf(disk, records, |records|)
  }

  /**
    For every schedule: no record is examined twice; a read that fails means a
    record that does not match; and when the workers are gone every record has
    been examined exactly once, and the verdict is that of all records.
   */
  lemma EveryScheduleExaminesOnce(disk: Disk, records: seq<Record>, schedule: seq<nat>)
    requires CanFollow(disk, records, StartPool(records), schedule)
    ensures var pool := Follow(disk, records, StartPool(records), schedule);
      var examined := Examined(disk, records, StartPool(records), schedule);
      && Once(examined) && (forall i :: i in examined ==> i < |records|)
      && (pool.failed ==> exists i :: 0 <= i < |records| && !Matches(disk, records[i]))
      && (!pool.failed && AllGone(pool.workers) ==>
            IsPermutation(examined, |records|) && IsVerdict(disk, records, pool))
  {
    StartIsValid(disk, records);
    FollowKeepsSound(disk, records, StartPool(records), schedule, [], |StartPool(records).workers|);
    var pool := Follow(disk, records, StartPool(records), schedule);
    var examined := Examined(disk, records, StartPool(records), schedule);
    assert [] + examined == examined;
    if !pool.failed && AllGone(pool.workers) {
      PoolIsDone(disk, records, pool);
      NothingInFlight(pool.workers);
    }
  }

  lemma {:induction false} FollowOne(disk: Disk, records: seq<Record>, pool: Pool, schedule: seq<nat>, w: nat)
    requires CanFollow(disk, records, pool, schedule) && !Follow(disk, records, pool, schedule).failed
    requires CanStep(disk, records, Follow(disk, records, pool, schedule), w)
    ensures CanFollow(disk, records, pool, schedule + [w])
    ensures Follow(disk, records, pool, schedule + [w]) == Step(disk, records, Follow(disk, records, pool, schedule), w)
    decreases |schedule|
  {
    if schedule == [] {
      assert [w][1..] == [];
    } else {
      FollowOne(disk, records, Step(disk, records, pool, schedule[0]), schedule[1..], w);
      assert (schedule + [w])[1..] == schedule[1..] + [w];
    }
  }

  /** The pool run to its end under some schedule; `schedule` is the one that was taken. */
  method RunPool(disk: Disk, records: seq<Record>) returns (pool: Pool, ghost schedule: seq<nat>)
    ensures CanFollow(disk, records, StartPool(records), schedule)
    ensures pool == Follow(disk, records, StartPool(records), schedule) && (pool.failed || AllGone(pool.workers))
    ensures pool.failed ==> exists i :: 0 <= i < |records| && !Matches(disk, records[i])
    ensures !pool.failed ==> IsVerdict(disk, records, pool)
  {
    pool, schedule := StartPool(records), [];
    StartIsValid(disk, records);
    while !pool.failed && !AllGone(pool.workers)
      invariant Valid(disk, records, pool) && CanFollow(disk, records, StartPool(records), schedule)
      invariant pool == Follow(disk, records, StartPool(records), schedule)
      decreases Remaining(records, pool)
    {
      var w: nat :| w < |pool.workers| && !pool.workers[w].Gone?;
      assert WorkerOk(disk, records, pool.next, pool.workers[w]);
      StepKeepsValid(disk, records, pool, w);
      StepShrinks(disk, records, pool, w);
      FollowOne(disk, records, StartPool(records), schedule, w);
      pool, schedule := Step(disk, records, pool, w), schedule + [w];
    }
    EveryScheduleExaminesOnce(disk, records, schedule);
  }

  lemma NothingInFlight(workers: seq<Worker>)
    requires AllGone(workers)
    ensures forall i :: !InFlight(workers, i)
  {}

  lemma PoolIsDone(disk: Disk, records: seq<Record>, pool: Pool)
    requires Valid(disk, records, pool) && AllGone(pool.workers) && !pool.failed
    requires |records| > 0 ==> |pool.workers| > 0
    ensures pool.next == |records| && pool.links == LinksOf(disk, records, |records|)
    ensures pool.matches ==> forall i :: 0 <= i < |records| ==> Matches(disk, records[i])
  {
    NothingInFlight(pool.workers);
    if |records| > 0 {
      assert WorkerOk(disk, records, pool.next, pool.workers[0]);
    }
    forall name | name in LinksOf(disk, records, |records|) ensures name in pool.links {
      var i :| 0 <= i < |records| && IsLink(disk, records[i]) && records[i].name == name;
    }
  }

  // ---------- Links and ignored files ----------

  /** A link ends at a tracked regular file. */
  predicate LinkOk(disk: Disk, known: set<string>, link: string) {
    var end := disk.target(link);
    end.Some? && end.value in known && disk.at(end.value).Regular?
  }

  /** A directory as the walk reads it; `harmless` is the verdict of the administrative-file test. */
  datatype Node = FileNode(name: string, harmless: bool) | DirNode(name: string, children: seq<Node>)

  predicate Skipped(prefix: string, node: Node) {
    prefix == "" && (node.name == ".git" || node.name == "node_modules")
  }

  /** Every file below, by its path, with its verdict. */
  function Files(nodes: seq<Node>, prefix: string): set<(string, bool)>
    decreases nodes
  {
    if nodes == [] then {}
    else
      var node := nodes[0];
      Files(nodes[1..], prefix) +
      if Skipped(prefix, node) then {}
      else if node.DirNode? then Files(node.children, prefix + node.name + "/")
      else {(prefix + node.name, node.harmless)}
  }

  ghost predicate Accepted(files: set<(string, bool)>, known: set<string>) {
    forall f :: f in files ==> f.0 in known || f.1
  }

  /** `walk`: it stops early once the match is lost, which the outcome does not show. */
  method Walk(nodes: seq<Node>, prefix: string, known: set<string>, matches: bool) returns (after: bool)
    ensures after <==> matches && Accepted(Files(nodes, prefix), known)
    decreases nodes
  {
    after := matches;
    for i := 0 to |nodes|
      invariant matches && Accepted(Files(nodes, prefix), known) <==>
        after && Accepted(Files(nodes[i..], prefix), known)
    {
      assert nodes[i..][0] == nodes[i] && nodes[i..][1..] == nodes[i + 1..];
      if !Skipped(prefix, nodes[i]) {
        var name := prefix + nodes[i].name;
        if nodes[i].DirNode? {
          after := Walk(nodes[i].children, name + "/", known, after);
        } else if name !in known {
          if !nodes[i].harmless { after := false; }
        }
        if !after { return; }
      }
    }
    assert nodes[|nodes|..] == [];
  }

  // ---------- The files of a directory, by their paths ----------

  /** These names lead from the directory to a file. */
  predicate Leads(nodes: seq<Node>, names: seq<string>, harmless: bool)
    decreases |names|
  {
    names != [] && exists i :: 0 <= i < |nodes| && nodes[i].name == names[0] && Ends(nodes[i], names, harmless)
  }

  predicate Ends(node: Node, names: seq<string>, harmless: bool)
    requires names != []
    decreases |names|, 0
  {
    match node
    case FileNode(_, h) => |names| == 1 && h == harmless
    case DirNode(_, children) => |names| > 1 && Leads(children, names[1..], harmless)
  }

  function PathOf(names: seq<string>): string {
    if names == [] then "" else if |names| == 1 then names[0] else names[0] + "/" + PathOf(names[1..])
  }

  /** A way to a file that the walk goes: only at the top are a repository and installed modules passed over. */
  predicate Walked(nodes: seq<Node>, prefix: string, names: seq<string>, harmless: bool) {
    Leads(nodes, names, harmless) && (prefix == "" ==> names[0] != ".git" && names[0] != "node_modules")
  }

  /** The files the walk looks at are those that its ways lead to. */
  lemma {:induction false} FilesAreWalked(nodes: seq<Node>, prefix: string, names: seq<string>, harmless: bool)
    requires Walked(nodes, prefix, names, harmless)
    ensures (prefix + PathOf(names), harmless) in Files(nodes, prefix)
    decreases nodes
  {
    var i :| 0 <= i < |nodes| && nodes[i].name == names[0] && Ends(nodes[i], names, harmless);
    if i == 0 {
      if nodes[0].DirNode? {
        var folder := prefix + names[0] + "/";
        FilesAreWalked(nodes[0].children, folder, names[1..], harmless);
        assert prefix + PathOf(names) == folder + PathOf(names[1..]);
      }
    } else {
      assert nodes[1..][i - 1] == nodes[i];
      FilesAreWalked(nodes[1..], prefix, names, harmless);
    }
  }

  lemma {:induction false} WalkedAreFiles(nodes: seq<Node>, prefix: string, f: (string, bool))
    returns (names: seq<string>)
    requires f in Files(nodes, prefix)
    ensures Walked(nodes, prefix, names, f.1) && f.0 == prefix + PathOf(names)
    decreases nodes
  {
    var node := nodes[0];
    if f in Files(nodes[1..], prefix) {
      names := WalkedAreFiles(nodes[1..], prefix, f);
      var i :| 0 <= i < |nodes[1..]| && nodes[1..][i].name == names[0] && Ends(nodes[1..][i], names, f.1);
      assert nodes[i + 1] == nodes[1..][i];
    } else if node.DirNode? {
      var rest := WalkedAreFiles(node.children, prefix + node.name + "/", f);
      names := [node.name] + rest;
      assert names[1..] == rest && Ends(node, names, f.1);
    } else {
      names := [node.name];
      assert Ends(node, names, f.1);
    }
  }

  /** Every file outside the two folders at the top is tracked, or a harmless administrative one. */
  ghost predicate AllTracked(root: seq<Node>, known: set<string>) {
    forall names, harmless :: Leads(root, names, harmless) && names[0] != ".git" && names[0] != "node_modules" ==>
      PathOf(names) in known || harmless
  }

  lemma AcceptedExactly(root: seq<Node>, known: set<string>)
    ensures Accepted(Files(root, ""), known) <==> AllTracked(root, known)
  {
    if AllTracked(root, known) {
      forall f | f in Files(root, "") ensures f.0 in known || f.1 {
        var names := WalkedAreFiles(root, "", f);
        assert f.0 == PathOf(names);
      }
    }
    if Accepted(Files(root, ""), known) {
      forall names, harmless | Leads(root, names, harmless) && names[0] != ".git" && names[0] != "node_modules"
        ensures PathOf(names) in known || harmless
      {
        assert Walked(root, "", names, harmless);
        FilesAreWalked(root, "", names, harmless);
        assert "" + PathOf(names) == PathOf(names);
      }
    }
  }

  /** What git answers about the checkout before its bytes are read; `None` is a call that fails. */
  datatype Git = Git(top: bool, format: Option<string>, sparse: string, installed: bool, fingerprinted: bool,
                     tree: Option<string>, headTree: Option<string>, status: Option<string>,
                     tagged: Option<seq<string>>)

  /** A line of `ls-files -v` for a file that is assumed unchanged, skipped or otherwise hidden from status. */
  predicate Hidden(line: string) {
    |line| >= 2 && line[1] == ' ' && ('a' <= line[0] <= 'z' || line[0] == 'S')
  }

  /**
    A complete, clean checkout of exactly this tree, with dependencies that can be
    fingerprinted, and nothing hidden.
   */
  predicate Allows(git: Git) {
    && git.top && (git.format == Some("sha1") || git.format == Some("sha256")) && git.sparse != "true"
    && (git.installed ==> git.fingerprinted) && git.tree.Some? && git.headTree == git.tree && git.status == Some("")
    && git.tagged.Some? && forall i :: 0 <= i < |git.tagged.value| ==> !Hidden(git.tagged.value[i])
  }

  // ---------- An exact checkout ----------

  /** Git answers that the whole tree of the commit is checked out, with nothing changed and nothing hidden. */
  predicate CleanGit(git: Git) {
    && git.top && git.format.Some? && git.format.value in {"sha1", "sha256"} && git.sparse != "true"
    && (git.fingerprinted || !git.installed)
    && git.tree.Some? && git.headTree.Some? && git.tree.value == git.headTree.value
    && git.status.Some? && |git.status.value| == 0
    && git.tagged.Some? && forall i :: 0 <= i < |git.tagged.value| ==> !Tagged(git.tagged.value[i])
  }

  /** The line tells of a file that is hidden from status. */
  predicate Tagged(line: string) {
    exists c :: c in "abcdefghijklmnopqrstuvwxyzS" && [c, ' '] <= line
  }

  /** The file system holds exactly what the record says: this link, or this file with this mode. */
  predicate Exact(disk: Disk, r: Record) {
    match r
    case Garbled => false
    case Record(mode, kind, oid, name) =>
      kind == "blob" && '\U{FFFD}' !in name && disk.readable(name) &&
      match disk.at(name)
      case Missing => false
      case Other => false
      case Link(digest) => mode == "120000" && digest == oid
      case Regular(executable, digest) =>
        digest == oid && mode in {"100644", "100755"} && (disk.posix ==> (executable <==> mode == "100755"))
  }

  /** A link of the commit ends at another of its files, which is a regular one. */
  predicate LinkStays(disk: Disk, records: seq<Record>, r: Record) {
    r.Record? && disk.at(r.name).Link? ==>
      disk.target(r.name).Some? && disk.at(disk.target(r.name).value).Regular?
      && exists j :: 0 <= j < |records| && records[j].Record? && records[j].name == disk.target(r.name).value
  }

  lemma LettersHide(line: string)
    ensures Hidden(line) <==> Tagged(line)
  {
    if Hidden(line) {
      assert 'a' <= line[0] <= 'z' ==> "abcdefghijklmnopqrstuvwxyzS"[line[0] as int - 'a' as int] == line[0];
      assert "abcdefghijklmnopqrstuvwxyzS"[26] == 'S';
      assert [line[0], ' '] <= line;
    }
  }

  lemma CleanExactly(git: Git)
    ensures Allows(git) <==> CleanGit(git)
  {
    if git.tagged.Some? {
      forall i | 0 <= i < |git.tagged.value|
        ensures Hidden(git.tagged.value[i]) <==> Tagged(git.tagged.value[i])
      {
        LettersHide(git.tagged.value[i]);
      }
    }
  }

  lemma ExactExactly(disk: Disk, records: seq<Record>)
    ensures forall i :: 0 <= i < |records| ==> (Matches(disk, records[i]) <==> Exact(disk, records[i]))
  {}

  lemma LinksStayExactly(disk: Disk, records: seq<Record>)
    requires forall i :: 0 <= i < |records| ==> Exact(disk, records[i])
    ensures forall i :: 0 <= i < |records| ==>
      (IsLink(disk, records[i]) ==> LinkOk(disk, NamesOf(records, |records|), records[i].name)) ==
      LinkStays(disk, records, records[i])
  {}

  /**
    `checkoutMatchesCommit`: exactly when git sees a clean checkout of the commit,
    every record of its tree is on disk as it is, links stay within it, and no
    other file is there but harmless ones.
   */
  method CheckoutMatchesCommit(git: Git, disk: Disk, records: seq<Record>, root: seq<Node>) returns (matches: bool)
    ensures matches <==>
      && CleanGit(git) && (forall i :: 0 <= i < |records| ==> Exact(disk, records[i]))
      && (forall i :: 0 <= i < |records| ==> LinkStays(disk, records, records[i]))
      && AllTracked(root, set i | 0 <= i < |records| && records[i].Record? :: records[i].name)
  {
    matches := AuditCheckout(git, disk, records, root);
    CleanExactly(git);
    ExactExactly(disk, records);
    if forall i :: 0 <= i < |records| ==> Exact(disk, records[i]) {
      LinksStayExactly(disk, records);
      AcceptedExactly(root, NamesOf(records, |records|));
      assert NamesOf(records, |records|) == set i | 0 <= i < |records| && records[i].Record? :: records[i].name;
    }
  }

  method AuditCheckout(git: Git, disk: Disk, records: seq<Record>, root: seq<Node>) returns (matches: bool)
    ensures matches <==>
      && Allows(git)
      && (forall i :: 0 <= i < |records| ==> Matches(disk, records[i]))
      && (forall i :: 0 <= i < |records| && IsLink(disk, records[i]) ==>
            LinkOk(disk, NamesOf(records, |records|), records[i].name))
      && Accepted(Files(root, ""), NamesOf(records, |records|))
  {
    if !Allows(git) { return false; }
    var pool, _ := RunPool(disk, records);
    if pool.failed { return false; }
    matches := pool.matches;
    var links := pool.links;
    while links != {}
      invariant links <= pool.links
      invariant matches ==> pool.matches && forall link :: link in pool.links - links ==> LinkOk(disk, pool.known, link)
      invariant !matches ==> !pool.matches || exists link :: link in pool.links && !LinkOk(disk, pool.known, link)
    {
      var link :| link in links;
      if disk.target(link).None? {
        LinksAreRecords(disk, records, pool.links, pool.known);
        return false;
      }
      if !LinkOk(disk, pool.known, link) { matches := false; }
      links := links - {link};
    }
    LinksAreRecords(disk, records, pool.links, pool.known);
    matches := Walk(root, "", pool.known, matches);
  }

  lemma LinksAreRecords(disk: Disk, records: seq<Record>, links: set<string>, known: set<string>)
    requires links == LinksOf(disk, records, |records|)
    ensures (forall link :: link in links ==> LinkOk(disk, known, link)) <==>
      forall i :: 0 <= i < |records| && IsLink(disk, records[i]) ==> LinkOk(disk, known, records[i].name)
  {
    forall i | 0 <= i < |records| && IsLink(disk, records[i]) ensures records[i].name in links {}
  }
}
