/**
  The operating system that process-tree cancellation runs against: what other
  processes may do between two of our own calls, and what they may not.
 */
module ProcessOs {
  import opened ProcessTables

  /** `Doomed` is a process with a pending SIGKILL: it runs no code of its own again. */
  datatype RunState = Running | Stopped | Doomed | Zombie

  /** `birth` tells apart two processes that use one pid in turn; `creator` is the forker's birth. */
  datatype Proc = Proc(parent: nat, group: nat, state: RunState, birth: nat, creator: nat)

  datatype Os = Os(procs: map<nat, Proc>, clock: nat)

  /** The process that adopts orphans. */
  const REAPER: nat := 1

  function OsLinks(os: Os): Links {
    map p | p in os.procs :: Link(os.procs[p].parent, os.procs[p].group)
  }

  predicate Owned(os: Os, root: nat, p: nat) {
    p in Tree(OsLinks(os), root)
  }

  /** The reaper runs, has no parent and is outside the root group. */
  predicate ReaperOutside(os: Os, root: nat) {
    && REAPER in os.procs && os.procs[REAPER].state == Running
    && os.procs[REAPER].parent == 0 && os.procs[REAPER].group != root
  }

  /** A live parent other than the process itself, or none. */
  predicate WellPlaced(os: Os, p: nat)
    requires p in os.procs
  {
    var parent := os.procs[p].parent;
    parent == 0 || (parent != p && parent in os.procs && os.procs[parent].state != Zombie)
  }

  predicate BirthsDiffer(os: Os) {
    forall p, q :: p in os.procs && q in os.procs && os.procs[p].birth == os.procs[q].birth ==> p == q
  }

  predicate BornBefore(os: Os, now: nat) {
    forall p :: p in os.procs ==> os.procs[p].birth < now
  }

  predicate ValidOs(os: Os, root: nat) {
    && 0 !in os.procs && ReaperOutside(os, root) && BornBefore(os, os.clock) && BirthsDiffer(os)
    && forall p :: p in os.procs ==> WellPlaced(os, p)
  }

  /** One thing that can happen in the system besides our own signals. */
  datatype Act =
    | Fork(actor: nat, child: nat)
    | Regroup(actor: nat, target: nat, group: nat)
    | Continue(actor: nat, target: nat)
    | Slay(actor: nat, target: nat)
    | Exit(target: nat)
    | Die(target: nat)
    | Reap(target: nat)
    | Halt(target: nat)

  predicate Acting(os: Os, p: nat) {
    p in os.procs && os.procs[p].state == Running
  }

  /** Only members of the owned tree signal or regroup its members, and nobody else joins its root group. */
  predicate Touches(os: Os, root: nat, actor: nat, target: nat) {
    && Acting(os, actor) && target in os.procs && target != REAPER
    && (Owned(os, root, target) ==> Owned(os, root, actor))
  }

  predicate Enabled(os: Os, root: nat, act: Act) {
    match act
    case Fork(p, child) => Acting(os, p) && child !in os.procs && child != 0
    case Regroup(p, q, g) => Touches(os, root, p, q) && (g == root ==> Owned(os, root, q))
    case Continue(p, q) => Touches(os, root, p, q) && os.procs[q].state == Stopped
    case Slay(p, q) => Touches(os, root, p, q) && os.procs[q].state != Zombie
    case Exit(p) => Acting(os, p) && p != REAPER
    case Die(p) => p in os.procs && os.procs[p].state == Doomed
    case Reap(p) => p in os.procs && os.procs[p].state == Zombie
    case Halt(p) => Acting(os, p) && p != REAPER
  }

  function SetState(os: Os, p: nat, state: RunState): Os
    requires p in os.procs
  {
    os.(procs := os.procs[p := os.procs[p].(state := state)])
  }

  /** A death: the process becomes a zombie and its children go to the reaper. */
  function Bury(os: Os, p: nat): Os
    requires p in os.procs
  {
    os.(procs := map q | q in os.procs :: Buried(os.procs[q], q, p))
  }

  function Buried(proc: Proc, q: nat, p: nat): Proc {
    if q == p then proc.(state := Zombie) else if proc.parent == p then proc.(parent := REAPER) else proc
  }

  function Apply(os: Os, root: nat, act: Act): Os
    requires Enabled(os, root, act)
  {
    match act
    case Fork(p, child) =>
      Os(os.procs[child := Proc(p, os.procs[p].group, Running, os.clock, os.procs[p].birth)], os.clock + 1)
    case Regroup(p, q, g) => os.(procs := os.procs[q := os.procs[q].(group := g)])
    case Continue(p, q) => SetState(os, q, Running)
    case Slay(p, q) => SetState(os, q, Doomed)
    case Exit(p) => Bury(os, p)
    case Die(p) => Bury(os, p)
    case Reap(p) => os.(procs := os.procs - {p})
    case Halt(p) => SetState(os, p, Stopped)
  }

  predicate CanRun(os: Os, root: nat, acts: seq<Act>)
    decreases |acts|
  {
    acts == [] || (Enabled(os, root, acts[0]) && CanRun(Apply(os, root, acts[0]), root, acts[1..]))
  }

  function Run(os: Os, root: nat, acts: seq<Act>): Os
    requires CanRun(os, root, acts)
    decreases |acts|
  {
    if acts == [] then os else Run(Apply(os, root, acts[0]), root, acts[1..])
  }

  lemma UpdateKeepsValid(os: Os, root: nat, q: nat, proc: Proc)
    requires ValidOs(os, root) && q in os.procs && q != REAPER
    requires proc.birth == os.procs[q].birth && proc.parent == os.procs[q].parent
    requires proc.state == Zombie ==> os.procs[q].state == Zombie
    ensures ValidOs(os.(procs := os.procs[q := proc]), root)
  {
    var next := os.(procs := os.procs[q := proc]);
    forall p | p in next.procs ensures WellPlaced(next, p) {
      assert WellPlaced(os, p);
    }
  }

  lemma BuryKeepsValid(os: Os, root: nat, p: nat)
    requires ValidOs(os, root) && p in os.procs && p != REAPER
    ensures ValidOs(Bury(os, p), root)
  {
    var next := Bury(os, p);
    forall q | q in next.procs ensures WellPlaced(next, q) {
      assert WellPlaced(os, q);
    }
    assert BirthsDiffer(next) by {
      assert forall q :: q in next.procs ==> next.procs[q].birth == os.procs[q].birth;
    }
  }

  lemma ForkKeepsValid(os: Os, root: nat, p: nat, child: nat)
    requires ValidOs(os, root) && Enabled(os, root, Fork(p, child))
    ensures ValidOs(Apply(os, root, Fork(p, child)), root)
  {
    var next := Apply(os, root, Fork(p, child));
    forall q | q in next.procs ensures WellPlaced(next, q) {
      assert q in os.procs ==> WellPlaced(os, q);
    }
    assert BirthsDiffer(next) by {
      assert forall q :: q in next.procs ==> q == child || next.procs[q] == os.procs[q];
    }
  }

  lemma ReapKeepsValid(os: Os, root: nat, p: nat)
    requires ValidOs(os, root) && Enabled(os, root, Reap(p))
    ensures ValidOs(Apply(os, root, Reap(p)), root)
  {
    var next := Apply(os, root, Reap(p));
    forall q | q in next.procs ensures WellPlaced(next, q) {
      assert WellPlaced(os, q);
    }
  }

  lemma StepKeepsValid(os: Os, root: nat, act: Act)
    requires ValidOs(os, root) && Enabled(os, root, act)
    ensures ValidOs(Apply(os, root, act), root)
    ensures Apply(os, root, act).clock >= os.clock
  {
    match act
    case Fork(p, child) => ForkKeepsValid(os, root, p, child);
    case Regroup(p, q, g) => UpdateKeepsValid(os, root, q, os.procs[q].(group := g));
    case Continue(p, q) => UpdateKeepsValid(os, root, q, os.procs[q].(state := Running));
    case Slay(p, q) => UpdateKeepsValid(os, root, q, os.procs[q].(state := Doomed));
    case Halt(p) => UpdateKeepsValid(os, root, p, os.procs[p].(state := Stopped));
    case Exit(p) => BuryKeepsValid(os, root, p);
    case Die(p) => BuryKeepsValid(os, root, p);
    case Reap(p) => ReapKeepsValid(os, root, p);
  }

  lemma {:induction false} RunKeepsValid(os: Os, root: nat, acts: seq<Act>)
    requires ValidOs(os, root) && CanRun(os, root, acts)
    ensures ValidOs(Run(os, root, acts), root)
    ensures Run(os, root, acts).clock >= os.clock
    decreases |acts|
  {
    if acts != [] {
      StepKeepsValid(os, root, acts[0]);
      RunKeepsValid(Apply(os, root, acts[0]), root, acts[1..]);
    }
  }

  /** What a successful `ps` reports: every process once, with its relations and its T or Z state. */
  predicate Faithful(table: seq<Row>, os: Os) {
    && Distinct(table) && Pids(table) == os.procs.Keys
    && forall i :: 0 <= i < |table| && table[i].pid in os.procs ==> FaithfulRow(table[i], os.procs[table[i].pid])
  }

  predicate FaithfulRow(row: Row, proc: Proc) {
    && row.parent == proc.parent && row.group == proc.group
    && ('T' in row.stat <==> proc.state == Stopped)
    && ('Z' in row.stat <==> proc.state == Zombie)
  }

  lemma FaithfulLinks(table: seq<Row>, os: Os)
    requires Faithful(table, os)
    ensures TableLinks(table) == OsLinks(os)
  {
    forall p | p in os.procs ensures TableLinks(table)[p] == OsLinks(os)[p] {
      var i := Place(table, p);
      TableLinksOfRow(table, i);
    }
  }

  // ---------- A frozen tree stays frozen ----------

  /** `p` still names the very process that was frozen under that pid. */
  predicate Same(os: Os, births: map<nat, nat>, p: nat) {
    p in os.procs && p in births && os.procs[p].birth == births[p]
  }

  predicate Waiting(os: Os, births: map<nat, nat>, root: nat, row: Row) {
    && Same(os, births, row.pid) && os.procs[row.pid].state == Stopped
    && os.procs[row.pid].group == row.group
    && (row.group != root ==> os.procs[row.pid].parent == row.parent)
  }

  /**
    The state of the system while the frozen processes `births` are killed and
    only the rows `waiting` are still to be signalled: those are all stopped
    where they were, every other frozen process is dying, nothing new has joined
    the tree, and no frozen process has forked since.
   */
  ghost predicate Held(os: Os, root: nat, births: map<nat, nat>, since: nat, waiting: seq<Row>) {
    && Distinct(waiting) && ParentFirst(waiting, root)
    && (forall i :: 0 <= i < |waiting| ==> Waiting(os, births, root, waiting[i]))
    && OthersDying(os, births, Pids(waiting))
    && NoNewcomers(os, root, births)
    && NoOffspring(os, births, since)
  }

  /** Every frozen process outside `waiting` is dying. */
  ghost predicate OthersDying(os: Os, births: map<nat, nat>, waiting: set<nat>) {
    forall p :: Same(os, births, p) && p !in waiting ==> os.procs[p].state in {Doomed, Zombie}
  }

  ghost predicate NoNewcomers(os: Os, root: nat, births: map<nat, nat>) {
    forall p :: p in os.procs && (os.procs[p].group == root || Same(os, births, os.procs[p].parent)) ==>
      Same(os, births, p)
  }

  /** No process in the system was forked by a frozen process after the freeze. */
  ghost predicate NoOffspring(os: Os, births: map<nat, nat>, since: nat) {
    && since <= os.clock && (forall p :: p in births ==> births[p] < since)
    && (forall p, q :: p in os.procs && q in births && os.procs[p].birth == births[q] ==> p == q)
    && (forall p, q :: p in os.procs && os.procs[p].birth >= since && q in births ==> os.procs[p].creator != births[q])
  }

  lemma HeldTree(os: Os, root: nat, births: map<nat, nat>, since: nat, waiting: seq<Row>)
    requires Held(os, root, births, since, waiting)
    ensures forall p :: Owned(os, root, p) ==> Same(os, births, p)
    ensures forall i :: 0 <= i < |waiting| ==> Owned(os, root, waiting[i].pid)
  {
    var links := OsLinks(os);
    TreeIsLeast(links, root);
    var same := set p | p in os.procs && Same(os, births, p);
    assert ClosedFrom(links, root, same) by {
      forall p | p in links && links[p].parent in same ensures p in same {
        assert Same(os, births, os.procs[p].parent);
      }
    }
    forall i | 0 <= i < |waiting| ensures Owned(os, root, waiting[i].pid) {
      WaitingIsOwned(os, root, births, waiting, i);
    }
  }

  lemma {:induction false} WaitingIsOwned(os: Os, root: nat, births: map<nat, nat>, waiting: seq<Row>, i: nat)
    requires Distinct(waiting) && ParentFirst(waiting, root) && i < |waiting|
    requires forall j :: 0 <= j < |waiting| ==> Waiting(os, births, root, waiting[j])
    ensures Owned(os, root, waiting[i].pid)
    decreases i
  {
    TreeIsLeast(OsLinks(os), root);
    var row := waiting[i];
    assert Waiting(os, births, root, row);
    if row.group != root {
      assert Earlier(waiting, i, row.parent);
      var j :| 0 <= j < i && waiting[j].pid == row.parent;
      WaitingIsOwned(os, root, births, waiting, j);
    }
  }

  /** Nothing frozen is running, so an actor is never a frozen process. */
  lemma ActorsAreStrangers(os: Os, root: nat, births: map<nat, nat>, since: nat, waiting: seq<Row>, p: nat)
    requires Held(os, root, births, since, waiting) && Acting(os, p)
    ensures !Same(os, births, p) && p !in Pids(waiting)
  {
    forall i | 0 <= i < |waiting| ensures waiting[i].pid != p {
      assert Waiting(os, births, root, waiting[i]);
    }
  }

  /** An outsider can reach only processes that are not waiting for their signal. */
  lemma TouchedAreNotWaiting(os: Os, root: nat, births: map<nat, nat>, since: nat, waiting: seq<Row>, p: nat, q: nat)
    requires Held(os, root, births, since, waiting) && Touches(os, root, p, q)
    ensures !Owned(os, root, q) && q !in Pids(waiting)
  {
    HeldTree(os, root, births, since, waiting);
    ActorsAreStrangers(os, root, births, since, waiting, p);
    forall i | 0 <= i < |waiting| ensures waiting[i].pid != q {
      assert Owned(os, root, waiting[i].pid);
    }
  }

  lemma HeldUpdate(os: Os, root: nat, births: map<nat, nat>, since: nat, waiting: seq<Row>, q: nat, proc: Proc)
    requires Held(os, root, births, since, waiting)
    requires q in os.procs && q !in Pids(waiting)
    requires proc.birth == os.procs[q].birth && proc.creator == os.procs[q].creator && proc.parent == os.procs[q].parent
    requires proc.group == root ==> os.procs[q].group == root
    requires Same(os, births, q) ==> proc.state in {Doomed, Zombie}
    ensures Held(os.(procs := os.procs[q := proc]), root, births, since, waiting)
  {
    var next := os.(procs := os.procs[q := proc]);
    assert forall p :: Same(next, births, p) <==> Same(os, births, p);
    forall i | 0 <= i < |waiting| ensures Waiting(next, births, root, waiting[i]) {
      assert waiting[i].pid in Pids(waiting);
    }
    UpdateBringsNobody(os, births, since, q, proc);
  }

  lemma UpdateBringsNobody(os: Os, births: map<nat, nat>, since: nat, q: nat, proc: Proc)
    requires NoOffspring(os, births, since) && q in os.procs
    requires proc.birth == os.procs[q].birth && proc.creator == os.procs[q].creator
    ensures NoOffspring(os.(procs := os.procs[q := proc]), births, since)
  {}

  lemma HeldFork(os: Os, root: nat, births: map<nat, nat>, since: nat, waiting: seq<Row>, p: nat, child: nat)
    requires ValidOs(os, root) && Held(os, root, births, since, waiting)
    requires Enabled(os, root, Fork(p, child))
    ensures Held(Apply(os, root, Fork(p, child)), root, births, since, waiting)
  {
    var next := Apply(os, root, Fork(p, child));
    ActorsAreStrangers(os, root, births, since, waiting, p);
    assert forall q :: q in next.procs <==> q == child || q in os.procs;
    assert forall q :: Same(next, births, q) <==> Same(os, births, q);
    forall i | 0 <= i < |waiting| ensures Waiting(next, births, root, waiting[i]) {
      assert Waiting(os, births, root, waiting[i]);
    }
  }

  lemma HeldBury(os: Os, root: nat, births: map<nat, nat>, since: nat, waiting: seq<Row>, p: nat)
    requires ValidOs(os, root) && Held(os, root, births, since, waiting)
    requires p in os.procs && p !in Pids(waiting)
    ensures Held(Bury(os, p), root, births, since, waiting)
  {
    ActorsAreStrangers(os, root, births, since, waiting, REAPER);
    forall i | 0 <= i < |waiting| ensures Waiting(Bury(os, p), births, root, waiting[i]) {
      BuryPassesBy(os, root, births, waiting, p, i);
    }
    BuryBringsNobody(os, root, births, since, p);
    BurySparesNobody(os, births, Pids(waiting), p);
  }

  lemma BurySparesNobody(os: Os, births: map<nat, nat>, waiting: set<nat>, p: nat)
    requires OthersDying(os, births, waiting) && p in os.procs
    ensures OthersDying(Bury(os, p), births, waiting)
  {
    forall q | Same(Bury(os, p), births, q) && q !in waiting ensures Bury(os, p).procs[q].state in {Doomed, Zombie} {
      assert Same(os, births, q);
    }
  }

  lemma BuryBringsNobody(os: Os, root: nat, births: map<nat, nat>, since: nat, p: nat)
    requires NoNewcomers(os, root, births) && NoOffspring(os, births, since)
    requires p in os.procs && !Same(os, births, REAPER)
    ensures NoNewcomers(Bury(os, p), root, births) && NoOffspring(Bury(os, p), births, since)
  {
    var next := Bury(os, p);
    BuryLeavesNoOffspring(os, births, since, p);
    forall q | q in next.procs && (next.procs[q].group == root || Same(next, births, next.procs[q].parent))
      ensures Same(next, births, q)
    {
      assert os.procs[q].group == root || Same(os, births, os.procs[q].parent);
    }
  }

  lemma BuryLeavesNoOffspring(os: Os, births: map<nat, nat>, since: nat, p: nat)
    requires NoOffspring(os, births, since) && p in os.procs
    ensures NoOffspring(Bury(os, p), births, since)
  {
    var next := Bury(os, p);
    forall q | q in next.procs
      ensures next.procs[q].birth == os.procs[q].birth && next.procs[q].creator == os.procs[q].creator
    {}
  }

  /** A death leaves a waiting process where it is: its parent is waiting too, or it sits in the root group. */
  lemma BuryPassesBy(os: Os, root: nat, births: map<nat, nat>, waiting: seq<Row>, p: nat, i: nat)
    requires ParentFirst(waiting, root) && i < |waiting| && Waiting(os, births, root, waiting[i])
    requires p in os.procs && p !in Pids(waiting)
    ensures Waiting(Bury(os, p), births, root, waiting[i])
  {
    assert waiting[i].pid in Pids(waiting);
    if waiting[i].group != root {
      assert Earlier(waiting, i, waiting[i].parent);
      assert waiting[i].parent in Pids(waiting);
    }
  }

  lemma HeldReap(os: Os, root: nat, births: map<nat, nat>, since: nat, waiting: seq<Row>, p: nat)
    requires Held(os, root, births, since, waiting)
    requires p in os.procs && os.procs[p].state == Zombie
    ensures Held(os.(procs := os.procs - {p}), root, births, since, waiting)
  {
    var next := os.(procs := os.procs - {p});
    assert forall q :: Same(next, births, q) <==> Same(os, births, q) && q != p;
    forall i | 0 <= i < |waiting| ensures Waiting(next, births, root, waiting[i]) {
      assert Waiting(os, births, root, waiting[i]);
    }
  }

  /** Whatever else happens in the system, the frozen tree stays held. */
  lemma HeldStep(os: Os, root: nat, births: map<nat, nat>, since: nat, waiting: seq<Row>, act: Act)
    requires ValidOs(os, root) && Enabled(os, root, act) && Held(os, root, births, since, waiting)
    ensures Held(Apply(os, root, act), root, births, since, waiting)
  {
    if act.Regroup? || act.Continue? || act.Slay? {
      TouchedAreNotWaiting(os, root, births, since, waiting, act.actor, act.target);
    }
    match act
    case Fork(p, child) => HeldFork(os, root, births, since, waiting, p, child);
    case Regroup(p, q, g) => HeldUpdate(os, root, births, since, waiting, q, os.procs[q].(group := g));
    case Continue(p, q) => HeldUpdate(os, root, births, since, waiting, q, os.procs[q].(state := Running));
    case Slay(p, q) => HeldUpdate(os, root, births, since, waiting, q, os.procs[q].(state := Doomed));
    case Halt(p) =>
      ActorsAreStrangers(os, root, births, since, waiting, p);
      HeldUpdate(os, root, births, since, waiting, p, os.procs[p].(state := Stopped));
    case Exit(p) =>
      ActorsAreStrangers(os, root, births, since, waiting, p);
      HeldBury(os, root, births, since, waiting, p);
    case Die(p) =>
      DyingAreNotWaiting(os, root, births, waiting, p);
      HeldBury(os, root, births, since, waiting, p);
    case Reap(p) => HeldReap(os, root, births, since, waiting, p);
  }

  lemma DyingAreNotWaiting(os: Os, root: nat, births: map<nat, nat>, waiting: seq<Row>, p: nat)
    requires forall i :: 0 <= i < |waiting| ==> Waiting(os, births, root, waiting[i])
    requires p in os.procs && os.procs[p].state != Stopped
    ensures p !in Pids(waiting)
  {
    forall i | 0 <= i < |waiting| ensures waiting[i].pid != p {
      assert Waiting(os, births, root, waiting[i]);
    }
  }

  lemma {:induction false} HeldRun(os: Os, root: nat, births: map<nat, nat>, since: nat, waiting: seq<Row>,
                                   acts: seq<Act>)
    requires ValidOs(os, root) && CanRun(os, root, acts) && Held(os, root, births, since, waiting)
    ensures Held(Run(os, root, acts), root, births, since, waiting)
    decreases |acts|
  {
    if acts != [] {
      StepKeepsValid(os, root, acts[0]);
      HeldStep(os, root, births, since, waiting, acts[0]);
      HeldRun(Apply(os, root, acts[0]), root, births, since, waiting, acts[1..]);
    }
  }
}
