/**
  Process relations as `ps` reports them, and the ordered maps the cancellation
  code keeps over them (scripts/push-process-tree.mjs). A JavaScript `Map` keeps
  its keys in insertion order and leaves a key where it is when the key is set
  again, so it is modelled as a sequence of rows with distinct process ids.
 */
module ProcessTables {
  import opened Options

  datatype Link = Link(parent: nat, group: nat)

  type Links = map<nat, Link>

  datatype Row = Row(pid: nat, parent: nat, group: nat, stat: string)

  // ---------- The tree of a root group ----------

  function GroupOf(links: Links, root: nat): set<nat> {
    set p | p in links && links[p].group == root
  }

  function Grow(links: Links, members: set<nat>): set<nat> {
    members + set p | p in links && links[p].parent in members
  }

  function Close(links: Links, members: set<nat>): set<nat>
    requires members <= links.Keys
    decreases links.Keys - members
  {
    var grown := Grow(links, members);
    if grown == members then members else Close(links, grown)
  }

  /** The processes owned through `root`: its group and all their descendants. */
  function Tree(links: Links, root: nat): set<nat> {
    Close(links, GroupOf(links, root))
  }

  /** `s` holds the root group and every child of one of its own members. */
  ghost predicate ClosedFrom(links: Links, root: nat, s: set<nat>) {
    && (forall p :: p in links && links[p].group == root ==> p in s)
    && (forall p :: p in links && links[p].parent in s ==> p in s)
  }

  lemma {:induction false} CloseIsLeast(links: Links, root: nat, members: set<nat>)
    requires GroupOf(links, root) <= members <= links.Keys
    ensures members <= Close(links, members) <= links.Keys
    ensures ClosedFrom(links, root, Close(links, members))
    ensures forall s: set<nat> :: ClosedFrom(links, root, s) && members <= s ==> Close(links, members) <= s
    decreases links.Keys - members
  {
    var grown := Grow(links, members);
    if grown == members {
      forall p | p in links && links[p].parent in members ensures p in members {
        assert p in grown;
      }
    } else {
      CloseIsLeast(links, root, grown);
    }
  }

  lemma TreeIsLeast(links: Links, root: nat)
    ensures Tree(links, root) <= links.Keys
    ensures ClosedFrom(links, root, Tree(links, root))
    ensures forall s: set<nat> :: ClosedFrom(links, root, s) ==> Tree(links, root) <= s
  {
    CloseIsLeast(links, root, GroupOf(links, root));
  }

  // ---------- Ordered maps of rows ----------

  function Pids(rows: seq<Row>): set<nat> {
    set i | 0 <= i < |rows| :: rows[i].pid
  }

  predicate Distinct(rows: seq<Row>) {
    forall i, j :: 0 <= i < j < |rows| ==> rows[i].pid != rows[j].pid
  }

  /** The position of a key, or the length of the map when the key is absent. */
  function Place(rows: seq<Row>, pid: nat): (i: nat)
    ensures i <= |rows|
    ensures i < |rows| ==> rows[i].pid == pid
    ensures i == |rows| <==> pid !in Pids(rows)
  {
    if rows == [] then 0
    else
      var last := |rows| - 1;
      var i := Place(rows[..last], pid);
      assert forall j :: 0 <= j < last ==> rows[j] == rows[..last][j];
      if i < last then i else if rows[last].pid == pid then last else |rows|
  }

  function Find(rows: seq<Row>, pid: nat): (r: Option<Row>)
    ensures r.Some? ==> r.value in rows && r.value.pid == pid
    ensures r.None? ==> pid !in Pids(rows)
  {
    var i := Place(rows, pid);
    if i < |rows| then Some(rows[i]) else None
  }

  lemma FindUnique(rows: seq<Row>, i: nat)
    requires Distinct(rows) && i < |rows|
    ensures Find(rows, rows[i].pid) == Some(rows[i])
  {
    assert rows[i].pid in Pids(rows);
  }

  function TableLinks(rows: seq<Row>): Links {
    map p | p in Pids(rows) :: var r := Find(rows, p).value; Link(r.parent, r.group)
  }

  lemma TableLinksOfRow(rows: seq<Row>, i: nat)
    requires Distinct(rows) && i < |rows|
    ensures rows[i].pid in TableLinks(rows)
    ensures TableLinks(rows)[rows[i].pid] == Link(rows[i].parent, rows[i].group)
  {
    FindUnique(rows, i);
    assert rows[i].pid in Pids(rows);
  }

  /** `Map.set`: an existing key keeps its position, a new one goes to the end. */
  function SetRow(rows: seq<Row>, row: Row): seq<Row> {
    var i := Place(rows, row.pid);
    if i < |rows| then rows[i := row] else rows + [row]
  }

  function SetAll(rows: seq<Row>, more: seq<Row>): seq<Row> {
    if more == [] then rows else SetRow(SetAll(rows, more[..|more| - 1]), more[|more| - 1])
  }

  predicate SamePlaces(before: seq<Row>, after: seq<Row>) {
    |before| <= |after| && forall i :: 0 <= i < |before| ==> after[i].pid == before[i].pid
  }

  lemma SetRowKeepsPlaces(rows: seq<Row>, row: Row)
    requires Distinct(rows)
    ensures var after := SetRow(rows, row);
      && Distinct(after) && SamePlaces(rows, after)
      && |after| <= |rows| + 1
      && after[Place(rows, row.pid)] == row
      && (forall i :: 0 <= i < |rows| && i != Place(rows, row.pid) ==> after[i] == rows[i])
  {
    forall i | 0 <= i < |rows| ensures rows[i].pid in Pids(rows) {}
  }

  // ---------- Parents before children ----------

  predicate Earlier(rows: seq<Row>, i: nat, pid: nat)
    requires i <= |rows|
  {
    exists j :: 0 <= j < i && rows[j].pid == pid
  }

  /** Every row outside the root group comes after the row of its parent. */
  predicate ParentFirst(rows: seq<Row>, root: nat) {
    forall i :: 0 <= i < |rows| && rows[i].group != root ==> Earlier(rows, i, rows[i].parent)
  }

  predicate Unmoved(row: Row, now: Option<Row>) {
    now.Some? && now.value.parent == row.parent && now.value.group == row.group
  }

  /** What the re-check between two snapshots demands of the rows already owned. */
  predicate Consistent(owned: seq<Row>, related: seq<Row>) {
    forall i :: 0 <= i < |owned| ==> Unmoved(owned[i], Find(related, owned[i].pid))
  }

  /**
    Taking over an observation row by row keeps every parent ahead of its
    children, because keys that are set again do not move and new keys arrive
    in the order of the observation.
   */
  lemma {:induction false} AdoptPrefix(before: seq<Row>, related: seq<Row>, root: nat, k: nat)
    requires Distinct(before) && Distinct(related) && k <= |related|
    requires Consistent(before, related)
    requires ParentFirst(before, root) && ParentFirst(related, root)
    ensures var after := SetAll(before, related[..k]);
      && Distinct(after) && SamePlaces(before, after)
      && ParentFirst(after, root) && Consistent(after, related)
      && (forall m :: 0 <= m < k ==> Find(after, related[m].pid) == Some(related[m]))
  {
    if k == 0 {
      assert related[..0] == [];
    } else {
      AdoptPrefix(before, related, root, k - 1);
      assert related[..k][..k - 1] == related[..k - 1];
      AdoptRow(SetAll(before, related[..k - 1]), related, root, k - 1);
    }
  }

  lemma AdoptRow(mid: seq<Row>, related: seq<Row>, root: nat, k: nat)
    requires Distinct(mid) && Distinct(related) && k < |related|
    requires ParentFirst(mid, root) && ParentFirst(related, root) && Consistent(mid, related)
    requires forall m :: 0 <= m < k ==> Find(mid, related[m].pid) == Some(related[m])
    ensures var after := SetRow(mid, related[k]);
      && Distinct(after) && SamePlaces(mid, after)
      && ParentFirst(after, root) && Consistent(after, related)
      && (forall m :: 0 <= m <= k ==> Find(after, related[m].pid) == Some(related[m]))
  {
    var row, after := related[k], SetRow(mid, related[k]);
    SetRowKeepsPlaces(mid, row);
    FindUnique(related, k);
    var place := Place(mid, row.pid);
    FindUnique(after, place);
    forall i | 0 <= i < |after| && after[i].group != root ensures Earlier(after, i, after[i].parent) {
      if i < |mid| {
        assert Unmoved(mid[i], Find(related, mid[i].pid));
        assert Earlier(mid, i, mid[i].parent);
        var j :| 0 <= j < i && mid[j].pid == mid[i].parent;
        assert after[j].pid == after[i].parent;
      } else {
        assert Earlier(related, k, row.parent);
        var j :| 0 <= j < k && related[j].pid == row.parent;
        var m := Place(mid, related[j].pid);
        assert after[m].pid == after[i].parent;
      }
    }
    forall m | 0 <= m < k ensures Find(after, related[m].pid) == Some(related[m]) {
      FindUnique(after, Place(mid, related[m].pid));
    }
  }

  /** After a whole consistent observation the owned rows are exactly the observed ones. */
  lemma AdoptAll(before: seq<Row>, related: seq<Row>, root: nat)
    requires Distinct(before) && Distinct(related) && Consistent(before, related)
    requires ParentFirst(before, root) && ParentFirst(related, root)
    ensures var after := SetAll(before, related);
      && Distinct(after) && SamePlaces(before, after) && ParentFirst(after, root)
      && Pids(after) == Pids(related)
      && (forall i :: 0 <= i < |after| ==> Find(related, after[i].pid) == Some(after[i]))
  {
    AdoptPrefix(before, related, root, |related|);
    assert related[..|related|] == related;
    var after := SetAll(before, related);
    forall i | 0 <= i < |after| ensures Find(related, after[i].pid) == Some(after[i]) {
      assert Unmoved(after[i], Find(related, after[i].pid));
      var m := Place(related, after[i].pid);
      assert Find(after, related[m].pid) == Some(related[m]);
      FindUnique(after, i);
    }
    forall m | 0 <= m < |related| ensures related[m].pid in Pids(after) {
      assert Find(after, related[m].pid) == Some(related[m]);
    }
    forall i | 0 <= i < |after| ensures after[i].pid in Pids(related) {
      assert Find(related, after[i].pid).Some?;
    }
  }

  // ---------- The closure loop ----------

  function GroupRows(table: seq<Row>, root: nat): seq<Row> {
    if table == [] then []
    else
      var rest := GroupRows(table[..|table| - 1], root);
      var row := table[|table| - 1];
      if row.group == root then rest + [row] else rest
  }

  /** Some row of the table, by position. */
  predicate RowOf(table: seq<Row>, row: Row) {
    exists i :: 0 <= i < |table| && table[i] == row
  }

  predicate RowsOf(rows: seq<Row>, table: seq<Row>) {
    forall i :: 0 <= i < |rows| ==> RowOf(table, rows[i])
  }

  lemma {:induction false} GroupRowsAreTheGroup(table: seq<Row>, root: nat, k: nat)
    requires Distinct(table) && k <= |table|
    ensures var rows := GroupRows(table[..k], root);
      && Distinct(rows)
      && (forall i :: 0 <= i < |rows| ==> rows[i].group == root && RowOf(table[..k], rows[i]))
      && (forall i :: 0 <= i < k && table[i].group == root ==> RowOf(rows, table[i]))
  {
    if k > 0 {
      GroupRowsAreTheGroup(table, root, k - 1);
      var rest := GroupRows(table[..k - 1], root);
      var rows := GroupRows(table[..k], root);
      assert table[..k][..k - 1] == table[..k - 1];
      forall i | 0 <= i < |rows| ensures RowOf(table[..k], rows[i]) {
        if i < |rest| {
          var j :| 0 <= j < k - 1 && table[..k - 1][j] == rest[i];
          assert table[..k][j] == rows[i];
        } else {
          assert table[..k][k - 1] == rows[i];
        }
      }
      forall i | 0 <= i < |rest| ensures rest[i].pid != table[k - 1].pid {
        var j :| 0 <= j < k - 1 && table[..k - 1][j] == rest[i];
      }
      forall i | 0 <= i < k && table[i].group == root ensures RowOf(rows, table[i]) {
        if i < k - 1 {
          var j :| 0 <= j < |rest| && rest[j] == table[i];
          assert rows[j] == table[i];
        } else {
          assert rows[|rest|] == table[i];
        }
      }
    }
  }

  /** What the closure loop keeps: a parent-first part of the tree that holds the root group. */
  ghost predicate Growing(table: seq<Row>, root: nat, related: seq<Row>) {
    && Distinct(related) && ParentFirst(related, root) && RowsOf(related, table)
    && GroupOf(TableLinks(table), root) <= Pids(related) <= Tree(TableLinks(table), root)
  }

  /** None of the first `n` rows is a child of a member without being a member. */
  predicate Settled(table: seq<Row>, n: nat, members: set<nat>)
    requires n <= |table|
  {
    forall i :: 0 <= i < n ==> table[i].parent !in members || table[i].pid in members
  }

  /**
    The rows related to `root`: its group, then children found pass by pass over
    the table until a whole pass adds nothing. The result is exactly the least
    closed set, in an order that lists parents before children.
   */
  method RelatedRows(table: seq<Row>, root: nat) returns (related: seq<Row>)
    requires Distinct(table)
    ensures Distinct(related) && RowsOf(related, table)
    ensures Pids(related) == Tree(TableLinks(table), root)
    ensures ParentFirst(related, root)
  {
    related := GroupRows(table, root);
    GroupIsGrowing(table, root);
    var changed := true;
    while changed
      invariant Growing(table, root, related)
      invariant !changed ==> Settled(table, |table|, Pids(related))
      decreases Tree(TableLinks(table), root) - Pids(related), changed
    {
      related, changed := OnePass(table, root, related);
    }
    ClosedRows(table, root, related);
  }

  /** One pass over the table: it grows the rows, or finds that they are settled. */
  method OnePass(table: seq<Row>, root: nat, start: seq<Row>) returns (related: seq<Row>, changed: bool)
    requires Distinct(table) && Growing(table, root, start)
    ensures Growing(table, root, related)
    ensures if changed then Pids(start) < Pids(related) else related == start && Settled(table, |table|, Pids(related))
  {
    related, changed := start, false;
    for i := 0 to |table|
      invariant Growing(table, root, related)
      invariant if changed then Pids(start) < Pids(related) else related == start && Settled(table, i, Pids(related))
    {
      if table[i].pid !in Pids(related) && table[i].parent in Pids(related) {
        GrowingByChild(table, root, related, i);
        related := related + [table[i]];
        changed := true;
      } else if !changed {
        SettledStep(table, i, Pids(related));
      }
    }
  }

  lemma SettledStep(table: seq<Row>, n: nat, members: set<nat>)
    requires n < |table| && Settled(table, n, members) && (table[n].parent !in members || table[n].pid in members)
    ensures Settled(table, n + 1, members)
  {}

  lemma GroupIsGrowing(table: seq<Row>, root: nat)
    requires Distinct(table)
    ensures Growing(table, root, GroupRows(table, root))
  {
    var links, related := TableLinks(table), GroupRows(table, root);
    TreeIsLeast(links, root);
    assert table[..|table|] == table;
    GroupRowsAreTheGroup(table, root, |table|);
    forall p | p in GroupOf(links, root) ensures p in Pids(related) {
      var i := Place(table, p);
      TableLinksOfRow(table, i);
      assert RowOf(related, table[i]);
    }
    forall p | p in Pids(related) ensures p in Tree(links, root) {
      var m :| 0 <= m < |related| && related[m].pid == p;
      assert RowOf(table, related[m]);
      var i :| 0 <= i < |table| && table[i] == related[m];
      TableLinksOfRow(table, i);
    }
  }

  lemma AppendedPids(rows: seq<Row>, row: Row)
    ensures Pids(rows + [row]) == Pids(rows) + {row.pid}
  {
    var next := rows + [row];
    assert next[|rows|] == row;
    forall p | p in Pids(rows) ensures p in Pids(next) {
      assert next[Place(rows, p)].pid == p;
    }
  }

  lemma AppendChild(rows: seq<Row>, row: Row, root: nat)
    requires Distinct(rows) && ParentFirst(rows, root)
    requires row.pid !in Pids(rows) && row.parent in Pids(rows)
    ensures Distinct(rows + [row]) && ParentFirst(rows + [row], root)
  {
    var next := rows + [row];
    forall m | 0 <= m < |rows| ensures rows[m].pid in Pids(rows) {}
    forall m | 0 <= m < |next| && next[m].group != root ensures Earlier(next, m, next[m].parent) {
      if m < |rows| {
        assert Earlier(rows, m, rows[m].parent);
        var j :| 0 <= j < m && rows[j].pid == rows[m].parent;
        assert next[j].pid == next[m].parent;
      } else {
        assert next[Place(rows, row.parent)].pid == next[m].parent;
      }
    }
  }

  lemma GrowingByChild(table: seq<Row>, root: nat, related: seq<Row>, i: nat)
    requires Distinct(table) && Growing(table, root, related) && i < |table|
    requires table[i].pid !in Pids(related) && table[i].parent in Pids(related)
    ensures Growing(table, root, related + [table[i]])
    ensures Pids(related) < Pids(related + [table[i]])
  {
    AppendedPids(related, table[i]);
    AppendChild(related, table[i], root);
    AppendedRows(related, table, i);
    ChildIsInTree(table, root, Pids(related), i);
  }

  lemma AppendedRows(rows: seq<Row>, table: seq<Row>, i: nat)
    requires RowsOf(rows, table) && i < |table|
    ensures RowsOf(rows + [table[i]], table)
  {
    assert RowOf(table, table[i]);
  }

  lemma ChildIsInTree(table: seq<Row>, root: nat, members: set<nat>, i: nat)
    requires Distinct(table) && i < |table| && table[i].parent in members && members <= Tree(TableLinks(table), root)
    ensures table[i].pid in Tree(TableLinks(table), root)
  {
    TableLinksOfRow(table, i);
    TreeIsLeast(TableLinks(table), root);
  }

  lemma ClosedRows(table: seq<Row>, root: nat, related: seq<Row>)
    requires Distinct(table) && Growing(table, root, related) && Settled(table, |table|, Pids(related))
    ensures Pids(related) == Tree(TableLinks(table), root)
  {
    var links := TableLinks(table);
    TreeIsLeast(links, root);
    forall p | p in links && links[p].parent in Pids(related) ensures p in Pids(related) {
      TableLinksOfRow(table, Place(table, p));
    }
    assert ClosedFrom(links, root, Pids(related)) by {
      assert forall p :: p in links && links[p].group == root ==> p in GroupOf(links, root);
    }
  }
}
