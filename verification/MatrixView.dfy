/** Reading a test back: the axes and cells of `get_matrix` (services/api/src/routes/tests.rs), the
    job list of `create_test`, and the Previous/Next walk of services/api/src/routes/subtasks.rs.
    A query without a promised order is any sequence with the right members. */
module MatrixView {
  import opened Wrappers
  import opened Domain
  import opened Matrix
  import opened Store
  import opened Protocol
  import opened ProtocolSafety

  /** The rows of test `t` are `ids`, laid out row-major over `axes`. */
  ghost predicate LaidOut(db: Db, t: Uuid, axes: Axes, ids: seq<Uuid>)
  {
    && Distinct(ids)
    && |ids| == |axes.groups| * |axes.sigAlgs|
    && (forall id :: id in ids <==> id in RowsOf(db, t))
    && (forall k :: 0 <= k < |ids| ==> ids[k] in db.subtasks && db.subtasks[ids[k]].cell == CellAt(axes, k))
  }

  lemma CommitLaysOut(cfg: Config, s: State, t: Uuid, body: NewTest, ids: seq<Uuid>)
    requires Inv(cfg, s) && Enabled(cfg, s, Commit(t, body, ids))
    ensures LaidOut(Apply(cfg, s, Commit(t, body, ids)).db, t, Accept(body, cfg.limits).value, ids)
  {
    var axes := Accept(body, cfg.limits).value;
    InsertedLaidOut(cfg, s.db, t, body.adapter, axes, ids);
  }

  lemma InsertedLaidOut(cfg: Config, db: Db, t: Uuid, adapter: string, axes: Axes, ids: seq<Uuid>)
    requires DbOk(cfg, db) && t !in db.tests && Distinct(ids) && |ids| == |axes.groups| * |axes.sigAlgs|
    requires forall id :: id in ids ==> id !in db.subtasks
    ensures LaidOut(TestInserted(db, t, adapter, axes, ids), t, axes, ids)
  {
    var db' := TestInserted(db, t, adapter, axes, ids);
    forall id
      ensures id in ids <==> id in RowsOf(db', t)
    {
      InsertedRow(db, t, adapter, axes, ids, id);
      if id in db.subtasks { assert RowOk(cfg, db, id); }
    }
  }

  lemma LayoutGrows(db: Db, db': Db, t: Uuid, axes: Axes, ids: seq<Uuid>)
    requires Grows(db, db') && t in db.tests && LaidOut(db, t, axes, ids)
    ensures LaidOut(db', t, axes, ids)
  {
    assert RowsOf(db', t) == RowsOf(db, t);
    forall k | 0 <= k < |ids|
      ensures ids[k] in db'.subtasks && db'.subtasks[ids[k]].cell == CellAt(axes, k)
    {
      assert ids[k] in db.subtasks;
    }
  }

  /** The layout outlives every run: no worker ever moves, drops or adds a cell. */
  lemma LayoutStays(cfg: Config, s: State, t: Uuid, axes: Axes, ids: seq<Uuid>, run: seq<Action>, r: State)
    requires Inv(cfg, s) && t in s.db.tests && LaidOut(s.db, t, axes, ids) && Reaches(cfg, s, run, r)
    ensures LaidOut(r.db, t, axes, ids)
  {
    RunKeepsInv(cfg, s, run, r);
    LayoutGrows(s.db, r.db, t, axes, ids);
  }

  function OrdinalOf(db: Db, id: Uuid): nat
    requires id in db.subtasks
  {
    db.subtasks[id].cell.ordinal
  }

  lemma LaidOutOrdinal(db: Db, t: Uuid, axes: Axes, ids: seq<Uuid>, id: Uuid) returns (k: nat)
    requires LaidOut(db, t, axes, ids) && id in RowsOf(db, t)
    ensures k < |ids| && ids[k] == id && OrdinalOf(db, id) == k
  {
    k :| 0 <= k < |ids| && ids[k] == id;
  }

  // ---------------------------------------------------------------- the jobs

  /** The `INSERT ... RETURNING` rows in any order. */
  ghost predicate Returned(db: Db, t: Uuid, rows: seq<Uuid>)
  {
    Distinct(rows) && forall id :: id in rows <==> id in RowsOf(db, t)
  }

  function Jobs(db: Db, t: Uuid, adapter: string, rows: seq<Uuid>): (jobs: seq<ProbeJob>)
    requires forall id :: id in rows ==> id in db.subtasks
    ensures |jobs| == |rows|
  {
    seq(|rows|, k requires 0 <= k < |rows| =>
      ProbeJob(t, rows[k], adapter, db.subtasks[rows[k]].cell.group, db.subtasks[rows[k]].cell.sigAlg))
  }

  /** For every cell there is exactly one job, whatever the order of the returned rows, and it is the job
      of the row that holds the cell. */
  lemma JobsCoverMatrix(db: Db, t: Uuid, adapter: string, axes: Axes, ids: seq<Uuid>, rows: seq<Uuid>, g: nat, a: nat)
    requires LaidOut(db, t, axes, ids) && Returned(db, t, rows)
    requires Distinct(axes.groups) && Distinct(axes.sigAlgs) && g < |axes.groups| && a < |axes.sigAlgs|
    ensures g * |axes.sigAlgs| + a < |ids|
    ensures exists k :: 0 <= k < |rows| && rows[k] == ids[g * |axes.sigAlgs| + a]
    ensures forall k :: 0 <= k < |rows| ==>
              var job := Jobs(db, t, adapter, rows)[k];
              && job.test == t && job.adapter == adapter && job.subtask == rows[k]
              && (job.group == axes.groups[g] && job.sigAlg == axes.sigAlgs[a] <==>
                    job.subtask == ids[g * |axes.sigAlgs| + a])
  {
    var width := |axes.sigAlgs|;
    RowMajorIndex(g, a, |axes.groups|, width);
    var id := ids[g * width + a];
    assert id in RowsOf(db, t) && id in rows;
    forall k | 0 <= k < |rows|
      ensures var job := Jobs(db, t, adapter, rows)[k];
              (job.group == axes.groups[g] && job.sigAlg == axes.sigAlgs[a] <==> job.subtask == id)
    {
      assert rows[k] in RowsOf(db, t);
      var n := LaidOutOrdinal(db, t, axes, ids, rows[k]);
      SameCell(axes, n, g, a);
    }
  }

  /** A cell's names determine its place. */
  lemma SameCell(axes: Axes, n: nat, g: nat, a: nat)
    requires Distinct(axes.groups) && Distinct(axes.sigAlgs) && g < |axes.groups| && a < |axes.sigAlgs|
    requires n < |axes.groups| * |axes.sigAlgs|
    ensures CellAt(axes, n).group == axes.groups[g] && CellAt(axes, n).sigAlg == axes.sigAlgs[a] <==>
            n == g * |axes.sigAlgs| + a
  {
    IndexInRows(n, |axes.groups|, |axes.sigAlgs|);
    RowMajorIndex(g, a, |axes.groups|, |axes.sigAlgs|);
  }

  // ---------------------------------------------------------------- the matrix

  /** `SELECT ... WHERE test_id = t ORDER BY ordinal`. */
  ghost predicate Fetched(db: Db, t: Uuid, rows: seq<Uuid>)
  {
    && Returned(db, t, rows)
    && forall i, j :: 0 <= i < j < |rows| ==>
         rows[i] in db.subtasks && rows[j] in db.subtasks && OrdinalOf(db, rows[i]) <= OrdinalOf(db, rows[j])
  }

  lemma SameMembersSameLength(a: seq<Uuid>, b: seq<Uuid>)
    requires Distinct(a) && Distinct(b) && forall x :: x in a <==> x in b
    ensures |a| == |b|
  {
    DistinctCardinality(a);
    DistinctCardinality(b);
    assert Members(a) == Members(b);
  }

  /** Rows fetched in order of their ordinals are the row-major layout. */
  lemma FetchedIsRowMajor(db: Db, t: Uuid, axes: Axes, ids: seq<Uuid>, rows: seq<Uuid>)
    requires LaidOut(db, t, axes, ids) && Fetched(db, t, rows)
    ensures rows == ids
  {
    SameMembersSameLength(ids, rows);
    forall k | 0 <= k < |rows|
      ensures rows[k] == ids[k]
    {
      assert rows[k] in RowsOf(db, t);
      var n := LaidOutOrdinal(db, t, axes, ids, rows[k]);
      AtLeast(db, t, axes, ids, rows, k);
      AtMost(db, t, axes, ids, rows, k);
    }
  }

  lemma Rising(db: Db, t: Uuid, axes: Axes, ids: seq<Uuid>, rows: seq<Uuid>, k: nat)
    requires LaidOut(db, t, axes, ids) && Fetched(db, t, rows) && k + 1 < |rows|
    ensures rows[k] in db.subtasks && rows[k + 1] in db.subtasks
    ensures OrdinalOf(db, rows[k]) < OrdinalOf(db, rows[k + 1])
  {
    assert rows[k] in RowsOf(db, t) && rows[k + 1] in RowsOf(db, t);
    var m := LaidOutOrdinal(db, t, axes, ids, rows[k]);
    var n := LaidOutOrdinal(db, t, axes, ids, rows[k + 1]);
  }

  lemma {:induction false} AtLeast(db: Db, t: Uuid, axes: Axes, ids: seq<Uuid>, rows: seq<Uuid>, k: nat)
    requires LaidOut(db, t, axes, ids) && Fetched(db, t, rows) && k < |rows|
    ensures rows[k] in db.subtasks && k <= OrdinalOf(db, rows[k])
  {
    assert rows[k] in RowsOf(db, t);
    if k > 0 {
      AtLeast(db, t, axes, ids, rows, k - 1);
      Rising(db, t, axes, ids, rows, k - 1);
    }
  }

  lemma {:induction false} AtMost(db: Db, t: Uuid, axes: Axes, ids: seq<Uuid>, rows: seq<Uuid>, k: nat)
    requires LaidOut(db, t, axes, ids) && Fetched(db, t, rows) && k < |rows| == |ids|
    ensures rows[k] in db.subtasks && OrdinalOf(db, rows[k]) <= k
    decreases |rows| - k
  {
    assert rows[k] in RowsOf(db, t);
    var n := LaidOutOrdinal(db, t, axes, ids, rows[k]);
    if k + 1 < |rows| {
      AtMost(db, t, axes, ids, rows, k + 1);
      Rising(db, t, axes, ids, rows, k);
    }
  }

  function GroupNames(db: Db, rows: seq<Uuid>): (names: seq<string>)
    requires forall id :: id in rows ==> id in db.subtasks
    ensures |names| == |rows|
  {
    seq(|rows|, k requires 0 <= k < |rows| => db.subtasks[rows[k]].cell.group)
  }

  function SigAlgNames(db: Db, rows: seq<Uuid>): (names: seq<string>)
    requires forall id :: id in rows ==> id in db.subtasks
    ensures |names| == |rows|
  {
    seq(|rows|, k requires 0 <= k < |rows| => db.subtasks[rows[k]].cell.sigAlg)
  }

  /** The axis loop of `get_matrix`: push a name the first time it is met. */
  method AxesOf(db: Db, rows: seq<Uuid>) returns (axes: Axes)
    requires forall id :: id in rows ==> id in db.subtasks
    ensures axes == Axes(FirstSeen(GroupNames(db, rows)), FirstSeen(SigAlgNames(db, rows)))
  {
    var groups: seq<string>, sigAlgs: seq<string> := [], [];
    var allGroups, allSigAlgs := GroupNames(db, rows), SigAlgNames(db, rows);
    for i := 0 to |rows|
      invariant groups == FirstSeen(allGroups[..i]) && sigAlgs == FirstSeen(allSigAlgs[..i])
    {
      assert allGroups[..i + 1] == allGroups[..i] + [allGroups[i]];
      assert allSigAlgs[..i + 1] == allSigAlgs[..i] + [allSigAlgs[i]];
      FirstSeenStep(allGroups[..i], allGroups[i]);
      FirstSeenStep(allSigAlgs[..i], allSigAlgs[i]);
      var cell := db.subtasks[rows[i]].cell;
      if cell.group !in groups {
        groups := groups + [cell.group];
      }
      if cell.sigAlg !in sigAlgs {
        sigAlgs := sigAlgs + [cell.sigAlg];
      }
    }
    assert allGroups[..|rows|] == allGroups && allSigAlgs[..|rows|] == allSigAlgs;
    return Axes(groups, sigAlgs);
  }

  /** A list that takes the values of `groups` one after another, each for a while. */
  lemma {:induction false} GroupAxis(groups: seq<string>, at: seq<nat>, names: seq<string>, n: nat)
    requires Distinct(groups) && |at| == |names| && 0 < n <= |names| && at[0] == 0
    requires forall k :: 0 <= k < |names| ==> at[k] < |groups| && names[k] == groups[at[k]]
    requires forall k :: 0 < k < |names| ==> at[k] == at[k - 1] || at[k] == at[k - 1] + 1
    ensures FirstSeen(names[..n]) == groups[..at[n - 1] + 1]
  {
    var m := n - 1;
    assert names[..n] == names[..m] + [names[m]];
    FirstSeenStep(names[..m], names[m]);
    if m > 0 {
      GroupAxis(groups, at, names, m);
      var seen, q := groups[..at[m - 1] + 1], at[m];
      if q == at[m - 1] {
        assert seen[q] == groups[q];
      } else {
        assert groups[q] !in seen;
        assert groups[..q + 1] == seen + [groups[q]];
      }
    } else {
      assert names[..0] == [];
    }
  }

  lemma NextIndex(m: nat, width: nat)
    requires width > 0
    ensures if m % width == width - 1 then (m + 1) / width == m / width + 1 && (m + 1) % width == 0
            else (m + 1) / width == m / width && (m + 1) % width == m % width + 1
  {
    assert m == (m / width) * width + m % width;
    if m % width == width - 1 {
      assert m + 1 == (m / width + 1) * width + 0;
      DivModUnique(m / width + 1, 0, width);
    } else {
      DivModUnique(m / width, m % width + 1, width);
    }
  }

  /** A list that lists `sigAlgs` once and then only repeats them. */
  lemma {:induction false} SigAlgAxis(sigAlgs: seq<string>, names: seq<string>, n: nat)
    requires Distinct(sigAlgs) && n <= |names|
    requires forall k :: 0 <= k < |names| ==> names[k] in sigAlgs
    requires forall k :: 0 <= k < |names| && k < |sigAlgs| ==> names[k] == sigAlgs[k]
    ensures FirstSeen(names[..n]) == sigAlgs[..if n < |sigAlgs| then n else |sigAlgs|]
  {
    if n > 0 {
      var m := n - 1;
      SigAlgAxis(sigAlgs, names, m);
      assert names[..n] == names[..m] + [names[m]];
      FirstSeenStep(names[..m], names[m]);
      if m < |sigAlgs| {
        assert sigAlgs[..m + 1] == sigAlgs[..m] + [sigAlgs[m]];
        assert sigAlgs[m] !in sigAlgs[..m];
      } else {
        assert sigAlgs[..|sigAlgs|] == sigAlgs;
        assert names[m] in FirstSeen(names[..m]);
      }
    }
  }

  lemma SigAlgAxisWhole(sigAlgs: seq<string>, names: seq<string>)
    requires Distinct(sigAlgs) && |sigAlgs| <= |names|
    requires forall k :: 0 <= k < |names| ==> names[k] in sigAlgs
    requires forall k :: 0 <= k < |names| && k < |sigAlgs| ==> names[k] == sigAlgs[k]
    ensures FirstSeen(names) == sigAlgs
  {
    SigAlgAxis(sigAlgs, names, |names|);
    assert names[..|names|] == names && sigAlgs[..|sigAlgs|] == sigAlgs;
  }

  /** The row number of every index of a row-major list. */
  lemma RowNumbers(rows: nat, width: nat) returns (at: seq<nat>)
    requires rows > 0 && width > 0
    ensures |at| == rows * width > 0
    ensures forall k :: 0 <= k < |at| ==> at[k] == k / width < rows
    ensures forall k :: 0 < k < |at| ==> at[k] == at[k - 1] || at[k] == at[k - 1] + 1
    ensures at[0] == 0 && at[|at| - 1] == rows - 1
  {
    at := seq(rows * width, k requires 0 <= k => k / width);
    LastRow(rows, width);
    forall k | 0 <= k < |at|
      ensures at[k] < rows
      ensures k > 0 ==> at[k] == at[k - 1] || at[k] == at[k - 1] + 1
    {
      IndexInRows(k, rows, width);
      if k > 0 { NextIndex(k - 1, width); }
    }
    DivModUnique(0, 0, width);
  }

  lemma GroupAt(db: Db, t: Uuid, axes: Axes, ids: seq<Uuid>, k: nat)
    requires LaidOut(db, t, axes, ids) && axes.sigAlgs != [] && k < |ids|
    ensures ids[k] in db.subtasks && k / |axes.sigAlgs| < |axes.groups|
    ensures db.subtasks[ids[k]].cell.group == axes.groups[k / |axes.sigAlgs|]
  {
    IndexInRows(k, |axes.groups|, |axes.sigAlgs|);
    assert db.subtasks[ids[k]].cell == CellAt(axes, k);
  }

  lemma ReadGroups(db: Db, t: Uuid, axes: Axes, ids: seq<Uuid>)
    requires LaidOut(db, t, axes, ids) && Distinct(axes.groups) && axes.groups != [] && axes.sigAlgs != []
    requires forall id :: id in ids ==> id in db.subtasks
    ensures FirstSeen(GroupNames(db, ids)) == axes.groups
  {
    var names := GroupNames(db, ids);
    var at := RowNumbers(|axes.groups|, |axes.sigAlgs|);
    GroupsFollowRows(db, t, axes, ids, at);
    GroupAxis(axes.groups, at, names, |names|);
    assert names[..|names|] == names && axes.groups[..|axes.groups|] == axes.groups;
  }

  lemma GroupsFollowRows(db: Db, t: Uuid, axes: Axes, ids: seq<Uuid>, at: seq<nat>)
    requires LaidOut(db, t, axes, ids) && axes.sigAlgs != [] && |at| == |ids|
    requires forall id :: id in ids ==> id in db.subtasks
    requires forall k :: 0 <= k < |at| ==> at[k] == k / |axes.sigAlgs|
    ensures forall k :: 0 <= k < |ids| ==> at[k] < |axes.groups| && GroupNames(db, ids)[k] == axes.groups[at[k]]
  {
    forall k | 0 <= k < |ids|
      ensures at[k] < |axes.groups| && GroupNames(db, ids)[k] == axes.groups[at[k]]
    {
      GroupAt(db, t, axes, ids, k);
    }
  }

  lemma LastRow(rows: nat, width: nat)
    requires rows > 0 && width > 0
    ensures rows * width > 0 && (rows * width - 1) / width == rows - 1
  {
    MulGrows(rows, width);
    assert rows * width - 1 == (rows - 1) * width + (width - 1);
    DivModUnique(rows - 1, width - 1, width);
  }

  lemma FirstRow(k: nat, rows: nat, width: nat)
    requires k < rows * width
    ensures width > 0 && k % width < width && (k < width ==> k % width == k)
  {
    IndexInRows(k, rows, width);
    if k < width { DivModUnique(0, k, width); }
  }

  lemma SigAlgAt(db: Db, t: Uuid, axes: Axes, ids: seq<Uuid>, k: nat)
    requires LaidOut(db, t, axes, ids) && k < |ids|
    ensures ids[k] in db.subtasks && db.subtasks[ids[k]].cell.sigAlg in axes.sigAlgs
    ensures k < |axes.sigAlgs| ==> db.subtasks[ids[k]].cell.sigAlg == axes.sigAlgs[k]
  {
    assert db.subtasks[ids[k]].cell == CellAt(axes, k);
    FirstRow(k, |axes.groups|, |axes.sigAlgs|);
  }

  lemma SigAlgsFollowRows(db: Db, t: Uuid, axes: Axes, ids: seq<Uuid>)
    requires LaidOut(db, t, axes, ids) && forall id :: id in ids ==> id in db.subtasks
    ensures forall k :: 0 <= k < |ids| ==> SigAlgNames(db, ids)[k] in axes.sigAlgs
    ensures forall k :: 0 <= k < |ids| && k < |axes.sigAlgs| ==> SigAlgNames(db, ids)[k] == axes.sigAlgs[k]
  {
    forall k | 0 <= k < |ids|
      ensures SigAlgNames(db, ids)[k] in axes.sigAlgs
      ensures k < |axes.sigAlgs| ==> SigAlgNames(db, ids)[k] == axes.sigAlgs[k]
    {
      SigAlgAt(db, t, axes, ids, k);
    }
  }

  lemma ReadSigAlgs(db: Db, t: Uuid, axes: Axes, ids: seq<Uuid>)
    requires LaidOut(db, t, axes, ids) && Distinct(axes.sigAlgs) && axes.groups != [] && axes.sigAlgs != []
    requires forall id :: id in ids ==> id in db.subtasks
    ensures FirstSeen(SigAlgNames(db, ids)) == axes.sigAlgs
  {
    SigAlgsFollowRows(db, t, axes, ids);
    MulGrows(|axes.groups|, |axes.sigAlgs|);
    SigAlgAxisWhole(axes.sigAlgs, SigAlgNames(db, ids));
  }

  /** The matrix round trip: whatever happened to the test since, the matrix read back has the two axes
      in the selected order and the cells row by row. */
  lemma MatrixReadBack(db: Db, t: Uuid, axes: Axes, ids: seq<Uuid>, rows: seq<Uuid>)
    requires LaidOut(db, t, axes, ids) && Fetched(db, t, rows)
    requires Distinct(axes.groups) && Distinct(axes.sigAlgs) && axes.groups != [] && axes.sigAlgs != []
    ensures rows == ids && forall id :: id in rows ==> id in db.subtasks
    ensures FirstSeen(GroupNames(db, rows)) == axes.groups
    ensures FirstSeen(SigAlgNames(db, rows)) == axes.sigAlgs
  {
    FetchedIsRowMajor(db, t, axes, ids, rows);
    forall id | id in rows
      ensures id in db.subtasks
    {
      assert id in RowsOf(db, t);
    }
    ReadGroups(db, t, axes, ids);
    ReadSigAlgs(db, t, axes, ids);
  }

  lemma CommittedLayout(cfg: Config, before: seq<Action>, pre: State, t: Uuid, body: NewTest, ids: seq<Uuid>,
                        after: seq<Action>, s: State)
    requires Reaches(cfg, EMPTY, before, pre) && Enabled(cfg, pre, Commit(t, body, ids))
    requires Reaches(cfg, Apply(cfg, pre, Commit(t, body, ids)), after, s)
    ensures LaidOut(s.db, t, Axes(Deduped(body.groups), Deduped(body.sigAlgs)), ids)
  {
    var mid := Apply(cfg, pre, Commit(t, body, ids));
    AfterCommit(cfg, before, pre, t, body, ids, after, s);
    CommitLaysOut(cfg, pre, t, body, ids);
    CommittedCounts(cfg, pre, t, body, ids);
    AcceptedAxes(body, cfg.limits);
    LayoutGrows(mid.db, s.db, t, Accept(body, cfg.limits).value, ids);
  }

  /** From request to matrix: after any run, the rows fetched for a test carry the distinct trimmed names
      of the request on both axes, in the order selected. */
  lemma SelectionReadBack(cfg: Config, before: seq<Action>, pre: State, t: Uuid, body: NewTest, ids: seq<Uuid>,
                          after: seq<Action>, s: State, rows: seq<Uuid>)
    requires Reaches(cfg, EMPTY, before, pre) && Enabled(cfg, pre, Commit(t, body, ids))
    requires Reaches(cfg, Apply(cfg, pre, Commit(t, body, ids)), after, s)
    requires Deduped(body.groups) != [] && Deduped(body.sigAlgs) != []
    requires Fetched(s.db, t, rows)
    ensures rows == ids && forall id :: id in rows ==> id in s.db.subtasks
    ensures FirstSeen(GroupNames(s.db, rows)) == Deduped(body.groups)
    ensures FirstSeen(SigAlgNames(s.db, rows)) == Deduped(body.sigAlgs)
  {
    CommittedLayout(cfg, before, pre, t, body, ids, after, s);
    DedupedMembers(body.groups);
    DedupedMembers(body.sigAlgs);
    MatrixReadBack(s.db, t, Axes(Deduped(body.groups), Deduped(body.sigAlgs)), ids, rows);
  }

  // ---------------------------------------------------------------- Previous and Next

  /** `ordinal > o ORDER BY ordinal ASC LIMIT 1` within the test of `id`. */
  ghost predicate IsNext(db: Db, id: Uuid, r: Option<Uuid>)
    requires id in db.subtasks
  {
    var t, o := db.subtasks[id].test, OrdinalOf(db, id);
    match r
    case None => forall x :: x in RowsOf(db, t) ==> OrdinalOf(db, x) <= o
    case Some(y) =>
      && y in RowsOf(db, t) && o < OrdinalOf(db, y)
      && forall x :: x in RowsOf(db, t) && o < OrdinalOf(db, x) ==> OrdinalOf(db, y) <= OrdinalOf(db, x)
  }

  /** `ordinal < o ORDER BY ordinal DESC LIMIT 1` within the test of `id`. */
  ghost predicate IsPrevious(db: Db, id: Uuid, r: Option<Uuid>)
    requires id in db.subtasks
  {
    var t, o := db.subtasks[id].test, OrdinalOf(db, id);
    match r
    case None => forall x :: x in RowsOf(db, t) ==> o <= OrdinalOf(db, x)
    case Some(y) =>
      && y in RowsOf(db, t) && OrdinalOf(db, y) < o
      && forall x :: x in RowsOf(db, t) && OrdinalOf(db, x) < o ==> OrdinalOf(db, x) <= OrdinalOf(db, y)
  }

  /** Next and Previous are determined, move one cell, and stop exactly at the two ends. */
  lemma NeighbourIsAdjacent(db: Db, t: Uuid, axes: Axes, ids: seq<Uuid>, k: nat, next: Option<Uuid>,
                            previous: Option<Uuid>)
    requires LaidOut(db, t, axes, ids) && k < |ids|
    requires ids[k] in db.subtasks && IsNext(db, ids[k], next) && IsPrevious(db, ids[k], previous)
    ensures next == if k + 1 < |ids| then Some(ids[k + 1]) else None
    ensures previous == if k > 0 then Some(ids[k - 1]) else None
  {
    assert ids[k] in RowsOf(db, t);
    if k + 1 < |ids| {
      assert ids[k + 1] in RowsOf(db, t);
      assert OrdinalOf(db, ids[k + 1]) == k + 1;
    }
    if k > 0 {
      assert ids[k - 1] in RowsOf(db, t);
      assert OrdinalOf(db, ids[k - 1]) == k - 1;
    }
    if next.Some? {
      var n := LaidOutOrdinal(db, t, axes, ids, next.value);
    }
    if previous.Some? {
      var n := LaidOutOrdinal(db, t, axes, ids, previous.value);
    }
  }

  /** The unique index on (test_id, ordinal). */
  ghost predicate OrdinalsUnique(db: Db, t: Uuid)
  {
    forall x, y :: x in RowsOf(db, t) && y in RowsOf(db, t) && OrdinalOf(db, x) == OrdinalOf(db, y) ==> x == y
  }

  /** Previous undoes Next, in any table in which a test's ordinals are unique. */
  lemma PreviousUndoesNext(db: Db, a: Uuid, b: Uuid)
    requires a in db.subtasks && b in db.subtasks
    requires OrdinalsUnique(db, db.subtasks[a].test)
    requires IsNext(db, a, Some(b))
    ensures IsPrevious(db, b, Some(a))
    ensures forall c :: IsPrevious(db, b, Some(c)) ==> c == a
  {
    assert a in RowsOf(db, db.subtasks[a].test);
  }

  /** A path that starts at ordinal 0 and presses Next until there is none. */
  ghost predicate Walk(db: Db, t: Uuid, path: seq<Uuid>)
  {
    && path != []
    && (forall i :: 0 <= i < |path| ==> path[i] in RowsOf(db, t))
    && OrdinalOf(db, path[0]) == 0
    && (forall i :: 0 <= i < |path| - 1 ==> IsNext(db, path[i], Some(path[i + 1])))
    && IsNext(db, path[|path| - 1], None)
  }

  lemma {:induction false} WalkPrefix(db: Db, t: Uuid, axes: Axes, ids: seq<Uuid>, path: seq<Uuid>, i: nat)
    requires LaidOut(db, t, axes, ids) && Walk(db, t, path) && i < |path|
    ensures i < |ids| && path[i] == ids[i]
  {
    var k := LaidOutOrdinal(db, t, axes, ids, path[i]);
    if i > 0 {
      WalkPrefix(db, t, axes, ids, path, i - 1);
      assert IsNext(db, path[i - 1], Some(path[i]));
      assert ids[i - 1] in RowsOf(db, t);
      if i < |ids| {
        assert ids[i] in RowsOf(db, t) && OrdinalOf(db, ids[i]) == i;
      }
    }
  }

  lemma CellHere(db: Db, t: Uuid, axes: Axes, ids: seq<Uuid>, k: nat)
    requires LaidOut(db, t, axes, ids) && k < |ids|
    ensures ids[k] in RowsOf(db, t) && OrdinalOf(db, ids[k]) == k
  {
  }

  /** Next is still offered before the last cell. */
  lemma NotTheEnd(db: Db, t: Uuid, axes: Axes, ids: seq<Uuid>, k: nat)
    requires LaidOut(db, t, axes, ids) && k < |ids| && ids[k] in db.subtasks && IsNext(db, ids[k], None)
    ensures k + 1 == |ids|
  {
    CellHere(db, t, axes, ids, k);
    if k + 1 < |ids| {
      CellHere(db, t, axes, ids, k + 1);
      assert false;
    }
  }

  /** There is such a walk: the layout itself. */
  lemma WalkExists(db: Db, t: Uuid, axes: Axes, ids: seq<Uuid>)
    requires LaidOut(db, t, axes, ids) && ids != []
    ensures Walk(db, t, ids)
  {
    forall k | 0 <= k < |ids|
      ensures ids[k] in RowsOf(db, t) && OrdinalOf(db, ids[k]) == k
    {
      CellHere(db, t, axes, ids, k);
    }
    forall k | 0 <= k < |ids|
      ensures IsNext(db, ids[k], if k + 1 < |ids| then Some(ids[k + 1]) else None)
    {
      forall x | x in RowsOf(db, t) && k < OrdinalOf(db, x)
        ensures k + 1 < |ids| && k + 1 <= OrdinalOf(db, x)
      {
        var n := LaidOutOrdinal(db, t, axes, ids, x);
      }
    }
  }

  lemma TotalShown(rows: set<Uuid>, ids: seq<Uuid>)
    requires Distinct(ids) && forall id :: id in ids <==> id in rows
    ensures |rows| == |ids|
  {
    DistinctCardinality(ids);
    assert rows == Members(ids);
  }

  /** Walking from the first cell visits every subtask exactly once in row-major order, ends at the last,
      and the position shown runs from 1 to the total. */
  lemma WalkVisitsMatrix(db: Db, t: Uuid, axes: Axes, ids: seq<Uuid>, path: seq<Uuid>)
    requires LaidOut(db, t, axes, ids) && Walk(db, t, path)
    ensures path == ids
    ensures forall i :: 0 <= i < |path| ==> path[i] in db.subtasks && OrdinalOf(db, path[i]) + 1 == i + 1
    ensures |RowsOf(db, t)| == |path|
  {
    forall i | 0 <= i < |path|
      ensures i < |ids| && path[i] == ids[i]
    {
      WalkPrefix(db, t, axes, ids, path, i);
    }
    NotTheEnd(db, t, axes, ids, |path| - 1);
    TotalShown(RowsOf(db, t), ids);
  }
}
