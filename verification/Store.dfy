/** The tables and every SQL statement the worker runs on them (services/worker/src/store.rs).
    A statement is a function from table contents to table contents; the methods of `Worker.Deployment`
    execute them in place. */
module Store {
  import opened Wrappers
  import opened Domain
  import opened Matrix

  datatype TestRow = TestRow(status: TaskStatus, adapter: string,
                             groupCount: nat, sigAlgCount: nat, subtaskCount: nat)

  /** `failedStage` and `errorSummary` are null until a worker sets them. */
  datatype SubtaskRow = SubtaskRow(test: Uuid, cell: Cell,
                                   exec: ExecStatus, result: ResultStatus, report: ReportStatus,
                                   failedStage: Option<string>, errorSummary: Option<string>)

  datatype Db = Db(tests: map<Uuid, TestRow>, subtasks: map<Uuid, SubtaskRow>, reports: map<Uuid, ProbeResponse>)

  /** The row of `SELECT count(*) FILTER ...` in `finish_test_if_done`. */
  datatype Counts = Counts(outstanding: nat, passed: nat, failed: nat, errored: nat, total: nat)

  function RowsOf(db: Db, t: Uuid): (ids: set<Uuid>)
  {
    set id | id in db.subtasks && db.subtasks[id].test == t
  }

  // ---------------------------------------------------------------- statements

  /** Guarded: only a pending test becomes running. */
  function TestRunning(db: Db, t: Uuid): (r: Db)
  {
    if t in db.tests && db.tests[t].status == TaskStatus.Pending then
      db.(tests := db.tests[t := db.tests[t].(status := TaskStatus.Running)])
    else db
  }

  /** Unguarded: a finished subtask goes back to running. */
  function SubtaskRunning(db: Db, id: Uuid): (r: Db)
  {
    if id in db.subtasks then
      db.(subtasks := db.subtasks[id := db.subtasks[id].(exec := ExecStatus.Running)])
    else db
  }

  function ReportStatusOf(response: ProbeResponse): ReportStatus
  {
    if response.handshakeSuccess then Complete
    else if !response.hasMessages then Partial
    else Complete
  }

  /** Report row and status columns, in one transaction. */
  function ReportSaved(db: Db, id: Uuid, result: ResultStatus, response: ProbeResponse): (r: Db)
  {
    if id in db.subtasks then
      db.(reports := db.reports[id := response],
          subtasks := db.subtasks[id := db.subtasks[id].(exec := ExecStatus.Finished, result := result,
                                                         report := ReportStatusOf(response),
                                                         failedStage := Some(response.failedStage),
                                                         errorSummary := response.errorSummary)])
    else db
  }

  function SubtaskErrored(db: Db, id: Uuid, reason: string): (r: Db)
  {
    if id in db.subtasks then
      db.(subtasks := db.subtasks[id := db.subtasks[id].(exec := ExecStatus.Error, result := ResultStatus.Failed,
                                                         report := Missing, errorSummary := Some(reason))])
    else db
  }

  function Outstanding(db: Db, t: Uuid): set<Uuid>
  {
    set id | id in RowsOf(db, t) && !TerminalExec(db.subtasks[id].exec)
  }

  function PassedRows(db: Db, t: Uuid): set<Uuid>
  {
    set id | id in RowsOf(db, t) && db.subtasks[id].result == ResultStatus.Passed
  }

  function FailedRows(db: Db, t: Uuid): set<Uuid>
  {
    set id | id in RowsOf(db, t) &&
             (db.subtasks[id].result == ResultStatus.Failed || db.subtasks[id].result == ResultStatus.Unsupported)
  }

  function ErroredRows(db: Db, t: Uuid): set<Uuid>
  {
    set id | id in RowsOf(db, t) && db.subtasks[id].exec == ExecStatus.Error
  }

  function CountRows(db: Db, t: Uuid): (c: Counts)
  {
    Counts(|Outstanding(db, t)|, |PassedRows(db, t)|, |FailedRows(db, t)|, |ErroredRows(db, t)|, |RowsOf(db, t)|)
  }

  /** Which rows each total counts, with nothing abbreviated. */
  lemma CountsAreRows(db: Db, t: Uuid)
    ensures var c := CountRows(db, t);
            && c.passed == |set id | id in db.subtasks && db.subtasks[id].test == t &&
                                     db.subtasks[id].result == ResultStatus.Passed|
            && c.failed == |set id | id in db.subtasks && db.subtasks[id].test == t &&
                                     (db.subtasks[id].result == ResultStatus.Failed ||
                                      db.subtasks[id].result == ResultStatus.Unsupported)|
            && c.outstanding == |set id | id in db.subtasks && db.subtasks[id].test == t &&
                                          (db.subtasks[id].exec == Queued ||
                                           db.subtasks[id].exec == ExecStatus.Running)|
            && c.errored == |set id | id in db.subtasks && db.subtasks[id].test == t &&
                                      db.subtasks[id].exec == ExecStatus.Error|
            && c.total == |set id | id in db.subtasks && db.subtasks[id].test == t|
  {
    assert PassedRows(db, t) == set id | id in db.subtasks && db.subtasks[id].test == t &&
                                         db.subtasks[id].result == ResultStatus.Passed;
    assert FailedRows(db, t) == set id | id in db.subtasks && db.subtasks[id].test == t &&
                                         (db.subtasks[id].result == ResultStatus.Failed ||
                                          db.subtasks[id].result == ResultStatus.Unsupported);
    assert Outstanding(db, t) == set id | id in db.subtasks && db.subtasks[id].test == t &&
                                          (db.subtasks[id].exec == Queued ||
                                           db.subtasks[id].exec == ExecStatus.Running);
    assert RowsOf(db, t) == set id | id in db.subtasks && db.subtasks[id].test == t;
    assert ErroredRows(db, t) == set id | id in db.subtasks && db.subtasks[id].test == t &&
                                          db.subtasks[id].exec == ExecStatus.Error;
  }

  /** Every subtask of the test has run to an end, `passed` of them passed, and `failed` failed or were unsupported. */
  ghost predicate Tally(db: Db, t: Uuid, passed: nat, failed: nat)
  {
    && passed == |set id | id in db.subtasks && db.subtasks[id].test == t &&
                           db.subtasks[id].result == ResultStatus.Passed|
    && failed == |set id | id in db.subtasks && db.subtasks[id].test == t &&
                           (db.subtasks[id].result == ResultStatus.Failed ||
                            db.subtasks[id].result == ResultStatus.Unsupported)|
    && forall id :: id in db.subtasks && db.subtasks[id].test == t ==>
         db.subtasks[id].exec == ExecStatus.Finished || db.subtasks[id].exec == ExecStatus.Error
  }

  /** A SELECT that sees nothing outstanding hands back the true totals, and otherwise there is an unfinished row. */
  lemma SelectTallies(db: Db, t: Uuid)
    ensures var c := CountRows(db, t);
            if c.outstanding == 0 then Tally(db, t, c.passed, c.failed)
            else exists id :: id in db.subtasks && db.subtasks[id].test == t &&
                              (db.subtasks[id].exec == Queued || db.subtasks[id].exec == ExecStatus.Running)
  {
    CountsAreRows(db, t);
    if CountRows(db, t).outstanding == 0 {
      forall id | id in db.subtasks && db.subtasks[id].test == t
        ensures db.subtasks[id].exec == ExecStatus.Finished || db.subtasks[id].exec == ExecStatus.Error
      {
        assert id !in Outstanding(db, t);
      }
    } else {
      assert Outstanding(db, t) != {};
      var id :| id in Outstanding(db, t);
    }
  }

  lemma TallyKept(db: Db, db': Db, t: Uuid, passed: nat, failed: nat)
    requires Tally(db, t, passed, failed) && db'.subtasks == db.subtasks
    ensures Tally(db', t, passed, failed)
  {
  }

  function CloseStatus(c: Counts): (s: TaskStatus)
  {
    if c.errored == c.total && c.total > 0 then TaskStatus.Failed else TaskStatus.Finished
  }

  /** Unguarded: overwrites whatever status the test has. */
  function TestClosed(db: Db, t: Uuid, status: TaskStatus): (r: Db)
  {
    if t in db.tests then db.(tests := db.tests[t := db.tests[t].(status := status)]) else db
  }

  /** The insert transaction of `create_test`. */
  function TestInserted(db: Db, t: Uuid, adapter: string, axes: Axes, ids: seq<Uuid>): (r: Db)
    requires Distinct(ids) && |ids| == |axes.groups| * |axes.sigAlgs|
  {
    var cells := RowMajor(axes);
    Db(db.tests[t := TestRow(TaskStatus.Pending, adapter, |axes.groups|, |axes.sigAlgs|, |ids|)],
       db.subtasks + map k | 0 <= k < |ids| ::
                       ids[k] := SubtaskRow(t, cells[k], Queued, ResultStatus.Pending, Missing, None, None),
       db.reports)
  }

  // ---------------------------------------------------------------- what the statements change

  /** Everything but row `id` is as it was. */
  ghost predicate OnlyRow(db: Db, db': Db, id: Uuid)
  {
    && db'.tests == db.tests
    && db'.subtasks.Keys == db.subtasks.Keys
    && (forall k :: k in db.subtasks && k != id ==> db'.subtasks[k] == db.subtasks[k])
    && (forall k :: k != id ==> (k in db'.reports <==> k in db.reports))
    && (forall k :: k in db.reports && k != id ==> db'.reports[k] == db.reports[k])
    && (id in db.subtasks ==>
          db'.subtasks[id].test == db.subtasks[id].test && db'.subtasks[id].cell == db.subtasks[id].cell)
  }

  /** A pending test becomes running, any other keeps its status, and nothing else changes. */
  lemma OnlyPendingStarts(db: Db, t: Uuid)
    requires t in db.tests
    ensures var r := TestRunning(db, t);
            && t in r.tests && r.tests[t] == db.tests[t].(status := r.tests[t].status)
            && (r.tests[t].status != db.tests[t].status <==> db.tests[t].status == TaskStatus.Pending)
            && (r.tests[t].status == TaskStatus.Running <==>
                  db.tests[t].status == TaskStatus.Pending || db.tests[t].status == TaskStatus.Running)
            && r.tests.Keys == db.tests.Keys
            && (forall u :: u in db.tests && u != t ==> r.tests[u] == db.tests[u])
            && r.subtasks == db.subtasks && r.reports == db.reports
  {
  }

  /** A subtask that is marked running again keeps its result and its report, and is outstanding. */
  lemma MarkKeepsResult(db: Db, id: Uuid)
    requires id in db.subtasks
    ensures var r := SubtaskRunning(db, id);
            && OnlyRow(db, r, id) && r.reports == db.reports
            && r.subtasks[id] == db.subtasks[id].(exec := ExecStatus.Running)
            && Outstanding(r, db.subtasks[id].test) == Outstanding(db, db.subtasks[id].test) + {id}
            && PassedRows(r, db.subtasks[id].test) == PassedRows(db, db.subtasks[id].test)
            && FailedRows(r, db.subtasks[id].test) == FailedRows(db, db.subtasks[id].test)
  {
  }

  /** A saved report ends the subtask; it is complete unless the handshake failed before any message. */
  lemma SaveEndsSubtask(db: Db, id: Uuid, result: ResultStatus, response: ProbeResponse)
    requires id in db.subtasks
    ensures var r := ReportSaved(db, id, result, response);
            && OnlyRow(db, r, id) && id in r.reports && r.reports[id] == response
            && r.subtasks[id].result == result && r.subtasks[id].exec == ExecStatus.Finished
            && (r.subtasks[id].report == Partial <==> !response.handshakeSuccess && !response.hasMessages)
            && r.subtasks[id].report != Missing
            && r.subtasks[id].failedStage == Some(response.failedStage)
            && r.subtasks[id].errorSummary == response.errorSummary
            && Outstanding(r, db.subtasks[id].test) == Outstanding(db, db.subtasks[id].test) - {id}
            && id !in ErroredRows(r, db.subtasks[id].test)
  {
  }

  /** An error ends the subtask too, counts as failed, and leaves any earlier report row and stage in place. */
  lemma ErrorEndsSubtask(db: Db, id: Uuid, reason: string)
    requires id in db.subtasks
    ensures var r := SubtaskErrored(db, id, reason);
            && OnlyRow(db, r, id) && r.reports == db.reports
            && id in ErroredRows(r, db.subtasks[id].test) && id in FailedRows(r, db.subtasks[id].test)
            && r.subtasks[id].exec == ExecStatus.Error && r.subtasks[id].result == ResultStatus.Failed
            && r.subtasks[id].report == Missing && r.subtasks[id].errorSummary == Some(reason)
            && r.subtasks[id].failedStage == db.subtasks[id].failedStage
            && Outstanding(r, db.subtasks[id].test) == Outstanding(db, db.subtasks[id].test) - {id}
  {
  }

  /** The close fails a test exactly when it has subtasks and all of them errored. */
  lemma FailedMeansAllErrored(db: Db, t: Uuid)
    requires Outstanding(db, t) == {}
    ensures CloseStatus(CountRows(db, t)) == TaskStatus.Failed <==>
            RowsOf(db, t) != {} && forall id :: id in RowsOf(db, t) ==> db.subtasks[id].exec == ExecStatus.Error
  {
    var errored, rows := ErroredRows(db, t), RowsOf(db, t);
    assert errored <= rows;
    assert rows == errored + (rows - errored);
    if |errored| == |rows| {
      assert rows - errored == {};
    }
    if forall id :: id in rows ==> db.subtasks[id].exec == ExecStatus.Error {
      assert errored == rows;
    }
  }
}
