/** Concrete runs that show what the conditions of the theorems are for. Tests are stranded by a single handler error,
    by a job that is never queued, by a duplicate that dies after its twin was acknowledged, and by a blank selection;
    a closed test changes its verdict in a mixed deployment, and shows a subtask running again. */
module ProtocolOutcomes {
  import opened Wrappers
  import opened Text
  import opened Domain
  import opened Matrix
  import opened Store
  import opened Protocol
  import opened ProtocolSafety
  import opened ProtocolProgress
  import opened ProtocolClosing
  import opened ProtocolVerdicts

  // ---------------------------------------------------------------- a one-cell test

  const OPENSSL := "openssl"
  const GROUP := "X25519MLKEM768"
  const SIG_ALG := "mldsa65"
  const LAB := Config(map[0 := {OPENSSL}], Limits(512, {GROUP}, {SIG_ALG}))
  const ONE_CELL := NewTest("server", 443, "/", OPENSSL, [GROUP], [SIG_ALG])
  const ONE_JOB := ProbeJob(0, 0, OPENSSL, GROUP, SIG_ALG)
  const REPLY := SOME_REPLY

  function LabState(status: TaskStatus, row: SubtaskRow, reports: map<Uuid, ProbeResponse>,
                    entries: map<EntryId, Entry>, handlers: map<HandlerId, Handler>, events: seq<TestEvent>): State
  {
    State(Db(map[0 := TestRow(status, OPENSSL, 1, 1, 1)], map[0 := row], reports), map[], entries, handlers, events)
  }

  /** The row of its subtask, before and after the report of `REPLY` is saved. */
  function LabRow(exec: ExecStatus, result: ResultStatus, report: ReportStatus): SubtaskRow
  {
    var row := SubtaskRow(0, Cell(0, GROUP, SIG_ALG), exec, result, report, None, None);
    if report == Missing then row
    else row.(failedStage := Some(REPLY.failedStage), errorSummary := REPLY.errorSummary)
  }

  /** A one-cell test committed and its job queued. */
  const SUBMITTED := LabState(TaskStatus.Pending, LabRow(Queued, ResultStatus.Pending, Missing), map[],
                              map[0 := Entry(ONE_JOB, Undelivered)], map[], [])

  lemma LabAccepts()
    ensures Accept(ONE_CELL, LAB.limits) == Ok(Axes([GROUP], [SIG_ALG]))
  {
    TrimPadded("", "server", "");
    assert "" + "server" + "" == "server";
    DedupedOne(GROUP);
    DedupedOne(SIG_ALG);
  }

  lemma LabSubmits()
    ensures Reaches(LAB, EMPTY, [Commit(0, ONE_CELL, [0]), Enqueue(0, 0)], SUBMITTED)
  {
    LabAccepts();
    var a, b := Commit(0, ONE_CELL, [0]), Enqueue(0, 0);
    assert Enabled(LAB, EMPTY, a);
    var s := Apply(LAB, EMPTY, a);
    assert s.db.subtasks == map[0 := LabRow(Queued, ResultStatus.Pending, Missing)];
    assert s.backlog == map[0 := ONE_JOB];
    assert Enabled(LAB, s, b);
    assert Apply(LAB, s, b) == SUBMITTED;
    assert [a, b][1..] == [b];
    assert [b][1..] == [];
  }

  /** Its job can be worked, so closed tests are reachable. */
  lemma LabCanClose()
    ensures CanClose(LAB, SUBMITTED, 0)
  {
    LabSubmits();
    var a, b := Commit(0, ONE_CELL, [0]), Enqueue(0, 0);
    var s := Apply(LAB, EMPTY, a);
    assert [a, b][1..] == [b] && [b][1..] == [];
    assert SmoothRun(LAB, s, [b], 0);
    SmoothTestCanClose(LAB, [a, b], SUBMITTED, 0, 0);
  }

  lemma SubmittedInv()
    ensures Inv(LAB, SUBMITTED)
  {
    LabSubmits();
    RunKeepsInv(LAB, EMPTY, [Commit(0, ONE_CELL, [0]), Enqueue(0, 0)], SUBMITTED);
  }

  lemma Then(cfg: Config, s: State, a: Action, next: State, rest: seq<Action>, r: State)
    requires Enabled(cfg, s, a) && Apply(cfg, s, a) == next && Reaches(cfg, next, rest, r)
    ensures Reaches(cfg, s, [a] + rest, r)
  {
    Cons(cfg, s, a, rest, r);
  }

  const ERROR_RUN := [Deliver(0, 0, 0)] + ([Fail(0)] + ([Ack(0)] + []))

  const AFTER_ERROR := LabState(TaskStatus.Pending, LabRow(Queued, ResultStatus.Pending, Missing), map[],
                               map[0 := Entry(ONE_JOB, Acked)], map[], [])

  lemma ErrorRunReaches()
    ensures Reaches(LAB, SUBMITTED, ERROR_RUN, AFTER_ERROR)
  {
    var s1 := SUBMITTED.(entries := map[0 := Entry(ONE_JOB, Delivered)], handlers := map[0 := Handler(0, 0, Begin)]);
    var s2 := s1.(handlers := map[0 := Handler(0, 0, Done)]);
    Then(LAB, s2, Ack(0), AFTER_ERROR, [], AFTER_ERROR);
    Then(LAB, s1, Fail(0), s2, [Ack(0)] + [], AFTER_ERROR);
    Then(LAB, SUBMITTED, Deliver(0, 0, 0), s1, [Fail(0)] + ([Ack(0)] + []), AFTER_ERROR);
  }

  /** A single handler that returns an error is enough: its job is acknowledged all the same, nothing is recorded on
      its subtask, and the test it belongs to stays open however the system goes on. */
  lemma ErrorStrandsTest(rest: seq<Action>, end: State)
    requires Reaches(LAB, AFTER_ERROR, rest, end)
    ensures Reaches(LAB, SUBMITTED, ERROR_RUN, AFTER_ERROR)
    ensures 0 in end.db.tests && end.db.tests[0].subtaskCount == 1 && end.db.tests[0].status == TaskStatus.Pending
    ensures 0 in end.db.subtasks && end.db.subtasks[0] == LabRow(Queued, ResultStatus.Pending, Missing)
  {
    assert 0 in RowsOf(AFTER_ERROR.db, 0);
    SubmittedInv();
    ErrorRunReaches();
    RunKeepsInv(LAB, SUBMITTED, ERROR_RUN, AFTER_ERROR);
    AcknowledgedForGood(LAB, AFTER_ERROR, rest, end, CloseTest(0));
  }

  const AFTER_DROP := LabState(TaskStatus.Pending, LabRow(Queued, ResultStatus.Pending, Missing), map[], map[],
                               map[], [])
  const DROP_RUN := [Commit(0, ONE_CELL, [0])] + ([DropJob(0)] + [])

  lemma DropRunReaches()
    ensures Reaches(LAB, EMPTY, DROP_RUN, AFTER_DROP)
  {
    LabAccepts();
    var a := Commit(0, ONE_CELL, [0]);
    assert Enabled(LAB, EMPTY, a);
    var s := Apply(LAB, EMPTY, a);
    assert s.db.subtasks == map[0 := LabRow(Queued, ResultStatus.Pending, Missing)];
    assert s.backlog == map[0 := ONE_JOB];
    Then(LAB, s, DropJob(0), AFTER_DROP, [], AFTER_DROP);
    Then(LAB, EMPTY, a, s, [DropJob(0)] + [], AFTER_DROP);
  }

  /** A job that is committed but never queued, because the API died or could not reach the queue, strands its test. */
  lemma LostJobStrandsTest(rest: seq<Action>, end: State)
    requires Reaches(LAB, AFTER_DROP, rest, end)
    ensures Reaches(LAB, EMPTY, DROP_RUN, AFTER_DROP)
    ensures 0 in end.db.tests && end.db.tests[0].subtaskCount == 1 && end.db.tests[0].status == TaskStatus.Pending
  {
    DropRunReaches();
    ReachableInv(LAB, DROP_RUN, AFTER_DROP);
    AcknowledgedForGood(LAB, AFTER_DROP, rest, end, CloseTest(0));
  }

  // ---------------------------------------------------------------- closed, and then

  lemma SubmittedIsOneCell()
    ensures OneCell(SUBMITTED, 0, 0, 0)
  {
    assert RowsOf(SUBMITTED.db, 0) == {0};
  }

  /** A finished test shows a subtask running again: its job is reclaimed after the close and before the
      acknowledgement. */
  lemma ClosedTestRunsAgain() returns (run: seq<Action>, closed: State, more: seq<Action>, end: State)
    ensures Reaches(LAB, SUBMITTED, run, closed) && Reaches(LAB, closed, more, end)
    ensures 0 in closed.db.tests && closed.db.tests[0].status == TaskStatus.Finished
    ensures 0 in end.db.tests && TerminalTask(end.db.tests[0].status) && SomeRunning(end.db, 0)
  {
    SubmittedInv();
    SubmittedIsOneCell();
    run, closed := WorkerDecides(LAB, SUBMITTED, 0, 0, 0, 0);
    more, end := MarkFromEntry(LAB, closed, 0, 0, 0);
    RunKeepsInv(LAB, closed, more, end);
  }

  /** Two workers, of which one lacks the adapter. */
  const MIXED := Config(map[0 := {OPENSSL}, 1 := {}], Limits(512, {GROUP}, {SIG_ALG}))

  /** The verdict of a closed test flips, both ways. */
  lemma MixedLabFlips()
    ensures Flips(MIXED, OPENSSL, TaskStatus.Failed, TaskStatus.Finished)
    ensures Flips(MIXED, OPENSSL, TaskStatus.Finished, TaskStatus.Failed)
  {
    LabAccepts();
    FlipRun(MIXED, ONE_CELL, 1, 0);
    FlipRun(MIXED, ONE_CELL, 0, 1);
  }

  // ---------------------------------------------------------------- blank selections

  /** A selection that is blank once trimmed is accepted when the catalogue checks pass, and its test then
      stays pending in every run. */
  lemma BlankSelectionNeverRuns(cfg: Config, before: seq<Action>, pre: State, t: Uuid, body: NewTest, ids: seq<Uuid>,
                                after: seq<Action>, s: State)
    requires Reaches(cfg, EMPTY, before, pre) && Enabled(cfg, pre, Commit(t, body, ids))
    requires Reaches(cfg, Apply(cfg, pre, Commit(t, body, ids)), after, s)
    requires Deduped(body.groups) == [] || Deduped(body.sigAlgs) == []
    ensures t in s.db.tests && s.db.tests[t].status == TaskStatus.Pending && RowsOf(s.db, t) == {}
  {
    AfterCommit(cfg, before, pre, t, body, ids, after, s);
    EmptyTestPending(cfg, s, t);
  }

  lemma EmptyTestPending(cfg: Config, s: State, t: Uuid)
    requires Inv(cfg, s) && t in s.db.tests
    requires s.db.tests[t].groupCount == 0 || s.db.tests[t].sigAlgCount == 0
    ensures s.db.tests[t].status == TaskStatus.Pending && RowsOf(s.db, t) == {}
  {
    assert TestOk(cfg, s.db, t);
  }

  const BLANK := NewTest("server", 443, "/", OPENSSL, [" "], [SIG_ALG])

  lemma BlankIsAccepted()
    ensures Accept(BLANK, LAB.limits) == Ok(Axes([], [SIG_ALG]))
  {
    TrimPadded("", "server", "");
    assert "" + "server" + "" == "server";
    DedupedOne(SIG_ALG);
    assert Trim(" ") == "";
    assert TrimAll([" "]) == [""];
    assert NonBlank([""]) == [];
  }

  // A duplicate marks the saved subtask running again, the first handler sees it outstanding and leaves
  // the close to it, acknowledges, and then the duplicate dies.

  function Two(p: Pc, q: Pc): map<HandlerId, Handler>
  {
    map[0 := Handler(0, 0, p), 1 := Handler(0, 0, q)]
  }

  function Racing(status: TaskStatus, row: SubtaskRow, reports: map<Uuid, ProbeResponse>, p: Pc, q: Pc,
                  events: seq<TestEvent>): State
  {
    LabState(status, row, reports, map[0 := Entry(ONE_JOB, Delivered)], Two(p, q), events)
  }

  const FRESH_ROW := LabRow(Queued, ResultStatus.Pending, Missing)
  const RUNNING_ROW := LabRow(ExecStatus.Running, ResultStatus.Pending, Missing)
  const SAVED_ROW := LabRow(ExecStatus.Finished, ResultStatus.Passed, Complete)
  const REMARKED_ROW := LabRow(ExecStatus.Running, ResultStatus.Passed, Complete)
  const SHOWN := [SubtaskUpdated(0, ExecStatus.Finished, ResultStatus.Passed)]
  const STEP_0 := Advance(0, REPLY, None)
  const STEP_1 := Advance(1, REPLY, None)
  const SAVED_PC := Saved(ExecStatus.Finished, ResultStatus.Passed)
  const REPORTS := map[0 := REPLY]

  const AFTER_RACE := LabState(TaskStatus.Running, REMARKED_ROW, REPORTS, map[0 := Entry(ONE_JOB, Acked)], map[], SHOWN)
  const RACE_4 := [STEP_0] + ([Ack(0)] + ([Crash(1)] + []))
  const RACE_3 := [STEP_0] + ([STEP_1] + ([STEP_1] + RACE_4))
  const RACE_2 := [STEP_0] + ([STEP_0] + ([STEP_0] + RACE_3))
  const RACE_RUN := [Deliver(0, 0, 0)] + ([Reclaim(0, 1, 0)] + ([STEP_0] + RACE_2))

  const AT_1 := Racing(TaskStatus.Running, FRESH_ROW, map[], TestMarked, Begin, [])
  const AT_2 := Racing(TaskStatus.Running, SAVED_ROW, REPORTS, SAVED_PC, Begin, [])
  const AT_3 := Racing(TaskStatus.Running, REMARKED_ROW, REPORTS, Published, SubtaskMarked, SHOWN)

  /** The first handler saw the duplicate's mark, leaves the close to it and acknowledges. */
  lemma RaceCloses()
    ensures Reaches(LAB, AT_3, RACE_4, AFTER_RACE)
  {
    var b := AT_3.(handlers := Two(Done, SubtaskMarked));
    var c := AFTER_RACE.(handlers := map[1 := Handler(0, 0, SubtaskMarked)]);
    Then(LAB, c, Crash(1), AFTER_RACE, [], AFTER_RACE);
    Then(LAB, b, Ack(0), c, [Crash(1)] + [], AFTER_RACE);
    assert 0 in Outstanding(AT_3.db, 0);
    Then(LAB, AT_3, STEP_0, b, [Ack(0)] + ([Crash(1)] + []), AFTER_RACE);
  }

  const AT_PUBLISHED := Racing(TaskStatus.Running, SAVED_ROW, REPORTS, Published, Begin, SHOWN)

  /** The duplicate marks the subtask running again. */
  lemma RaceMarksAgain()
    ensures Reaches(LAB, AT_PUBLISHED, [STEP_1] + ([STEP_1] + RACE_4), AFTER_RACE)
  {
    RaceCloses();
    var c := Racing(TaskStatus.Running, SAVED_ROW, REPORTS, Published, TestMarked, SHOWN);
    Then(LAB, c, STEP_1, AT_3, RACE_4, AFTER_RACE);
    Then(LAB, AT_PUBLISHED, STEP_1, c, [STEP_1] + RACE_4, AFTER_RACE);
  }

  const AT_PROBED := Racing(TaskStatus.Running, RUNNING_ROW, map[], Probed(ResultStatus.Passed, REPLY), Begin, [])

  lemma RacePublishes()
    ensures Reaches(LAB, AT_2, RACE_3, AFTER_RACE)
  {
    RaceMarksAgain();
    Then(LAB, AT_2, STEP_0, AT_PUBLISHED, [STEP_1] + ([STEP_1] + RACE_4), AFTER_RACE);
  }

  lemma RaceSaves()
    ensures Reaches(LAB, AT_PROBED, [STEP_0] + RACE_3, AFTER_RACE)
  {
    RacePublishes();
    Then(LAB, AT_PROBED, STEP_0, AT_2, RACE_3, AFTER_RACE);
  }

  const AT_MARKED := Racing(TaskStatus.Running, RUNNING_ROW, map[], SubtaskMarked, Begin, [])

  lemma RaceProbes()
    ensures Reaches(LAB, AT_MARKED, [STEP_0] + ([STEP_0] + RACE_3), AFTER_RACE)
  {
    RaceSaves();
    Then(LAB, AT_MARKED, STEP_0, AT_PROBED, [STEP_0] + RACE_3, AFTER_RACE);
  }

  lemma RaceMarks()
    ensures Reaches(LAB, AT_1, RACE_2, AFTER_RACE)
  {
    RaceProbes();
    Then(LAB, AT_1, STEP_0, AT_MARKED, [STEP_0] + ([STEP_0] + RACE_3), AFTER_RACE);
  }

  lemma RaceReaches()
    ensures Reaches(LAB, SUBMITTED, RACE_RUN, AFTER_RACE)
  {
    RaceMarks();
    var b := SUBMITTED.(entries := map[0 := Entry(ONE_JOB, Delivered)], handlers := map[0 := Handler(0, 0, Begin)]);
    var c := Racing(TaskStatus.Pending, FRESH_ROW, map[], Begin, Begin, []);
    Then(LAB, c, STEP_0, AT_1, RACE_2, AFTER_RACE);
    Then(LAB, b, Reclaim(0, 1, 0), c, [STEP_0] + RACE_2, AFTER_RACE);
    Then(LAB, SUBMITTED, Deliver(0, 0, 0), b, [Reclaim(0, 1, 0)] + ([STEP_0] + RACE_2), AFTER_RACE);
  }

  /** Live duplicates and crashes together are enough too, without any error: the one job is
      acknowledged while its subtask reads running, and test and subtask read running for good. */
  lemma DuplicateCrashStrandsTest(rest: seq<Action>, end: State)
    requires Reaches(LAB, AFTER_RACE, rest, end)
    ensures Reaches(LAB, SUBMITTED, RACE_RUN, AFTER_RACE)
    ensures 0 in end.db.tests && end.db.tests[0].status == TaskStatus.Running
    ensures 0 in end.db.subtasks && end.db.subtasks[0].exec == ExecStatus.Running
  {
    SubmittedInv();
    RaceReaches();
    RunKeepsInv(LAB, SUBMITTED, RACE_RUN, AFTER_RACE);
    AcknowledgedForGood(LAB, AFTER_RACE, rest, end, CloseTest(0));
    assert 0 in RowsOf(AFTER_RACE.db, 0);
  }
}
