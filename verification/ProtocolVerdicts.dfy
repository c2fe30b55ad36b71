/** What can still happen to a closed test. Its verdict can flip, either way, exactly when workers disagree on its
    adapter; and a subtask of it can be marked running again exactly while a mark is still ahead of some job of it. */
module ProtocolVerdicts {
  import opened Wrappers
  import opened Domain
  import opened Matrix
  import opened Store
  import opened Protocol
  import opened ProtocolSafety
  import opened ProtocolProgress
  import opened ProtocolDelivery
  import opened ProtocolClosing
  import opened Worker

  // ---------------------------------------------------------------- running again

  ghost predicate SomeRunning(db: Db, t: Uuid)
  {
    exists id :: id in RowsOf(db, t) && db.subtasks[id].exec == ExecStatus.Running
  }

  ghost predicate RunsAgain(cfg: Config, s: State, t: Uuid)
  {
    exists run, r :: Reaches(cfg, s, run, r) && SomeRunning(r.db, t)
  }

  lemma MarkedNow(cfg: Config, s: State, h: HandlerId, t: Uuid) returns (run: seq<Action>, r: State)
    requires Works(s, h) && JobOk(s.db, JobOf(s, h)) && JobOf(s, h).test == t && s.handlers[h].pc.TestMarked?
    ensures Reaches(cfg, s, run, r) && SomeRunning(r.db, t)
  {
    r := Advanced(cfg, s, h, SOME_REPLY, None);
    AdvancedShape(cfg, s, h, SOME_REPLY, None);
    var id := JobOf(s, h).subtask;
    assert id in RowsOf(r.db, t) && r.db.subtasks[id].exec == ExecStatus.Running;
    Cons(cfg, s, Advance(h, SOME_REPLY, None), [], r);
    run := [Advance(h, SOME_REPLY, None)] + [];
  }

  /** A handler before its mark gets there in two steps at most. */
  lemma MarkAhead(cfg: Config, s: State, h: HandlerId, t: Uuid) returns (run: seq<Action>, r: State)
    requires Inv(cfg, s) && Works(s, h) && JobOf(s, h).test == t && BeforeMark(s.handlers[h].pc)
    ensures Reaches(cfg, s, run, r) && SomeRunning(r.db, t)
  {
    assert HandlerOk(cfg, s.db, JobOf(s, h), s.handlers[h]);
    if s.handlers[h].pc.TestMarked? {
      run, r := MarkedNow(cfg, s, h, t);
    } else {
      var next := Advanced(cfg, s, h, SOME_REPLY, None);
      AdvancedShape(cfg, s, h, SOME_REPLY, None);
      AdvanceKeepsInv(cfg, s, h, SOME_REPLY, None);
      assert HandlerOk(cfg, next.db, JobOf(next, h), next.handlers[h]);
      var rest;
      rest, r := MarkedNow(cfg, next, h, t);
      Cons(cfg, s, Advance(h, SOME_REPLY, None), rest, r);
      run := [Advance(h, SOME_REPLY, None)] + rest;
    }
  }

  lemma MarkFromEntry(cfg: Config, s: State, e: EntryId, t: Uuid, w: WorkerId) returns (run: seq<Action>, r: State)
    requires Inv(cfg, s) && w in cfg.adapters
    requires e in s.entries && s.entries[e].delivery != Acked && s.entries[e].job.test == t
    ensures Reaches(cfg, s, run, r) && SomeRunning(r.db, t)
  {
    var a, h := TakeOver(cfg, s, e, w);
    var next := Apply(cfg, s, a);
    StepKeepsInv(cfg, s, a);
    var rest;
    rest, r := MarkAhead(cfg, next, h, t);
    Cons(cfg, s, a, rest, r);
    run := [a] + rest;
  }

  lemma MarkFromBacklog(cfg: Config, s: State, id: Uuid, t: Uuid, w: WorkerId) returns (run: seq<Action>, r: State)
    requires Inv(cfg, s) && w in cfg.adapters && id in s.backlog && s.backlog[id].test == t
    ensures Reaches(cfg, s, run, r) && SomeRunning(r.db, t)
  {
    var e := FreshId(s.entries.Keys);
    var a := Enqueue(id, e);
    var next := Apply(cfg, s, a);
    StepKeepsInv(cfg, s, a);
    var rest;
    rest, r := MarkFromEntry(cfg, next, e, t, w);
    Cons(cfg, s, a, rest, r);
    run := [a] + rest;
  }

  lemma MarkPossible(cfg: Config, s: State, t: Uuid, w: WorkerId) returns (run: seq<Action>, r: State)
    requires Inv(cfg, s) && w in cfg.adapters && !Idle(s, MarkRunning(t))
    ensures Reaches(cfg, s, run, r) && SomeRunning(r.db, t)
  {
    if InProgress(s, MarkRunning(t)) {
      var h :| Works(s, h) && Ahead(s.handlers[h].pc, MarkRunning(t)) && Serves(JobOf(s, h), MarkRunning(t));
      run, r := MarkAhead(cfg, s, h, t);
    } else if Unacked(s, MarkRunning(t)) {
      var e :| e in s.entries && s.entries[e].delivery != Acked && Serves(s.entries[e].job, MarkRunning(t));
      run, r := MarkFromEntry(cfg, s, e, t, w);
    } else {
      var id :| id in s.backlog && Serves(s.backlog[id], MarkRunning(t));
      run, r := MarkFromBacklog(cfg, s, id, t, w);
    }
  }

  lemma NeverMarked(cfg: Config, s: State, run: seq<Action>, r: State, t: Uuid)
    requires Inv(cfg, s) && t in s.db.tests && Idle(s, MarkRunning(t)) && !SomeRunning(s.db, t)
    requires Reaches(cfg, s, run, r)
    ensures !SomeRunning(r.db, t)
  {
    AcknowledgedForGood(cfg, s, run, r, MarkRunning(t));
    forall id | id in RowsOf(r.db, t)
      ensures r.db.subtasks[id].exec != ExecStatus.Running
    {
      assert id in RowsOf(s.db, t);
    }
  }

  lemma RunsAgainIff(cfg: Config, s: State, t: Uuid, w: WorkerId)
    requires Inv(cfg, s) && w in cfg.adapters && t in s.db.tests && !SomeRunning(s.db, t)
    ensures RunsAgain(cfg, s, t) <==> !Idle(s, MarkRunning(t))
  {
    if RunsAgain(cfg, s, t) {
      var run, r :| Reaches(cfg, s, run, r) && SomeRunning(r.db, t);
      if Idle(s, MarkRunning(t)) { NeverMarked(cfg, s, run, r, t); }
    }
    if !Idle(s, MarkRunning(t)) {
      var run, r := MarkPossible(cfg, s, t, w);
    }
  }

  /** From any reachable state, a test without a running subtask can come to have one exactly while some job of it is
      queued, un-acknowledged, or held by a handler that has not marked its subtask yet. */
  lemma RunsAgainIffMarkAhead(cfg: Config, run: seq<Action>, s: State, t: Uuid, w: WorkerId)
    requires Reaches(cfg, EMPTY, run, s) && w in cfg.adapters && t in s.db.tests && !SomeRunning(s.db, t)
    ensures RunsAgain(cfg, s, t) <==> !Idle(s, MarkRunning(t))
  {
    ReachableInv(cfg, run, s);
    RunsAgainIff(cfg, s, t, w);
  }

  lemma QueuedIsOutstanding(s: State, id: Uuid, t: Uuid)
    requires OneJob(s, id) && id in s.backlog && JobOk(s.db, s.backlog[id]) && s.backlog[id].subtask == id
    requires s.backlog[id].test == t
    ensures id in Outstanding(s.db, t)
  {
  }

  /** No job of a test is still to be queued once all its subtasks have ended. */
  lemma EndedNotQueued(cfg: Config, run: seq<Action>, s: State, t: Uuid)
    requires Reaches(cfg, EMPTY, run, s) && Outstanding(s.db, t) == {}
    ensures !InBacklog(s, MarkRunning(t))
  {
    ReachableInv(cfg, run, s);
    forall id | id in s.backlog
      ensures s.backlog[id].test != t
    {
      OneJobEach(cfg, run, s, id);
      if s.backlog[id].test == t { QueuedIsOutstanding(s, id, t); }
    }
  }

  ghost predicate UnackedEntry(s: State, t: Uuid)
  {
    exists e :: e in s.entries && s.entries[e].delivery != Acked && s.entries[e].job.test == t
  }

  ghost predicate HandlerBeforeMark(s: State, t: Uuid)
  {
    exists h :: Works(s, h) && BeforeMark(s.handlers[h].pc) && JobOf(s, h).test == t
  }

  /** A closed test whose subtasks have all ended can show one running again, and stays closed then, exactly when an
      entry of it is un-acknowledged or a handler of it has not marked its subtask yet. */
  lemma ClosedRunsAgainIff(cfg: Config, run: seq<Action>, s: State, t: Uuid, w: WorkerId)
    requires Reaches(cfg, EMPTY, run, s) && w in cfg.adapters
    requires t in s.db.tests && TerminalTask(s.db.tests[t].status) && Outstanding(s.db, t) == {}
    ensures RunsAgain(cfg, s, t) <==> UnackedEntry(s, t) || HandlerBeforeMark(s, t)
    ensures forall more, r :: Reaches(cfg, s, more, r) ==> t in r.db.tests && TerminalTask(r.db.tests[t].status)
  {
    NoneRunning(s.db, t);
    RunsAgainIffMarkAhead(cfg, run, s, t, w);
    EndedNotQueued(cfg, run, s, t);
    MarkAheadMeans(s, t);
    forall more, r | Reaches(cfg, s, more, r)
      ensures t in r.db.tests && TerminalTask(r.db.tests[t].status)
    {
      ClosedStaysClosed(cfg, run, s, more, r, t);
    }
  }

  lemma NoneRunning(db: Db, t: Uuid)
    requires Outstanding(db, t) == {}
    ensures !SomeRunning(db, t)
  {
    forall id | id in RowsOf(db, t)
      ensures db.subtasks[id].exec != ExecStatus.Running
    {
      assert id !in Outstanding(db, t);
    }
  }

  lemma MarkAheadMeans(s: State, t: Uuid)
    ensures Unacked(s, MarkRunning(t)) <==> UnackedEntry(s, t)
    ensures InProgress(s, MarkRunning(t)) <==> HandlerBeforeMark(s, t)
  {
    if Unacked(s, MarkRunning(t)) {
      var e :| e in s.entries && s.entries[e].delivery != Acked && Serves(s.entries[e].job, MarkRunning(t));
      assert s.entries[e].job.test == t;
    }
    if UnackedEntry(s, t) {
      var e :| e in s.entries && s.entries[e].delivery != Acked && s.entries[e].job.test == t;
      assert Serves(s.entries[e].job, MarkRunning(t));
    }
    if InProgress(s, MarkRunning(t)) {
      var h :| Works(s, h) && Ahead(s.handlers[h].pc, MarkRunning(t)) && Serves(JobOf(s, h), MarkRunning(t));
      assert BeforeMark(s.handlers[h].pc) && JobOf(s, h).test == t;
    }
    if HandlerBeforeMark(s, t) {
      var h :| Works(s, h) && BeforeMark(s.handlers[h].pc) && JobOf(s, h).test == t;
      assert Ahead(s.handlers[h].pc, MarkRunning(t)) && Serves(JobOf(s, h), MarkRunning(t));
    }
  }

  // ---------------------------------------------------------------- a test with one cell

  /** Test `t` has the single subtask `id`, whose job sits un-acknowledged in entry `e`. */
  ghost predicate OneCell(s: State, t: Uuid, id: Uuid, e: EntryId)
  {
    && t in s.db.tests && RowsOf(s.db, t) == {id}
    && e in s.entries && s.entries[e].delivery != Acked
    && s.entries[e].job.test == t && s.entries[e].job.subtask == id
    && s.entries[e].job.adapter == s.db.tests[t].adapter
  }

  function VerdictBy(configured: set<string>, adapter: string): TaskStatus
  {
    if adapter in configured then TaskStatus.Finished else TaskStatus.Failed
  }

  lemma OneCellCloses(db: Db, configured: set<string>, job: ProbeJob)
    requires JobOk(db, job) && RowsOf(db, job.test) == {job.subtask}
    ensures var r := ClosedBy(SavedBy(db, configured, job, SOME_REPLY, None), job.test);
            && job.test in r.tests && r.tests[job.test].status == VerdictBy(configured, job.adapter)
            && r.tests[job.test].adapter == db.tests[job.test].adapter
            && RowsOf(r, job.test) == {job.subtask}
  {
    var saved := SavedBy(db, configured, job, SOME_REPLY, None);
    SavedStatuses(db, configured, job, SOME_REPLY, None);
    assert Outstanding(db, job.test) <= {job.subtask};
    assert Outstanding(saved, job.test) == {};
    FailedMeansAllErrored(saved, job.test);
    assert job.subtask in RowsOf(saved, job.test);
  }

  /** Worker `w` can close a one-cell test with its own verdict, whatever verdict it has already, and leave the entry
      un-acknowledged for the next. */
  lemma WorkerDecides(cfg: Config, s: State, t: Uuid, id: Uuid, e: EntryId, w: WorkerId)
    returns (run: seq<Action>, r: State)
    requires Inv(cfg, s) && w in cfg.adapters && OneCell(s, t, id, e)
    ensures Reaches(cfg, s, run, r) && Inv(cfg, r) && OneCell(r, t, id, e)
    ensures r.db.tests[t].status == VerdictBy(cfg.adapters[w], s.db.tests[t].adapter)
    ensures r.db.tests[t].adapter == s.db.tests[t].adapter
  {
    var a, h := TakeOver(cfg, s, e, w);
    var next := Apply(cfg, s, a);
    StepKeepsInv(cfg, s, a);
    var rest;
    rest, r := HandlerDecides(cfg, next, t, id, e, h);
    RunKeepsInv(cfg, next, rest, r);
    Cons(cfg, s, a, rest, r);
    run := [a] + rest;
  }

  lemma HandlerDecides(cfg: Config, s: State, t: Uuid, id: Uuid, e: EntryId, h: HandlerId)
    returns (run: seq<Action>, r: State)
    requires OneCell(s, t, id, e) && JobOk(s.db, s.entries[e].job)
    requires h in s.handlers && s.handlers[h].entry == e && s.handlers[h].pc.Begin?
    requires s.handlers[h].worker in cfg.adapters
    ensures Reaches(cfg, s, run, r) && OneCell(r, t, id, e)
    ensures r.db.tests[t].status == VerdictBy(cfg.adapters[s.handlers[h].worker], s.db.tests[t].adapter)
    ensures r.db.tests[t].adapter == s.db.tests[t].adapter
  {
    var job := JobOf(s, h);
    var configured := cfg.adapters[s.handlers[h].worker];
    var n := StepsFor(job.adapter in configured, 6);
    r := StopAfter(cfg, s, h, SOME_REPLY, None, n);
    run := StopAfterIsRun(cfg, s, h, SOME_REPLY, None, n);
    StopAfterFrame(cfg, s, h, SOME_REPLY, None, n);
    HandlerIsHandle(cfg, s, h, SOME_REPLY, None, 6);
    OneCellCloses(s.db, configured, job);
  }

  // ---------------------------------------------------------------- flips

  /** In some run a test with the adapter is closed as `before` and later reads `after`. */
  ghost predicate Flips(cfg: Config, adapter: string, before: TaskStatus, after: TaskStatus)
  {
    exists run, mid, rest, end, t ::
      Reaches(cfg, EMPTY, run, mid) && Reaches(cfg, mid, rest, end) && ReadsThen(mid, end, t, adapter, before, after)
  }

  predicate ReadsThen(mid: State, end: State, t: Uuid, adapter: string, before: TaskStatus, after: TaskStatus)
  {
    && t in mid.db.tests && mid.db.tests[t].adapter == adapter && mid.db.tests[t].status == before
    && t in end.db.tests && end.db.tests[t].status == after
  }

  lemma OneCellCommits(cfg: Config, body: NewTest) returns (s: State)
    requires Accept(body, cfg.limits).Ok?
    requires |Accept(body, cfg.limits).value.groups| == 1 == |Accept(body, cfg.limits).value.sigAlgs|
    ensures Enabled(cfg, EMPTY, Commit(0, body, [0])) && s == Apply(cfg, EMPTY, Commit(0, body, [0])) && Inv(cfg, s)
    ensures s.entries == map[] && 0 in s.backlog && 0 in s.db.tests && RowsOf(s.db, 0) == {0}
    ensures s.db.tests[0].adapter == body.adapter
  {
    var a := Commit(0, body, [0]);
    assert Enabled(cfg, EMPTY, a);
    s := Apply(cfg, EMPTY, a);
    EmptyInv(cfg);
    CommitKeepsInv(cfg, EMPTY, 0, body, [0]);
    CommitShape(cfg, EMPTY, 0, body, [0]);
    CommitBacklog(cfg, EMPTY, 0, body, [0]);
    CommittedRow(cfg, EMPTY, 0, body, [0], 0);
    assert RowsOf(s.db, 0) == {0};
  }

  lemma OneCellQueues(cfg: Config, s: State) returns (r: State)
    requires Inv(cfg, s) && s.entries == map[] && 0 in s.backlog && 0 in s.db.tests && RowsOf(s.db, 0) == {0}
    ensures Enabled(cfg, s, Enqueue(0, 0)) && r == Apply(cfg, s, Enqueue(0, 0)) && Inv(cfg, r)
    ensures OneCell(r, 0, 0, 0) && r.db == s.db
  {
    r := Apply(cfg, s, Enqueue(0, 0));
    QueueStepKeepsInv(cfg, s, Enqueue(0, 0));
    assert JobOk(s.db, s.backlog[0]) && s.backlog[0].subtask == 0;
    assert s.backlog[0].test == 0;
  }

  lemma BothDecide(cfg: Config, s: State, v: WorkerId, w: WorkerId)
    returns (first: seq<Action>, mid: State, second: seq<Action>, end: State)
    requires Inv(cfg, s) && OneCell(s, 0, 0, 0) && v in cfg.adapters && w in cfg.adapters
    ensures Reaches(cfg, s, first, mid) && Reaches(cfg, mid, second, end)
    ensures var adapter := s.db.tests[0].adapter;
            ReadsThen(mid, end, 0, adapter, VerdictBy(cfg.adapters[v], adapter), VerdictBy(cfg.adapters[w], adapter))
  {
    first, mid := WorkerDecides(cfg, s, 0, 0, 0, v);
    second, end := WorkerDecides(cfg, mid, 0, 0, 0, w);
  }

  /** The run in which worker `v` closes the test, does not acknowledge it, and worker `w` reclaims and closes it. */
  lemma FlipRun(cfg: Config, body: NewTest, v: WorkerId, w: WorkerId)
    requires Accept(body, cfg.limits).Ok? && v in cfg.adapters && w in cfg.adapters
    requires |Accept(body, cfg.limits).value.groups| == 1 == |Accept(body, cfg.limits).value.sigAlgs|
    ensures Flips(cfg, body.adapter, VerdictBy(cfg.adapters[v], body.adapter), VerdictBy(cfg.adapters[w], body.adapter))
  {
    var committed := OneCellCommits(cfg, body);
    var s := OneCellQueues(cfg, committed);
    var first, mid, second, end := BothDecide(cfg, s, v, w);
    Cons(cfg, committed, Enqueue(0, 0), first, mid);
    Cons(cfg, EMPTY, Commit(0, body, [0]), [Enqueue(0, 0)] + first, mid);
  }

  lemma FlipNeedsDisagreement(cfg: Config, adapter: string, before: TaskStatus, after: TaskStatus)
    requires Flips(cfg, adapter, before, after) && TerminalTask(before) && after != before
    ensures WorkersDisagree(cfg, adapter)
  {
    var run, mid, rest, end, t :|
      Reaches(cfg, EMPTY, run, mid) && Reaches(cfg, mid, rest, end) && ReadsThen(mid, end, t, adapter, before, after);
    if !WorkersDisagree(cfg, adapter) {
      AgreedVerdict(cfg, run, mid, rest, end, t);
      assert false;
    }
  }

  /** Wherever some selection can be accepted for the adapter, a closed test of it can change its verdict in some run,
      in either direction, exactly when one worker has the adapter and another lacks it. */
  lemma VerdictFlipsIffWorkersDisagree(cfg: Config, body: NewTest)
    requires Accept(body, cfg.limits).Ok? && Deduped(body.groups) != [] && Deduped(body.sigAlgs) != []
    ensures Flips(cfg, body.adapter, TaskStatus.Failed, TaskStatus.Finished) <==> WorkersDisagree(cfg, body.adapter)
    ensures Flips(cfg, body.adapter, TaskStatus.Finished, TaskStatus.Failed) <==> WorkersDisagree(cfg, body.adapter)
  {
    if WorkersDisagree(cfg, body.adapter) {
      var v :| v in cfg.adapters && body.adapter in cfg.adapters[v];
      var w :| w in cfg.adapters && body.adapter !in cfg.adapters[w];
      var cell := body.(groups := [Deduped(body.groups)[0]], sigAlgs := [Deduped(body.sigAlgs)[0]]);
      OneCellAccepted(body, cfg.limits);
      FlipRun(cfg, cell, w, v);
      FlipRun(cfg, cell, v, w);
    }
    if Flips(cfg, body.adapter, TaskStatus.Failed, TaskStatus.Finished) {
      FlipNeedsDisagreement(cfg, body.adapter, TaskStatus.Failed, TaskStatus.Finished);
    }
    if Flips(cfg, body.adapter, TaskStatus.Finished, TaskStatus.Failed) {
      FlipNeedsDisagreement(cfg, body.adapter, TaskStatus.Finished, TaskStatus.Failed);
    }
  }
}
