/** What keeps a test from being stranded. Everything is said of one test: as long as none of its own
    handlers returns an error before the close, none of its jobs is lost before it is queued, and none
    of its handlers dies while a duplicate of its job is alive or already acknowledged, somebody is left
    to finish it, whatever happens to other tests. */
module ProtocolProgress {
  import opened Wrappers
  import opened Domain
  import opened Matrix
  import opened Store
  import opened Protocol
  import opened ProtocolSafety

  // ---------------------------------------------------------------- who still owes work

  /** What a job is to bring about: its subtask run to an end, its test closed, and, on the way there, a
      subtask of the test marked running. */
  datatype Goal = CloseTest(test: Uuid) | EndSubtask(subtask: Uuid) | MarkRunning(test: Uuid)

  predicate Serves(job: ProbeJob, goal: Goal)
  {
    match goal
    case CloseTest(t) => job.test == t
    case EndSubtask(id) => job.subtask == id
    case MarkRunning(t) => job.test == t
  }

  predicate BeforeMark(pc: Pc)
  {
    pc.Begin? || pc.TestMarked?
  }

  predicate BeforeSave(pc: Pc)
  {
    pc.Begin? || pc.TestMarked? || pc.SubtaskMarked? || pc.Probed?
  }

  /** The handler has not yet run its close, nor learnt that somebody else must. */
  predicate BeforeClose(pc: Pc)
  {
    !pc.Closed? && !pc.Done?
  }

  /** The step that brings the goal about is still ahead of the handler. */
  predicate Ahead(pc: Pc, goal: Goal)
  {
    match goal
    case CloseTest(_) => BeforeClose(pc)
    case EndSubtask(_) => BeforeSave(pc)
    case MarkRunning(_) => BeforeMark(pc)
  }

  /** Un-acknowledged with no live handler: not delivered yet, or its holder died. */
  ghost predicate Orphan(s: State, e: EntryId)
  {
    && e in s.entries
    && s.entries[e].delivery != Acked
    && forall h :: h in s.handlers ==> s.handlers[h].entry != e
  }

  ghost predicate Works(s: State, h: HandlerId)
  {
    h in s.handlers && s.handlers[h].entry in s.entries
  }

  function JobOf(s: State, h: HandlerId): ProbeJob
    requires Works(s, h)
  {
    s.entries[s.handlers[h].entry].job
  }

  ghost predicate InBacklog(s: State, goal: Goal)
  {
    exists id :: id in s.backlog && Serves(s.backlog[id], goal)
  }

  ghost predicate Unacked(s: State, goal: Goal)
  {
    exists e :: e in s.entries && s.entries[e].delivery != Acked && Serves(s.entries[e].job, goal)
  }

  ghost predicate Orphaned(s: State, goal: Goal)
  {
    exists e :: Orphan(s, e) && Serves(s.entries[e].job, goal)
  }

  ghost predicate InProgress(s: State, goal: Goal)
  {
    exists h :: Works(s, h) && Ahead(s.handlers[h].pc, goal) && Serves(JobOf(s, h), goal)
  }

  ghost predicate Owed(s: State, goal: Goal)
  {
    InBacklog(s, goal) || Orphaned(s, goal) || InProgress(s, goal)
  }

  /** Every outstanding subtask of `t` is owed an end, and an open test with a subtask is owed a close. */
  ghost predicate OwedFor(s: State, t: Uuid)
  {
    && (forall id :: id in Outstanding(s.db, t) ==> Owed(s, EndSubtask(id)))
    && (t in s.db.tests && !TerminalTask(s.db.tests[t].status) && s.db.tests[t].subtaskCount > 0 ==>
          Owed(s, CloseTest(t)))
  }

  /** The condition on a step, for test `t`: no job of it lost, no error of a handler of it before the
      close, and such a handler dies only as the sole live holder of a job that is not acknowledged.
      Duplicates and lost acknowledgements are free, and so is anything that befalls other tests. */
  ghost predicate Smooth(s: State, a: Action, t: Uuid)
  {
    match a
    case DropJob(id) => id in s.backlog ==> s.backlog[id].test != t
    case Fail(h) => Works(s, h) && BeforeClose(s.handlers[h].pc) ==> JobOf(s, h).test != t
    case Crash(h) =>
      Works(s, h) && BeforeClose(s.handlers[h].pc) && JobOf(s, h).test == t ==>
        && s.entries[s.handlers[h].entry].delivery != Acked
        && forall k :: k in s.handlers && k != h ==> s.handlers[k].entry != s.handlers[h].entry
    case _ => true
  }

  ghost predicate SmoothRun(cfg: Config, s: State, run: seq<Action>, t: Uuid)
    decreases |run|
  {
    run != [] ==>
      Enabled(cfg, s, run[0]) && Smooth(s, run[0], t) && SmoothRun(cfg, Apply(cfg, s, run[0]), run[1..], t)
  }

  /** Every job that serves the goal belongs to test `t`. */
  ghost predicate JobsOfTest(s: State, goal: Goal, t: Uuid)
  {
    && (forall id :: id in s.backlog && Serves(s.backlog[id], goal) ==> s.backlog[id].test == t)
    && forall e :: e in s.entries && Serves(s.entries[e].job, goal) ==> s.entries[e].job.test == t
  }

  lemma InvJobsOfTest(cfg: Config, s: State, id: Uuid)
    requires Inv(cfg, s) && id in s.db.subtasks
    ensures JobsOfTest(s, EndSubtask(id), s.db.subtasks[id].test)
  {
  }

  lemma RowOwedTest(s: State, id: Uuid, t: Uuid)
    requires Owed(s, EndSubtask(id)) && JobsOfTest(s, EndSubtask(id), t)
    ensures Owed(s, CloseTest(t))
  {
    if InBacklog(s, EndSubtask(id)) {
      var k :| k in s.backlog && Serves(s.backlog[k], EndSubtask(id));
      assert Serves(s.backlog[k], CloseTest(t));
    } else if Orphaned(s, EndSubtask(id)) {
      var e :| Orphan(s, e) && Serves(s.entries[e].job, EndSubtask(id));
      assert Serves(s.entries[e].job, CloseTest(t));
    } else {
      var h :| Works(s, h) && Ahead(s.handlers[h].pc, EndSubtask(id)) && Serves(JobOf(s, h), EndSubtask(id));
      assert Ahead(s.handlers[h].pc, CloseTest(t)) && Serves(JobOf(s, h), CloseTest(t));
    }
  }

  // ---------------------------------------------------------------- a handler moves on

  /** Nobody else's obligation is touched when handler `h` moves on. */
  ghost predicate OthersKept(s: State, r: State, h: HandlerId)
  {
    && r.backlog == s.backlog
    && r.entries == s.entries
    && h in s.handlers && h in r.handlers
    && r.handlers == s.handlers[h := s.handlers[h].(pc := r.handlers[h].pc)]
  }

  lemma OwedMoved(s: State, r: State, h: HandlerId, goal: Goal)
    requires OthersKept(s, r, h) && Owed(s, goal)
    requires Works(s, h) && Serves(JobOf(s, h), goal) && Ahead(s.handlers[h].pc, goal) ==> Ahead(r.handlers[h].pc, goal)
    ensures Owed(r, goal)
  {
    if Orphaned(s, goal) {
      var e :| Orphan(s, e) && Serves(s.entries[e].job, goal);
      assert Orphan(r, e);
    } else if InProgress(s, goal) {
      var k :| Works(s, k) && Ahead(s.handlers[k].pc, goal) && Serves(JobOf(s, k), goal);
      assert Works(r, k) && JobOf(r, k) == JobOf(s, k);
    }
  }

  /** The tables of one statement: what it may do to exec statuses and test statuses. */
  lemma NextDbRows(cfg: Config, db: Db, job: ProbeJob, h: Handler)
    requires JobOk(db, job)
    ensures var db' := NextDb(cfg, db, job, h);
            && db'.subtasks.Keys == db.subtasks.Keys
            && (forall id :: id in db.subtasks && id != job.subtask ==> db'.subtasks[id] == db.subtasks[id])
            && db'.subtasks[job.subtask].test == job.test
  {
  }

  lemma NextDbTests(cfg: Config, db: Db, job: ProbeJob, h: Handler)
    requires JobOk(db, job)
    ensures var db' := NextDb(cfg, db, job, h);
            && db'.tests.Keys == db.tests.Keys
            && (forall t :: t in db.tests && t != job.test ==> db'.tests[t] == db.tests[t])
            && db'.tests[job.test].subtaskCount == db.tests[job.test].subtaskCount
            && (TerminalTask(db.tests[job.test].status) ==> TerminalTask(db'.tests[job.test].status))
  {
  }

  lemma AdvanceRows(cfg: Config, s: State, h: HandlerId, response: ProbeResponse, caps: Option<Capabilities>,
                    t: Uuid, id: Uuid)
    requires Inv(cfg, s) && OwedFor(s, t) && h in s.handlers && !s.handlers[h].pc.Done?
    requires id in Outstanding(Advanced(cfg, s, h, response, caps).db, t)
    ensures Owed(Advanced(cfg, s, h, response, caps), EndSubtask(id))
  {
    var r := Advanced(cfg, s, h, response, caps);
    var job, handler := JobOf(s, h), s.handlers[h];
    assert HandlerOk(cfg, s.db, job, handler);
    NextDbRows(cfg, s.db, job, handler);
    if id == job.subtask && BeforeSave(r.handlers[h].pc) {
      assert Works(r, h) && Serves(JobOf(r, h), EndSubtask(id));
    } else {
      assert id in Outstanding(s.db, t);
      OwedMoved(s, r, h, EndSubtask(id));
    }
  }

  lemma OutstandingOwed(s: State, t: Uuid) returns (id: Uuid)
    requires OwedFor(s, t) && CountRows(s.db, t).outstanding > 0
    ensures id in RowsOf(s.db, t) && Owed(s, EndSubtask(id))
  {
    assert Outstanding(s.db, t) != {};
    id :| id in Outstanding(s.db, t);
  }

  /** The check-then-act close: a SELECT that sees an outstanding row leaves the close to whoever owes
      that row. */
  lemma SelectPassesOn(cfg: Config, s: State, r: State, h: HandlerId, t: Uuid)
    requires Inv(cfg, s) && OwedFor(s, t) && h in s.handlers && s.handlers[h].pc.Published?
    requires CountRows(s.db, t).outstanding > 0
    requires OthersKept(s, r, h)
    ensures Owed(r, CloseTest(t))
  {
    var id := OutstandingOwed(s, t);
    OwedMoved(s, r, h, EndSubtask(id));
    InvJobsOfTest(cfg, s, id);
    RowOwedTest(r, id, t);
  }

  lemma AdvanceTest(cfg: Config, s: State, h: HandlerId, response: ProbeResponse, caps: Option<Capabilities>, t: Uuid)
    requires Inv(cfg, s) && OwedFor(s, t) && h in s.handlers && !s.handlers[h].pc.Done?
    requires var r := Advanced(cfg, s, h, response, caps);
             t in r.db.tests && !TerminalTask(r.db.tests[t].status) && r.db.tests[t].subtaskCount > 0
    ensures Owed(Advanced(cfg, s, h, response, caps), CloseTest(t))
  {
    var r := Advanced(cfg, s, h, response, caps);
    var job, handler := JobOf(s, h), s.handlers[h];
    assert HandlerOk(cfg, s.db, job, handler);
    NextDbTests(cfg, s.db, job, handler);
    if t == job.test && handler.pc.Published? && CountRows(s.db, t).outstanding > 0 {
      SelectPassesOn(cfg, s, r, h, t);
    } else {
      OwedMoved(s, r, h, CloseTest(t));
    }
  }

  lemma AdvanceKeepsOwed(cfg: Config, s: State, h: HandlerId, response: ProbeResponse, caps: Option<Capabilities>,
                         t: Uuid)
    requires Inv(cfg, s) && OwedFor(s, t) && h in s.handlers && !s.handlers[h].pc.Done?
    ensures OwedFor(Advanced(cfg, s, h, response, caps), t)
  {
    var r := Advanced(cfg, s, h, response, caps);
    forall id | id in Outstanding(r.db, t)
      ensures Owed(r, EndSubtask(id))
    {
      AdvanceRows(cfg, s, h, response, caps, t, id);
    }
    if t in r.db.tests && !TerminalTask(r.db.tests[t].status) && r.db.tests[t].subtaskCount > 0 {
      AdvanceTest(cfg, s, h, response, caps, t);
    }
  }

  /** An error of a handler of another test, or after the close, owes nothing more. */
  lemma FailKeepsOwed(s: State, h: HandlerId, t: Uuid)
    requires Works(s, h) && JobOk(s.db, JobOf(s, h)) && OwedFor(s, t) && Smooth(s, Fail(h), t)
    ensures OwedFor(Moved(s, h, Done), t)
  {
    var r := Moved(s, h, Done);
    forall id | id in Outstanding(r.db, t)
      ensures Owed(r, EndSubtask(id))
    {
      OwedMoved(s, r, h, EndSubtask(id));
    }
    if Owed(s, CloseTest(t)) {
      OwedMoved(s, r, h, CloseTest(t));
    }
  }

  // ---------------------------------------------------------------- steps of the stream

  ghost predicate OrphanFor(s: State, job: ProbeJob)
  {
    exists e :: Orphan(s, e) && s.entries[e].job == job
  }

  ghost predicate StartedFor(s: State, job: ProbeJob)
  {
    exists h :: Works(s, h) && s.handlers[h].pc.Begin? && JobOf(s, h) == job
  }

  ghost predicate SameHandler(s: State, r: State, h: HandlerId)
  {
    Works(s, h) && Works(r, h) && r.handlers[h].pc == s.handlers[h].pc && JobOf(r, h) == JobOf(s, h)
  }

  /** Of test `t`: queued jobs stay queued or become orphan entries, orphans stay or are picked up, and a
      live handler stays, was past its close, or leaves an orphan behind. */
  ghost predicate HandedOver(s: State, r: State, t: Uuid)
  {
    && (forall id :: id in s.backlog && s.backlog[id].test == t ==>
          (id in r.backlog && r.backlog[id] == s.backlog[id]) || OrphanFor(r, s.backlog[id]))
    && (forall e :: Orphan(s, e) && s.entries[e].job.test == t ==>
          OrphanFor(r, s.entries[e].job) || StartedFor(r, s.entries[e].job))
    && (forall h :: Works(s, h) && BeforeClose(s.handlers[h].pc) && JobOf(s, h).test == t ==>
          SameHandler(s, r, h) || OrphanFor(r, JobOf(s, h)))
  }

  lemma JobKeepsOwed(s: State, job: ProbeJob, goal: Goal)
    requires (OrphanFor(s, job) || StartedFor(s, job)) && Serves(job, goal)
    ensures Owed(s, goal)
  {
    if OrphanFor(s, job) {
      var e :| Orphan(s, e) && s.entries[e].job == job;
      assert Orphaned(s, goal);
    } else {
      var h :| Works(s, h) && s.handlers[h].pc.Begin? && JobOf(s, h) == job;
      assert Ahead(s.handlers[h].pc, goal);
      assert InProgress(s, goal);
    }
  }

  lemma OwedHandedOver(s: State, r: State, t: Uuid, goal: Goal)
    requires HandedOver(s, r, t) && Owed(s, goal) && JobsOfTest(s, goal, t)
    ensures Owed(r, goal)
  {
    if InBacklog(s, goal) {
      var id :| id in s.backlog && Serves(s.backlog[id], goal);
      if id in r.backlog && r.backlog[id] == s.backlog[id] {
        assert InBacklog(r, goal);
      } else {
        JobKeepsOwed(r, s.backlog[id], goal);
      }
    } else if Orphaned(s, goal) {
      var e :| Orphan(s, e) && Serves(s.entries[e].job, goal);
      JobKeepsOwed(r, s.entries[e].job, goal);
    } else {
      var h :| Works(s, h) && Ahead(s.handlers[h].pc, goal) && Serves(JobOf(s, h), goal);
      if SameHandler(s, r, h) {
        assert InProgress(r, goal);
      } else {
        JobKeepsOwed(r, JobOf(s, h), goal);
      }
    }
  }

  lemma HandedOverKeepsOwed(cfg: Config, s: State, r: State, t: Uuid)
    requires Inv(cfg, s) && OwedFor(s, t) && HandedOver(s, r, t) && r.db == s.db
    ensures OwedFor(r, t)
  {
    forall id | id in Outstanding(r.db, t)
      ensures Owed(r, EndSubtask(id))
    {
      InvJobsOfTest(cfg, s, id);
      OwedHandedOver(s, r, t, EndSubtask(id));
    }
    if Owed(s, CloseTest(t)) {
      OwedHandedOver(s, r, t, CloseTest(t));
    }
  }

  lemma OrphanAfterPickUp(s: State, r: State, e: EntryId, h: HandlerId, w: WorkerId, k: EntryId)
    requires Orphan(s, k) && e in s.entries && h !in s.handlers && e in r.entries
    requires r.entries == s.entries[e := r.entries[e]] && r.entries[e].job == s.entries[e].job
    requires r.handlers == s.handlers[h := Handler(e, w, Begin)]
    ensures OrphanFor(r, s.entries[k].job) || StartedFor(r, s.entries[k].job)
  {
    if k == e {
      assert Works(r, h) && JobOf(r, h) == s.entries[k].job;
    } else {
      assert Orphan(r, k);
    }
  }

  /** Delivery and reclaiming alike: entry `e` gets a new handler. */
  lemma PickedUp(s: State, r: State, e: EntryId, h: HandlerId, w: WorkerId, t: Uuid)
    requires e in s.entries && h !in s.handlers && e in r.entries
    requires r.entries == s.entries[e := r.entries[e]] && r.entries[e].job == s.entries[e].job
    requires r.handlers == s.handlers[h := Handler(e, w, Begin)] && r.backlog == s.backlog
    ensures HandedOver(s, r, t)
    ensures StartedFor(r, s.entries[e].job)
  {
    forall k | Orphan(s, k)
      ensures OrphanFor(r, s.entries[k].job) || StartedFor(r, s.entries[k].job)
    {
      OrphanAfterPickUp(s, r, e, h, w, k);
    }
    forall k | Works(s, k)
      ensures SameHandler(s, r, k)
    {
    }
    assert Works(r, h) && JobOf(r, h) == s.entries[e].job;
  }

  /** A job moves from the backlog to a new entry. */
  lemma MovedToStream(s: State, r: State, id: Uuid, e: EntryId, t: Uuid)
    requires id in s.backlog && e !in s.entries && r.handlers == s.handlers && r.backlog == s.backlog - {id}
    requires r.entries == s.entries[e := Entry(s.backlog[id], Undelivered)]
    requires forall h :: h in s.handlers ==> s.handlers[h].entry in s.entries
    ensures HandedOver(s, r, t)
  {
    assert Orphan(r, e);
    forall k | Orphan(s, k)
      ensures OrphanFor(r, s.entries[k].job)
    {
      assert Orphan(r, k);
    }
    forall k | Works(s, k)
      ensures SameHandler(s, r, k)
    {
    }
  }

  /** The backlog changes, but not for `t`. */
  lemma BacklogChanged(s: State, r: State, t: Uuid)
    requires r.entries == s.entries && r.handlers == s.handlers
    requires forall id :: id in s.backlog && s.backlog[id].test == t ==>
               id in r.backlog && r.backlog[id] == s.backlog[id]
    ensures HandedOver(s, r, t)
  {
    forall e | Orphan(s, e)
      ensures OrphanFor(r, s.entries[e].job)
    {
      assert Orphan(r, e);
    }
    forall h | Works(s, h)
      ensures SameHandler(s, r, h)
    {
    }
  }

  /** A handler leaves. If it was a handler of `t` before its close, its entry must be left an orphan. */
  lemma Left(s: State, r: State, h: HandlerId, t: Uuid)
    requires Works(s, h) && s.handlers[h].entry in r.entries
    requires r.backlog == s.backlog && r.handlers == s.handlers - {h}
    requires r.entries == s.entries[s.handlers[h].entry := r.entries[s.handlers[h].entry]]
    requires r.entries[s.handlers[h].entry].job == JobOf(s, h)
    requires BeforeClose(s.handlers[h].pc) && JobOf(s, h).test == t ==> Orphan(r, s.handlers[h].entry)
    ensures HandedOver(s, r, t)
  {
    forall k | Orphan(s, k)
      ensures OrphanFor(r, s.entries[k].job)
    {
      assert k != s.handlers[h].entry;
      assert Orphan(r, k);
    }
    forall k | Works(s, k)
      ensures k != h ==> SameHandler(s, r, k)
    {
    }
  }

  lemma EnqueueKeepsOwed(cfg: Config, s: State, id: Uuid, e: EntryId, t: Uuid)
    requires Inv(cfg, s) && OwedFor(s, t) && Enabled(cfg, s, Enqueue(id, e))
    ensures OwedFor(Apply(cfg, s, Enqueue(id, e)), t)
  {
    var r := Apply(cfg, s, Enqueue(id, e));
    MovedToStream(s, r, id, e, t);
    HandedOverKeepsOwed(cfg, s, r, t);
  }

  lemma DropKeepsOwed(cfg: Config, s: State, id: Uuid, t: Uuid)
    requires Inv(cfg, s) && OwedFor(s, t) && Enabled(cfg, s, DropJob(id)) && Smooth(s, DropJob(id), t)
    ensures OwedFor(Apply(cfg, s, DropJob(id)), t)
  {
    var r := Apply(cfg, s, DropJob(id));
    BacklogChanged(s, r, t);
    HandedOverKeepsOwed(cfg, s, r, t);
  }

  lemma PickUpKeepsOwed(cfg: Config, s: State, a: Action, t: Uuid)
    requires Inv(cfg, s) && OwedFor(s, t) && Enabled(cfg, s, a)
    requires a.Deliver? || a.Reclaim?
    ensures OwedFor(Apply(cfg, s, a), t)
  {
    var r := Apply(cfg, s, a);
    assert s.entries == s.entries[a.entry := s.entries[a.entry]];
    PickedUp(s, r, a.entry, a.handler, a.worker, t);
    HandedOverKeepsOwed(cfg, s, r, t);
  }

  lemma AckKeepsOwed(cfg: Config, s: State, h: HandlerId, t: Uuid)
    requires Inv(cfg, s) && OwedFor(s, t) && Enabled(cfg, s, Ack(h))
    ensures OwedFor(Apply(cfg, s, Ack(h)), t)
  {
    var r := Apply(cfg, s, Ack(h));
    Left(s, r, h, t);
    HandedOverKeepsOwed(cfg, s, r, t);
  }

  lemma LeaveKeepsOwed(cfg: Config, s: State, h: HandlerId, t: Uuid)
    requires Inv(cfg, s) && OwedFor(s, t) && Works(s, h)
    requires BeforeClose(s.handlers[h].pc) && JobOf(s, h).test == t ==>
               Orphan(s.(handlers := s.handlers - {h}), s.handlers[h].entry)
    ensures OwedFor(s.(handlers := s.handlers - {h}), t)
  {
    var r := s.(handlers := s.handlers - {h});
    assert s.entries == s.entries[s.handlers[h].entry := s.entries[s.handlers[h].entry]];
    Left(s, r, h, t);
    HandedOverKeepsOwed(cfg, s, r, t);
  }

  // ---------------------------------------------------------------- a test is committed

  lemma JobsForEach(t: Uuid, adapter: string, axes: Axes, ids: seq<Uuid>, id: Uuid)
    requires Distinct(ids) && |ids| == |axes.groups| * |axes.sigAlgs|
    ensures var jobs := JobsFor(t, adapter, axes, ids);
            && (id in jobs <==> id in ids)
            && (id in jobs ==> jobs[id].test == t && jobs[id].subtask == id)
  {
  }

  lemma CommitBacklog(cfg: Config, s: State, t: Uuid, body: NewTest, ids: seq<Uuid>)
    requires Inv(cfg, s) && Enabled(cfg, s, Commit(t, body, ids))
    ensures var r := Apply(cfg, s, Commit(t, body, ids));
            && (forall id :: id in s.backlog ==> id in r.backlog && r.backlog[id] == s.backlog[id])
            && (forall id :: id in r.backlog ==> id in s.backlog || id in ids)
            && (forall id :: id in ids ==> id in r.backlog && r.backlog[id].test == t && r.backlog[id].subtask == id)
  {
    forall id
    {
      JobsForEach(t, body.adapter, Accept(body, cfg.limits).value, ids, id);
    }
    forall id | id in s.backlog
      ensures id !in ids
    {
      assert JobOk(s.db, s.backlog[id]);
    }
  }

  lemma CommitShape(cfg: Config, s: State, t: Uuid, body: NewTest, ids: seq<Uuid>)
    requires Enabled(cfg, s, Commit(t, body, ids))
    ensures var r := Apply(cfg, s, Commit(t, body, ids));
            && r.entries == s.entries && r.handlers == s.handlers
            && (forall id :: id in r.db.subtasks ==> id in s.db.subtasks || (id in ids && r.db.subtasks[id].test == t))
            && (forall id :: id in s.db.subtasks ==> id in r.db.subtasks && r.db.subtasks[id] == s.db.subtasks[id])
            && t in r.db.tests
            && r.db.tests == s.db.tests[t := r.db.tests[t]] && r.db.tests[t].subtaskCount == |ids|
  {
    var axes := Accept(body, cfg.limits).value;
    forall id
    {
      InsertedRow(s.db, t, body.adapter, axes, ids, id);
    }
  }

  /** Every row of a test that was not there before is new, and its job is in the backlog. */
  lemma NewTestOwed(cfg: Config, s: State, r: State, t: Uuid, ids: seq<Uuid>)
    requires Inv(cfg, s) && t !in s.db.tests && t in r.db.tests && r.db.tests[t].subtaskCount == |ids|
    requires forall id :: id in ids ==> id in r.backlog && r.backlog[id].test == t && r.backlog[id].subtask == id
    requires forall id :: id in r.db.subtasks ==> id in s.db.subtasks || id in ids
    requires forall id :: id in s.db.subtasks ==> id in r.db.subtasks && r.db.subtasks[id] == s.db.subtasks[id]
    ensures OwedFor(r, t)
  {
    forall id | id in s.db.subtasks
      ensures s.db.subtasks[id].test != t
    {
      assert RowOk(cfg, s.db, id);
    }
    forall id | id in Outstanding(r.db, t)
      ensures Owed(r, EndSubtask(id))
    {
      assert Serves(r.backlog[id], EndSubtask(id));
    }
    if ids != [] {
      assert ids[0] in ids && Serves(r.backlog[ids[0]], CloseTest(t));
    }
  }

  lemma CommitKeepsOwed(cfg: Config, s: State, u: Uuid, body: NewTest, ids: seq<Uuid>, t: Uuid)
    requires Inv(cfg, s) && OwedFor(s, t) && Enabled(cfg, s, Commit(u, body, ids))
    ensures OwedFor(Apply(cfg, s, Commit(u, body, ids)), t)
  {
    var r := Apply(cfg, s, Commit(u, body, ids));
    CommitBacklog(cfg, s, u, body, ids);
    CommitShape(cfg, s, u, body, ids);
    if t == u {
      NewTestOwed(cfg, s, r, t, ids);
    } else {
      var kept := r.(db := s.db);
      BacklogChanged(s, kept, t);
      HandedOverKeepsOwed(cfg, s, kept, t);
      OtherCommit(s, kept, r, t);
    }
  }

  /** Obligations do not look at the tables, and the new rows are not of `t`. */
  lemma OtherCommit(s: State, kept: State, r: State, t: Uuid)
    requires OwedFor(kept, t) && r == kept.(db := r.db) && kept.db == s.db
    requires t in r.db.tests ==> t in s.db.tests && r.db.tests[t] == s.db.tests[t]
    requires forall id :: id in r.db.subtasks && r.db.subtasks[id].test == t ==>
               id in s.db.subtasks && s.db.subtasks[id] == r.db.subtasks[id]
    ensures OwedFor(r, t)
  {
    forall id | id in Outstanding(r.db, t)
      ensures Owed(r, EndSubtask(id))
    {
      assert id in Outstanding(kept.db, t);
      OwedSame(kept, r, EndSubtask(id));
    }
    if Owed(kept, CloseTest(t)) {
      OwedSame(kept, r, CloseTest(t));
    }
  }

  lemma OwedSame(s: State, r: State, goal: Goal)
    requires Owed(s, goal) && r == s.(db := r.db)
    ensures Owed(r, goal)
  {
    if Orphaned(s, goal) {
      var e :| Orphan(s, e) && Serves(s.entries[e].job, goal);
      assert Orphan(r, e);
    } else if InProgress(s, goal) {
      var k :| Works(s, k) && Ahead(s.handlers[k].pc, goal) && Serves(JobOf(s, k), goal);
      assert Works(r, k);
    }
  }

  // ---------------------------------------------------------------- over whole runs

  lemma StepKeepsOwed(cfg: Config, s: State, a: Action, t: Uuid)
    requires Inv(cfg, s) && OwedFor(s, t) && Enabled(cfg, s, a) && Smooth(s, a, t)
    ensures OwedFor(Apply(cfg, s, a), t)
  {
    if a.Commit? {
      CommitKeepsOwed(cfg, s, a.test, a.body, a.ids, t);
    } else if a.Advance? {
      AdvanceKeepsOwed(cfg, s, a.handler, a.response, a.caps, t);
    } else if a.Fail? {
      assert HandlerOk(cfg, s.db, JobOf(s, a.handler), s.handlers[a.handler]);
      FailKeepsOwed(s, a.handler, t);
    } else if a.Enqueue? {
      EnqueueKeepsOwed(cfg, s, a.subtask, a.entry, t);
    } else if a.DropJob? {
      DropKeepsOwed(cfg, s, a.subtask, t);
    } else if a.Deliver? || a.Reclaim? {
      PickUpKeepsOwed(cfg, s, a, t);
    } else if a.Ack? {
      AckKeepsOwed(cfg, s, a.handler, t);
    } else {
      LeaveKeepsOwed(cfg, s, a.handler, t);
    }
  }

  lemma {:induction false} RunKeepsOwed(cfg: Config, s: State, run: seq<Action>, r: State, t: Uuid)
    requires Inv(cfg, s) && OwedFor(s, t) && Reaches(cfg, s, run, r) && SmoothRun(cfg, s, run, t)
    ensures Inv(cfg, r) && OwedFor(r, t)
    decreases |run|
  {
    if run != [] {
      StepKeepsOwed(cfg, s, run[0], t);
      StepKeepsInv(cfg, s, run[0]);
      RunKeepsOwed(cfg, Apply(cfg, s, run[0]), run[1..], r, t);
    }
  }

  // ---------------------------------------------------------------- nothing is left behind

  /** No job that serves the goal is queued, un-acknowledged, or held by a handler that could still
      bring the goal about. */
  ghost predicate Idle(s: State, goal: Goal)
  {
    !InBacklog(s, goal) && !Unacked(s, goal) && !InProgress(s, goal)
  }

  lemma IdleOwesNothing(s: State, goal: Goal)
    requires Idle(s, goal)
    ensures !Owed(s, goal)
  {
  }

  /** Without work for a test there is none for its subtasks. */
  lemma IdleTestIdleRows(cfg: Config, s: State, id: Uuid)
    requires Inv(cfg, s) && id in s.db.subtasks && Idle(s, CloseTest(s.db.subtasks[id].test))
    ensures Idle(s, EndSubtask(id))
  {
    InvJobsOfTest(cfg, s, id);
    var t := s.db.subtasks[id].test;
    forall h | Works(s, h) && BeforeSave(s.handlers[h].pc)
      ensures !Serves(JobOf(s, h), EndSubtask(id))
    {
      assert Ahead(s.handlers[h].pc, CloseTest(t));
    }
  }

  lemma IdleMeansDone(cfg: Config, s: State, t: Uuid)
    requires Inv(cfg, s) && OwedFor(s, t) && Idle(s, CloseTest(t)) && t in s.db.tests
    ensures forall id :: id in RowsOf(s.db, t) ==> TerminalExec(s.db.subtasks[id].exec)
    ensures TerminalTask(s.db.tests[t].status) <==> s.db.tests[t].subtaskCount > 0
  {
    IdleOwesNothing(s, CloseTest(t));
    assert TestOk(cfg, s.db, t);
    forall id | id in RowsOf(s.db, t)
      ensures TerminalExec(s.db.subtasks[id].exec)
    {
      IdleTestIdleRows(cfg, s, id);
      IdleOwesNothing(s, EndSubtask(id));
      assert id !in Outstanding(s.db, t);
    }
  }

  /** Once every job of a test is acknowledged and no handler of it is active, every subtask of it has run
      to an end, and the test is closed exactly when its selection was not blank, although the close is
      a SELECT followed by a separate UPDATE and duplicates may run at any time. */
  lemma AllDoneWhenQuiet(cfg: Config, run: seq<Action>, s: State, t: Uuid)
    requires Reaches(cfg, EMPTY, run, s) && SmoothRun(cfg, EMPTY, run, t)
    requires t in s.db.tests && Idle(s, CloseTest(t))
    ensures forall id :: id in RowsOf(s.db, t) ==> TerminalExec(s.db.subtasks[id].exec)
    ensures TerminalTask(s.db.tests[t].status) <==> s.db.tests[t].subtaskCount > 0
  {
    RunKeepsOwed(cfg, EMPTY, run, s, t);
    IdleMeansDone(cfg, s, t);
  }

  // ---------------------------------------------------------------- exclusive delivery

  /** A job of `t` is held by at most one live handler, and not acknowledged while it is held. */
  ghost predicate OneHolder(s: State, t: Uuid)
  {
    && (forall h :: h in s.handlers ==> s.handlers[h].entry in s.entries)
    && (forall h :: h in s.handlers && JobOf(s, h).test == t ==> s.entries[s.handlers[h].entry].delivery == Delivered)
    && (forall h, k :: h in s.handlers && k in s.handlers && s.handlers[h].entry == s.handlers[k].entry ==>
          JobOf(s, h).test == t ==> h == k)
  }

  /** Workers may crash at any step, no handler of `t` returns an error before its close, and a job of `t`
      is reclaimed only after its holder has died. */
  ghost predicate Exclusive(s: State, a: Action, t: Uuid)
  {
    match a
    case DropJob(_) => Smooth(s, a, t)
    case Fail(_) => Smooth(s, a, t)
    case Reclaim(e, _, _) => e in s.entries && s.entries[e].job.test == t ==> Orphan(s, e)
    case _ => true
  }

  ghost predicate ExclusiveRun(cfg: Config, s: State, run: seq<Action>, t: Uuid)
    decreases |run|
  {
    run != [] ==>
      Enabled(cfg, s, run[0]) && Exclusive(s, run[0], t) && ExclusiveRun(cfg, Apply(cfg, s, run[0]), run[1..], t)
  }

  lemma PickedUpOneHolder(s: State, r: State, e: EntryId, h: HandlerId, w: WorkerId, t: Uuid)
    requires OneHolder(s, t) && e in s.entries && h !in s.handlers
    requires s.entries[e].job.test == t ==> forall k :: k in s.handlers ==> s.handlers[k].entry != e
    requires r.entries == s.entries[e := s.entries[e].(delivery := Delivered)]
    requires r.handlers == s.handlers[h := Handler(e, w, Begin)]
    ensures OneHolder(r, t)
  {
  }

  lemma LeftOneHolder(s: State, r: State, t: Uuid)
    requires OneHolder(s, t)
    requires forall k :: k in r.handlers ==> k in s.handlers && r.handlers[k].entry == s.handlers[k].entry
    requires forall e :: e in s.entries ==> e in r.entries && r.entries[e].job == s.entries[e].job
    requires forall k :: k in r.handlers && JobOf(s, k).test == t ==>
               r.entries[r.handlers[k].entry].delivery == s.entries[r.handlers[k].entry].delivery
    ensures OneHolder(r, t)
  {
  }

  lemma ExclusivePickUp(cfg: Config, s: State, a: Action, t: Uuid)
    requires OneHolder(s, t) && Enabled(cfg, s, a) && Exclusive(s, a, t)
    requires a.Deliver? || a.Reclaim?
    ensures OneHolder(Apply(cfg, s, a), t)
  {
    assert a.Reclaim? ==> s.entries == s.entries[a.entry := s.entries[a.entry].(delivery := Delivered)];
    PickedUpOneHolder(s, Apply(cfg, s, a), a.entry, a.handler, a.worker, t);
  }

  lemma StepKeepsOneHolder(cfg: Config, s: State, a: Action, t: Uuid)
    requires OneHolder(s, t) && Enabled(cfg, s, a) && Exclusive(s, a, t)
    ensures OneHolder(Apply(cfg, s, a), t)
  {
    if a.Deliver? || a.Reclaim? {
      ExclusivePickUp(cfg, s, a, t);
    } else {
      LeftOneHolder(s, Apply(cfg, s, a), t);
    }
  }

  lemma OneHolderIsSmooth(cfg: Config, s: State, a: Action, t: Uuid)
    requires OneHolder(s, t) && Enabled(cfg, s, a) && Exclusive(s, a, t)
    ensures Smooth(s, a, t)
  {
  }

  lemma {:induction false} ExclusiveIsSmooth(cfg: Config, s: State, run: seq<Action>, r: State, t: Uuid)
    requires OneHolder(s, t) && Reaches(cfg, s, run, r) && ExclusiveRun(cfg, s, run, t)
    ensures OneHolder(r, t) && SmoothRun(cfg, s, run, t)
    decreases |run|
  {
    if run != [] {
      StepKeepsOneHolder(cfg, s, run[0], t);
      OneHolderIsSmooth(cfg, s, run[0], t);
      ExclusiveIsSmooth(cfg, Apply(cfg, s, run[0]), run[1..], r, t);
    }
  }

  lemma OwedIsUnacked(s: State, t: Uuid)
    requires OneHolder(s, t) && Owed(s, CloseTest(t))
    ensures InBacklog(s, CloseTest(t)) || Unacked(s, CloseTest(t))
  {
    if Orphaned(s, CloseTest(t)) {
      var e :| Orphan(s, e) && Serves(s.entries[e].job, CloseTest(t));
    } else if InProgress(s, CloseTest(t)) {
      var h :| Works(s, h) && Ahead(s.handlers[h].pc, CloseTest(t)) && Serves(JobOf(s, h), CloseTest(t));
      assert s.entries[s.handlers[h].entry].delivery == Delivered;
    }
  }

  /** While a test with a subtask is open, some job of it is still to be queued or not acknowledged. */
  lemma OpenTestHasJob(cfg: Config, run: seq<Action>, s: State, t: Uuid)
    requires Reaches(cfg, EMPTY, run, s) && ExclusiveRun(cfg, EMPTY, run, t)
    requires t in s.db.tests && s.db.tests[t].subtaskCount > 0 && !TerminalTask(s.db.tests[t].status)
    ensures InBacklog(s, CloseTest(t)) || Unacked(s, CloseTest(t))
  {
    ExclusiveIsSmooth(cfg, EMPTY, run, s, t);
    RunKeepsOwed(cfg, EMPTY, run, s, t);
    OwedIsUnacked(s, t);
  }
}
