/** What every run keeps, under any interleaving, crash, redelivery, lost job and handler error:
    closed tests stay closed and settled, published totals balance, and a verdict is backed by a
    worker that justifies it. */
module ProtocolSafety {
  import opened Wrappers
  import opened Domain
  import opened Matrix
  import opened Store
  import opened Protocol

  ghost predicate SomeHas(cfg: Config, adapter: string)
  {
    exists w :: w in cfg.adapters && adapter in cfg.adapters[w]
  }

  ghost predicate SomeLacks(cfg: Config, adapter: string)
  {
    exists w :: w in cfg.adapters && adapter !in cfg.adapters[w]
  }

  /** A failed test needs a worker without its adapter, a finished one a worker with it. */
  ghost predicate Backed(cfg: Config, adapter: string, status: TaskStatus)
  {
    && (status == TaskStatus.Failed ==> SomeLacks(cfg, adapter))
    && (status == TaskStatus.Finished ==> SomeHas(cfg, adapter))
  }

  /** Every subtask of `t` has a result. */
  ghost predicate Settled(db: Db, t: Uuid)
  {
    forall id :: id in RowsOf(db, t) ==> db.subtasks[id].result != ResultStatus.Pending
  }

  ghost predicate RowOk(cfg: Config, db: Db, id: Uuid)
    requires id in db.subtasks
  {
    var row := db.subtasks[id];
    && row.test in db.tests
    && row.result != Disabled
    && (TerminalExec(row.exec) ==> row.result != ResultStatus.Pending)
    && (row.exec == ExecStatus.Finished ==> SomeHas(cfg, db.tests[row.test].adapter))
    && (row.exec == ExecStatus.Error ==> SomeLacks(cfg, db.tests[row.test].adapter))
    && (row.report != Missing ==>
          && id in db.reports
          && row.report == ReportStatusOf(db.reports[id])
          && row.failedStage == Some(db.reports[id].failedStage)
          && row.errorSummary == db.reports[id].errorSummary)
  }

  ghost predicate TestOk(cfg: Config, db: Db, t: Uuid)
    requires t in db.tests
  {
    var row := db.tests[t];
    && row.status != Cancelled
    && |RowsOf(db, t)| == row.subtaskCount == row.groupCount * row.sigAlgCount
    && (row.subtaskCount == 0 ==> row.status == TaskStatus.Pending)
    && (TerminalTask(row.status) ==> Settled(db, t) && Backed(cfg, row.adapter, row.status))
  }

  ghost predicate DbOk(cfg: Config, db: Db)
  {
    && (forall id :: id in db.subtasks ==> RowOk(cfg, db, id))
    && (forall t :: t in db.tests ==> TestOk(cfg, db, t))
  }

  /** The job asks for the cell of the subtask it reports on, with the adapter of its test. */
  ghost predicate JobOk(db: Db, job: ProbeJob)
  {
    && job.subtask in db.subtasks
    && job.test in db.tests
    && db.subtasks[job.subtask].test == job.test
    && db.subtasks[job.subtask].cell.group == job.group
    && db.subtasks[job.subtask].cell.sigAlg == job.sigAlg
    && db.tests[job.test].adapter == job.adapter
  }

  ghost predicate HandlerOk(cfg: Config, db: Db, job: ProbeJob, h: Handler)
  {
    && JobOk(db, job)
    && h.worker in cfg.adapters
    && match h.pc {
         case Probed(r, _) =>
           && (r == ResultStatus.Passed || r == ResultStatus.Failed || r == Unsupported)
           && IsConfigured(cfg, h.worker, job.adapter)
         case Saved(_, _) => db.subtasks[job.subtask].result != ResultStatus.Pending
         case Published => db.subtasks[job.subtask].result != ResultStatus.Pending
         case Counted(c) =>
           && Settled(db, job.test)
           && c.passed + c.failed == db.tests[job.test].subtaskCount
           && Backed(cfg, job.adapter, CloseStatus(c))
         case Closed(p, f) =>
           Settled(db, job.test) && p + f == db.tests[job.test].subtaskCount
         case _ => true
       }
  }

  ghost predicate EventOk(db: Db, event: TestEvent)
  {
    event.TestFinished? ==>
      && event.test in db.tests
      && event.passed + event.failed == db.tests[event.test].subtaskCount
      && Settled(db, event.test)
  }

  ghost predicate BacklogOk(db: Db, backlog: map<Uuid, ProbeJob>)
  {
    forall id :: id in backlog ==> JobOk(db, backlog[id]) && backlog[id].subtask == id
  }

  ghost predicate EntriesOk(db: Db, entries: map<EntryId, Entry>)
  {
    forall e :: e in entries ==> JobOk(db, entries[e].job)
  }

  ghost predicate HandlersOk(cfg: Config, db: Db, entries: map<EntryId, Entry>, handlers: map<HandlerId, Handler>)
  {
    forall h :: h in handlers ==>
      handlers[h].entry in entries && HandlerOk(cfg, db, entries[handlers[h].entry].job, handlers[h])
  }

  ghost predicate EventsOk(db: Db, events: seq<TestEvent>)
  {
    forall i :: 0 <= i < |events| ==> EventOk(db, events[i])
  }

  ghost predicate Inv(cfg: Config, s: State)
  {
    && DbOk(cfg, s.db)
    && BacklogOk(s.db, s.backlog)
    && EntriesOk(s.db, s.entries)
    && HandlersOk(cfg, s.db, s.entries, s.handlers)
    && EventsOk(s.db, s.events)
  }

  // ---------------------------------------------------------------- what the tables never undo

  /** Tests and subtasks are never lost or re-parented, closed tests stay closed, results stay set. */
  ghost predicate Grows(db: Db, db': Db)
  {
    && (forall t :: t in db.tests ==>
          && t in db'.tests
          && db'.tests[t].adapter == db.tests[t].adapter
          && db'.tests[t].groupCount == db.tests[t].groupCount
          && db'.tests[t].sigAlgCount == db.tests[t].sigAlgCount
          && db'.tests[t].subtaskCount == db.tests[t].subtaskCount
          && (TerminalTask(db.tests[t].status) ==> TerminalTask(db'.tests[t].status))
          && RowsOf(db', t) == RowsOf(db, t))
    && (forall id :: id in db.subtasks ==>
          && id in db'.subtasks
          && db'.subtasks[id].test == db.subtasks[id].test
          && db'.subtasks[id].cell == db.subtasks[id].cell
          && (db.subtasks[id].result != ResultStatus.Pending ==> db'.subtasks[id].result != ResultStatus.Pending))
  }

  lemma SettledGrows(db: Db, db': Db, t: Uuid)
    requires Grows(db, db') && t in db.tests && Settled(db, t)
    ensures Settled(db', t)
  {
    forall id | id in RowsOf(db', t)
      ensures db'.subtasks[id].result != ResultStatus.Pending
    {
      assert id in RowsOf(db, t);
    }
  }

  lemma HandlerGrows(cfg: Config, db: Db, db': Db, job: ProbeJob, h: Handler)
    requires Grows(db, db') && HandlerOk(cfg, db, job, h)
    ensures HandlerOk(cfg, db', job, h)
  {
    if h.pc.Counted? || h.pc.Closed? {
      SettledGrows(db, db', job.test);
    }
  }

  lemma EventGrows(db: Db, db': Db, event: TestEvent)
    requires Grows(db, db') && EventOk(db, event)
    ensures EventOk(db', event)
  {
    if event.TestFinished? {
      SettledGrows(db, db', event.test);
    }
  }

  lemma GrowsTransitive(a: Db, b: Db, c: Db)
    requires Grows(a, b) && Grows(b, c)
    ensures Grows(a, c)
  {
  }

  // ---------------------------------------------------------------- each statement

  /** One test row whose status changed to one that its rows allow. */
  lemma StatusReplaced(cfg: Config, db: Db, t: Uuid, status: TaskStatus)
    requires DbOk(cfg, db) && t in db.tests && RowsOf(db, t) != {} && status != Cancelled
    requires TerminalTask(db.tests[t].status) ==> TerminalTask(status)
    requires TerminalTask(status) ==> Settled(db, t) && Backed(cfg, db.tests[t].adapter, status)
    ensures DbOk(cfg, TestClosed(db, t, status)) && Grows(db, TestClosed(db, t, status))
  {
    var db' := TestClosed(db, t, status);
    forall u
      ensures RowsOf(db', u) == RowsOf(db, u)
    {
    }
    forall u | u in db.tests
      ensures TestOk(cfg, db', u)
    {
      assert TestOk(cfg, db, u);
    }
    forall id | id in db'.subtasks
      ensures RowOk(cfg, db', id)
    {
      assert RowOk(cfg, db, id);
    }
  }

  lemma TestRunningOk(cfg: Config, db: Db, t: Uuid)
    requires DbOk(cfg, db) && RowsOf(db, t) != {}
    ensures DbOk(cfg, TestRunning(db, t)) && Grows(db, TestRunning(db, t))
  {
    if t in db.tests && db.tests[t].status == TaskStatus.Pending {
      StatusReplaced(cfg, db, t, TaskStatus.Running);
      assert TestRunning(db, t) == TestClosed(db, t, TaskStatus.Running);
    }
  }

  /** One subtask row replaced by one that is fine and keeps its parent and any result it had. */
  lemma RowReplaced(cfg: Config, db: Db, id: Uuid, db': Db)
    requires DbOk(cfg, db)
    requires id in db.subtasks && id in db'.subtasks
    requires db'.tests == db.tests && db'.subtasks == db.subtasks[id := db'.subtasks[id]]
    requires forall k :: k != id && k in db.reports ==> k in db'.reports && db'.reports[k] == db.reports[k]
    requires db'.subtasks[id].test == db.subtasks[id].test && db'.subtasks[id].cell == db.subtasks[id].cell
    requires db.subtasks[id].result != ResultStatus.Pending ==> db'.subtasks[id].result != ResultStatus.Pending
    requires RowOk(cfg, db', id)
    ensures DbOk(cfg, db') && Grows(db, db')
  {
    forall t | t in db.tests
      ensures RowsOf(db', t) == RowsOf(db, t)
    {
    }
    assert Grows(db, db');
    forall t | t in db'.tests
      ensures TestOk(cfg, db', t)
    {
      assert TestOk(cfg, db, t);
      if TerminalTask(db.tests[t].status) {
        SettledGrows(db, db', t);
      }
    }
    forall k | k in db'.subtasks
      ensures RowOk(cfg, db', k)
    {
      if k != id { assert RowOk(cfg, db, k); }
    }
  }

  lemma InsertedRow(db: Db, t: Uuid, adapter: string, axes: Axes, ids: seq<Uuid>, id: Uuid)
    requires Distinct(ids) && |ids| == |axes.groups| * |axes.sigAlgs|
    requires forall x :: x in ids ==> x !in db.subtasks
    ensures var db' := TestInserted(db, t, adapter, axes, ids);
            && (id in db'.subtasks <==> id in db.subtasks || id in ids)
            && (id in db.subtasks ==> db'.subtasks[id] == db.subtasks[id])
            && (id in ids ==> db'.subtasks[id].test == t && db'.subtasks[id].exec == Queued &&
                              db'.subtasks[id].result == ResultStatus.Pending && db'.subtasks[id].report == Missing)
  {
  }

  lemma InsertedJob(db: Db, t: Uuid, adapter: string, axes: Axes, ids: seq<Uuid>, k: nat)
    requires Distinct(ids) && |ids| == |axes.groups| * |axes.sigAlgs| && k < |ids|
    ensures JobOk(TestInserted(db, t, adapter, axes, ids), JobsFor(t, adapter, axes, ids)[ids[k]])
    ensures JobsFor(t, adapter, axes, ids)[ids[k]].subtask == ids[k]
  {
  }

  lemma InsertedRowSets(db: Db, t: Uuid, adapter: string, axes: Axes, ids: seq<Uuid>)
    requires Distinct(ids) && |ids| == |axes.groups| * |axes.sigAlgs|
    requires forall id :: id in ids ==> id !in db.subtasks
    requires forall id :: id in db.subtasks ==> db.subtasks[id].test != t
    ensures var db' := TestInserted(db, t, adapter, axes, ids);
            && (forall u :: u != t ==> RowsOf(db', u) == RowsOf(db, u))
            && |RowsOf(db', t)| == |ids|
  {
    var db' := TestInserted(db, t, adapter, axes, ids);
    forall u | u != t
      ensures RowsOf(db', u) == RowsOf(db, u)
    {
      forall id
        ensures id in RowsOf(db', u) <==> id in RowsOf(db, u)
      {
        InsertedRow(db, t, adapter, axes, ids, id);
      }
    }
    var added := Members(ids);
    forall id
      ensures id in RowsOf(db', t) <==> id in added
    {
      InsertedRow(db, t, adapter, axes, ids, id);
    }
    assert RowsOf(db', t) == added;
    DistinctCardinality(ids);
  }

  /** One new test whose rows are all new and untouched. */
  lemma TestAdded(cfg: Config, db: Db, t: Uuid, db': Db)
    requires DbOk(cfg, db) && t !in db.tests && t in db'.tests
    requires db'.tests == db.tests[t := db'.tests[t]] && db'.reports == db.reports
    requires db'.tests[t].status == TaskStatus.Pending
    requires |RowsOf(db', t)| == db'.tests[t].subtaskCount == db'.tests[t].groupCount * db'.tests[t].sigAlgCount
    requires forall u :: u != t ==> RowsOf(db', u) == RowsOf(db, u)
    requires forall id :: id in db.subtasks ==> id in db'.subtasks && db'.subtasks[id] == db.subtasks[id]
    requires forall id :: id in db'.subtasks && id !in db.subtasks ==>
               db'.subtasks[id].test == t && db'.subtasks[id].exec == Queued &&
               db'.subtasks[id].result == ResultStatus.Pending && db'.subtasks[id].report == Missing
    ensures DbOk(cfg, db') && Grows(db, db')
  {
    assert Grows(db, db');
    forall id | id in db'.subtasks
      ensures RowOk(cfg, db', id)
    {
      if id in db.subtasks { assert RowOk(cfg, db, id); }
    }
    forall u | u in db'.tests
      ensures TestOk(cfg, db', u)
    {
      if u != t {
        assert TestOk(cfg, db, u);
        if TerminalTask(db.tests[u].status) { SettledGrows(db, db', u); }
      }
    }
  }

  lemma TestInsertedOk(cfg: Config, db: Db, t: Uuid, adapter: string, axes: Axes, ids: seq<Uuid>)
    requires DbOk(cfg, db) && t !in db.tests
    requires Distinct(ids) && |ids| == |axes.groups| * |axes.sigAlgs|
    requires forall id :: id in ids ==> id !in db.subtasks
    ensures DbOk(cfg, TestInserted(db, t, adapter, axes, ids))
    ensures Grows(db, TestInserted(db, t, adapter, axes, ids))
  {
    forall id | id in db.subtasks
      ensures db.subtasks[id].test != t
    {
      assert RowOk(cfg, db, id);
    }
    InsertedRowSets(db, t, adapter, axes, ids);
    forall id
    {
      InsertedRow(db, t, adapter, axes, ids, id);
    }
    TestAdded(cfg, db, t, TestInserted(db, t, adapter, axes, ids));
  }

  // ---------------------------------------------------------------- the close

  lemma SettledWhenDone(cfg: Config, db: Db, t: Uuid, id: Uuid)
    requires DbOk(cfg, db) && Outstanding(db, t) == {} && id in RowsOf(db, t)
    ensures db.subtasks[id].result != ResultStatus.Pending
    ensures id in PassedRows(db, t) || id in FailedRows(db, t)
  {
    assert RowOk(cfg, db, id);
    assert id !in Outstanding(db, t);
  }

  lemma PartitionSize<T>(a: set<T>, b: set<T>, whole: set<T>)
    requires a !! b && a + b == whole
    ensures |a| + |b| == |whole|
  {
  }

  lemma RowsCounted(cfg: Config, db: Db, t: Uuid)
    requires DbOk(cfg, db) && t in db.tests
    ensures |RowsOf(db, t)| == db.tests[t].subtaskCount
  {
    assert TestOk(cfg, db, t);
  }

  lemma RowsPartition(cfg: Config, db: Db, t: Uuid)
    requires DbOk(cfg, db) && Outstanding(db, t) == {}
    ensures Settled(db, t)
    ensures PassedRows(db, t) !! FailedRows(db, t) && PassedRows(db, t) + FailedRows(db, t) == RowsOf(db, t)
  {
    forall id | id in RowsOf(db, t)
      ensures db.subtasks[id].result != ResultStatus.Pending && id in PassedRows(db, t) + FailedRows(db, t)
    {
      SettledWhenDone(cfg, db, t, id);
    }
  }

  /** When the SELECT sees nothing outstanding, the two published counts partition the subtasks. */
  lemma CountsBalance(cfg: Config, db: Db, t: Uuid)
    requires DbOk(cfg, db) && t in db.tests
    requires CountRows(db, t).outstanding == 0
    ensures Settled(db, t)
    ensures CountRows(db, t).passed + CountRows(db, t).failed == db.tests[t].subtaskCount
  {
    RowsPartition(cfg, db, t);
    PartitionSize(PassedRows(db, t), FailedRows(db, t), RowsOf(db, t));
    RowsCounted(cfg, db, t);
  }

  lemma SubsetOfSameSize<T>(a: set<T>, b: set<T>)
    requires a <= b && |a| == |b|
    ensures a == b
  {
    assert |b - a| == |b| - |a|;
  }

  lemma VerdictBacked(cfg: Config, db: Db, job: ProbeJob)
    requires DbOk(cfg, db) && JobOk(db, job)
    requires CountRows(db, job.test).outstanding == 0
    ensures Backed(cfg, job.adapter, CloseStatus(CountRows(db, job.test)))
  {
    var t := job.test;
    assert job.subtask in RowsOf(db, t);
    assert Outstanding(db, t) == {};
    if |ErroredRows(db, t)| == |RowsOf(db, t)| {
      SubsetOfSameSize(ErroredRows(db, t), RowsOf(db, t));
      assert job.subtask in ErroredRows(db, t);
      assert RowOk(cfg, db, job.subtask);
    } else {
      assert RowsOf(db, t) - ErroredRows(db, t) != {};
      var id :| id in RowsOf(db, t) && id !in ErroredRows(db, t);
      assert id !in Outstanding(db, t);
      assert RowOk(cfg, db, id);
    }
  }

  // ---------------------------------------------------------------- every step keeps the invariant

  lemma HandlersGrow(cfg: Config, db: Db, db': Db, entries: map<EntryId, Entry>, handlers: map<HandlerId, Handler>)
    requires Grows(db, db') && HandlersOk(cfg, db, entries, handlers)
    ensures HandlersOk(cfg, db', entries, handlers)
  {
    forall h | h in handlers
      ensures HandlerOk(cfg, db', entries[handlers[h].entry].job, handlers[h])
    {
      HandlerGrows(cfg, db, db', entries[handlers[h].entry].job, handlers[h]);
    }
  }

  lemma EventsGrow(db: Db, db': Db, events: seq<TestEvent>)
    requires Grows(db, db') && EventsOk(db, events)
    ensures EventsOk(db', events)
  {
    forall i | 0 <= i < |events|
      ensures EventOk(db', events[i])
    {
      EventGrows(db, db', events[i]);
    }
  }

  /** Jobs, handlers and events survive any growth of the tables. */
  lemma InvFrame(cfg: Config, s: State, db': Db)
    requires Inv(cfg, s) && Grows(s.db, db') && DbOk(cfg, db')
    ensures Inv(cfg, s.(db := db'))
  {
    HandlersGrow(cfg, s.db, db', s.entries, s.handlers);
    EventsGrow(s.db, db', s.events);
  }

  lemma NextDbOk(cfg: Config, db: Db, job: ProbeJob, h: Handler)
    requires DbOk(cfg, db) && HandlerOk(cfg, db, job, h)
    ensures DbOk(cfg, NextDb(cfg, db, job, h)) && Grows(db, NextDb(cfg, db, job, h))
  {
    var db' := NextDb(cfg, db, job, h);
    assert RowOk(cfg, db, job.subtask);
    assert job.subtask in RowsOf(db, job.test);
    match h.pc
    case Begin => TestRunningOk(cfg, db, job.test);
    case TestMarked => RowReplaced(cfg, db, job.subtask, db');
    case SubtaskMarked =>
      if !IsConfigured(cfg, h.worker, job.adapter) {
        RowReplaced(cfg, db, job.subtask, db');
      }
    case Probed(_, _) => RowReplaced(cfg, db, job.subtask, db');
    case Counted(c) => StatusReplaced(cfg, db, job.test, CloseStatus(c));
    case _ =>
  }

  lemma CountedOk(cfg: Config, db: Db, job: ProbeJob, h: Handler)
    requires DbOk(cfg, db) && JobOk(db, job) && h.worker in cfg.adapters
    requires CountRows(db, job.test).outstanding == 0
    ensures HandlerOk(cfg, db, job, h.(pc := Counted(CountRows(db, job.test))))
  {
    CountsBalance(cfg, db, job.test);
    VerdictBacked(cfg, db, job);
  }

  /** The handler's own obligation at its next program point. */
  lemma NextHandlerOk(cfg: Config, db: Db, job: ProbeJob, h: Handler,
                      response: ProbeResponse, caps: Option<Capabilities>)
    requires DbOk(cfg, db) && HandlerOk(cfg, db, job, h)
    ensures HandlerOk(cfg, NextDb(cfg, db, job, h), job, h.(pc := NextPc(cfg, db, job, h, response, caps)))
  {
    if h.pc.Published? {
      if CountRows(db, job.test).outstanding == 0 {
        CountedOk(cfg, db, job, h);
      }
    } else {
      NextDbOk(cfg, db, job, h);
      HandlerGrows(cfg, db, NextDb(cfg, db, job, h), job, h);
    }
  }

  lemma EmittedOk(cfg: Config, db: Db, job: ProbeJob, h: Handler, i: nat)
    requires HandlerOk(cfg, db, job, h) && i < |Emitted(job, h.pc)|
    ensures EventOk(db, Emitted(job, h.pc)[i])
  {
  }

  /** A handler that moved and what it published, once the tables are in place. */
  lemma InvMoved(cfg: Config, s: State, h: HandlerId, pc: Pc, emitted: seq<TestEvent>)
    requires Inv(cfg, s) && h in s.handlers
    requires HandlerOk(cfg, s.db, s.entries[s.handlers[h].entry].job, s.handlers[h].(pc := pc))
    requires forall i :: 0 <= i < |emitted| ==> EventOk(s.db, emitted[i])
    ensures Inv(cfg, Moved(s, h, pc).(events := s.events + emitted))
  {
  }

  lemma AdvanceKeepsInv(cfg: Config, s: State, h: HandlerId, response: ProbeResponse, caps: Option<Capabilities>)
    requires Inv(cfg, s) && h in s.handlers
    ensures Inv(cfg, Advanced(cfg, s, h, response, caps))
    ensures Grows(s.db, Advanced(cfg, s, h, response, caps).db)
  {
    var handler := s.handlers[h];
    var job := s.entries[handler.entry].job;
    var db' := NextDb(cfg, s.db, job, handler);
    NextDbOk(cfg, s.db, job, handler);
    NextHandlerOk(cfg, s.db, job, handler, response, caps);
    InvFrame(cfg, s, db');
    HandlerGrows(cfg, s.db, db', job, handler);
    var emitted := Emitted(job, handler.pc);
    forall i | 0 <= i < |emitted|
      ensures EventOk(db', emitted[i])
    {
      EmittedOk(cfg, db', job, handler, i);
    }
    InvMoved(cfg, s.(db := db'), h, NextPc(cfg, s.db, job, handler, response, caps), emitted);
  }

  lemma FailKeepsInv(cfg: Config, s: State, h: HandlerId)
    requires Inv(cfg, s) && h in s.handlers
    ensures Inv(cfg, Moved(s, h, Done))
  {
    InvMoved(cfg, s, h, Done, []);
    assert s.events + [] == s.events;
  }

  lemma NewJobsOk(db: Db, backlog: map<Uuid, ProbeJob>, t: Uuid, adapter: string, axes: Axes, ids: seq<Uuid>)
    requires Distinct(ids) && |ids| == |axes.groups| * |axes.sigAlgs|
    requires BacklogOk(TestInserted(db, t, adapter, axes, ids), backlog)
    ensures BacklogOk(TestInserted(db, t, adapter, axes, ids), backlog + JobsFor(t, adapter, axes, ids))
  {
    var jobs := JobsFor(t, adapter, axes, ids);
    forall id | id in jobs
      ensures JobOk(TestInserted(db, t, adapter, axes, ids), jobs[id]) && jobs[id].subtask == id
    {
      var k :| 0 <= k < |ids| && ids[k] == id;
      InsertedJob(db, t, adapter, axes, ids, k);
    }
  }

  lemma CommitKeepsInv(cfg: Config, s: State, t: Uuid, body: NewTest, ids: seq<Uuid>)
    requires Inv(cfg, s) && Enabled(cfg, s, Commit(t, body, ids))
    ensures Inv(cfg, Apply(cfg, s, Commit(t, body, ids))) && Grows(s.db, Apply(cfg, s, Commit(t, body, ids)).db)
  {
    var axes := Accept(body, cfg.limits).value;
    var db := TestInserted(s.db, t, body.adapter, axes, ids);
    TestInsertedOk(cfg, s.db, t, body.adapter, axes, ids);
    InvFrame(cfg, s, db);
    NewJobsOk(s.db, s.backlog, t, body.adapter, axes, ids);
  }

  /** Handlers only look at the jobs of entries, which are never lost or changed. */
  lemma HandlersKeepEntries(cfg: Config, db: Db, entries: map<EntryId, Entry>, entries': map<EntryId, Entry>,
                            handlers: map<HandlerId, Handler>)
    requires HandlersOk(cfg, db, entries, handlers)
    requires forall e :: e in entries ==> e in entries' && entries'[e].job == entries[e].job
    ensures HandlersOk(cfg, db, entries', handlers)
  {
  }

  lemma EnqueuedInv(cfg: Config, s: State, r: State, id: Uuid, e: EntryId)
    requires Inv(cfg, s) && id in s.backlog && e !in s.entries
    requires r == s.(backlog := s.backlog - {id}, entries := s.entries[e := Entry(s.backlog[id], Undelivered)])
    ensures Inv(cfg, r)
  {
    HandlersKeepEntries(cfg, s.db, s.entries, r.entries, s.handlers);
  }

  lemma DroppedInv(cfg: Config, s: State, id: Uuid)
    requires Inv(cfg, s)
    ensures Inv(cfg, s.(backlog := s.backlog - {id}))
  {
  }

  lemma QueueStepKeepsInv(cfg: Config, s: State, a: Action)
    requires Inv(cfg, s) && Enabled(cfg, s, a)
    requires a.Enqueue? || a.DropJob?
    ensures Inv(cfg, Apply(cfg, s, a))
  {
    if a.Enqueue? {
      EnqueuedInv(cfg, s, Apply(cfg, s, a), a.subtask, a.entry);
    } else {
      DroppedInv(cfg, s, a.subtask);
    }
  }

  lemma HandlerAdded(cfg: Config, db: Db, entries: map<EntryId, Entry>, handlers: map<HandlerId, Handler>,
                     e: EntryId, h: HandlerId, w: WorkerId)
    requires HandlersOk(cfg, db, entries, handlers) && EntriesOk(db, entries)
    requires e in entries && w in cfg.adapters
    ensures HandlersOk(cfg, db, entries, handlers[h := Handler(e, w, Begin)])
  {
  }

  lemma PickedUpInv(cfg: Config, s: State, r: State, e: EntryId, h: HandlerId, w: WorkerId)
    requires Inv(cfg, s) && e in s.entries && w in cfg.adapters
    requires r == s.(entries := s.entries[e := s.entries[e].(delivery := Delivered)],
                     handlers := s.handlers[h := Handler(e, w, Begin)])
    ensures Inv(cfg, r)
  {
    HandlersKeepEntries(cfg, s.db, s.entries, r.entries, s.handlers);
    HandlerAdded(cfg, s.db, r.entries, s.handlers, e, h, w);
  }

  lemma HandOverKeepsInv(cfg: Config, s: State, a: Action)
    requires Inv(cfg, s) && Enabled(cfg, s, a)
    requires a.Deliver? || a.Reclaim?
    ensures Inv(cfg, Apply(cfg, s, a))
  {
    assert a.Reclaim? ==> s.entries == s.entries[a.entry := s.entries[a.entry].(delivery := Delivered)];
    PickedUpInv(cfg, s, Apply(cfg, s, a), a.entry, a.handler, a.worker);
  }

  lemma HandlerGone(cfg: Config, db: Db, entries: map<EntryId, Entry>, handlers: map<HandlerId, Handler>, h: HandlerId)
    requires HandlersOk(cfg, db, entries, handlers)
    ensures HandlersOk(cfg, db, entries, handlers - {h})
  {
  }

  lemma LeaveKeepsInv(cfg: Config, s: State, h: HandlerId)
    requires Inv(cfg, s)
    ensures Inv(cfg, s.(handlers := s.handlers - {h}))
  {
    HandlerGone(cfg, s.db, s.entries, s.handlers, h);
  }

  lemma AckedInv(cfg: Config, s: State, r: State, e: EntryId, h: HandlerId)
    requires Inv(cfg, s) && e in s.entries
    requires r == s.(entries := s.entries[e := s.entries[e].(delivery := Acked)], handlers := s.handlers - {h})
    ensures Inv(cfg, r)
  {
    HandlersKeepEntries(cfg, s.db, s.entries, r.entries, s.handlers);
    HandlerGone(cfg, s.db, r.entries, s.handlers, h);
  }

  lemma AckKeepsInv(cfg: Config, s: State, h: HandlerId)
    requires Inv(cfg, s) && Enabled(cfg, s, Ack(h))
    ensures Inv(cfg, Apply(cfg, s, Ack(h)))
  {
    AckedInv(cfg, s, Apply(cfg, s, Ack(h)), s.handlers[h].entry, h);
  }

  /** A step of the stream, or a handler that leaves or gives up: the tables stay as they are. */
  lemma QuietStepKeepsInv(cfg: Config, s: State, a: Action)
    requires Inv(cfg, s) && Enabled(cfg, s, a) && !a.Commit? && !a.Advance?
    ensures Inv(cfg, Apply(cfg, s, a)) && Apply(cfg, s, a).db == s.db
  {
    if a.Fail? {
      FailKeepsInv(cfg, s, a.handler);
    } else if a.Enqueue? || a.DropJob? {
      QueueStepKeepsInv(cfg, s, a);
    } else if a.Deliver? || a.Reclaim? {
      HandOverKeepsInv(cfg, s, a);
    } else if a.Ack? {
      AckKeepsInv(cfg, s, a.handler);
    } else {
      LeaveKeepsInv(cfg, s, a.handler);
    }
  }

  lemma StepKeepsInv(cfg: Config, s: State, a: Action)
    requires Inv(cfg, s) && Enabled(cfg, s, a)
    ensures Inv(cfg, Apply(cfg, s, a)) && Grows(s.db, Apply(cfg, s, a).db)
  {
    if a.Commit? {
      CommitKeepsInv(cfg, s, a.test, a.body, a.ids);
    } else if a.Advance? {
      AdvanceKeepsInv(cfg, s, a.handler, a.response, a.caps);
    } else {
      QuietStepKeepsInv(cfg, s, a);
    }
  }

  // ---------------------------------------------------------------- over whole runs

  lemma {:induction false} RunKeepsInv(cfg: Config, s: State, run: seq<Action>, r: State)
    requires Inv(cfg, s) && Reaches(cfg, s, run, r)
    ensures Inv(cfg, r) && Grows(s.db, r.db)
    decreases |run|
  {
    if run != [] {
      var next := Apply(cfg, s, run[0]);
      StepKeepsInv(cfg, s, run[0]);
      RunKeepsInv(cfg, next, run[1..], r);
      GrowsTransitive(s.db, next.db, r.db);
    }
  }

  lemma ReachableInv(cfg: Config, run: seq<Action>, s: State)
    requires Reaches(cfg, EMPTY, run, s)
    ensures Inv(cfg, s)
  {
    RunKeepsInv(cfg, EMPTY, run, s);
  }

  /** No probe is ever recorded on another cell: every job that is queued, in the stream or held asks for the
      group and signature algorithm of the subtask it reports on, with the adapter of its test. */
  lemma JobsAskForTheirCell(cfg: Config, run: seq<Action>, s: State)
    requires Reaches(cfg, EMPTY, run, s)
    ensures forall id :: id in s.backlog ==> JobOk(s.db, s.backlog[id])
    ensures forall e :: e in s.entries ==> JobOk(s.db, s.entries[e].job)
    ensures forall h :: h in s.handlers ==> s.handlers[h].entry in s.entries
  {
    ReachableInv(cfg, run, s);
  }

  /** Once a test is finished or failed it is one of the two for the rest of the run, with the same
      subtasks, each of which has a result. */
  lemma ClosedStaysClosed(cfg: Config, run: seq<Action>, mid: State, rest: seq<Action>, end: State, t: Uuid)
    requires Reaches(cfg, EMPTY, run, mid) && Reaches(cfg, mid, rest, end)
    requires t in mid.db.tests && TerminalTask(mid.db.tests[t].status)
    ensures t in end.db.tests && TerminalTask(end.db.tests[t].status)
    ensures RowsOf(end.db, t) == RowsOf(mid.db, t)
    ensures Settled(mid.db, t) && Settled(end.db, t)
  {
    ReachableInv(cfg, run, mid);
    RunKeepsInv(cfg, mid, rest, end);
    assert TestOk(cfg, mid.db, t);
    assert TestOk(cfg, end.db, t);
  }

  lemma CommittedCounts(cfg: Config, s: State, t: Uuid, body: NewTest, ids: seq<Uuid>)
    requires Enabled(cfg, s, Commit(t, body, ids))
    ensures var db := Apply(cfg, s, Commit(t, body, ids)).db;
            && t in db.tests
            && db.tests[t].adapter == body.adapter
            && db.tests[t].groupCount == |Deduped(body.groups)|
            && db.tests[t].sigAlgCount == |Deduped(body.sigAlgs)|
  {
  }

  /** What the commit wrote about the selection is there for the rest of the run. */
  lemma AfterCommit(cfg: Config, before: seq<Action>, pre: State, t: Uuid, body: NewTest, ids: seq<Uuid>,
                    after: seq<Action>, s: State)
    requires Reaches(cfg, EMPTY, before, pre) && Enabled(cfg, pre, Commit(t, body, ids))
    requires Reaches(cfg, Apply(cfg, pre, Commit(t, body, ids)), after, s)
    ensures Inv(cfg, pre) && Inv(cfg, Apply(cfg, pre, Commit(t, body, ids))) && Inv(cfg, s)
    ensures Grows(Apply(cfg, pre, Commit(t, body, ids)).db, s.db)
    ensures t in s.db.tests
    ensures s.db.tests[t].groupCount == |Deduped(body.groups)|
    ensures s.db.tests[t].sigAlgCount == |Deduped(body.sigAlgs)|
  {
    ReachableInv(cfg, before, pre);
    CommitKeepsInv(cfg, pre, t, body, ids);
    CommittedCounts(cfg, pre, t, body, ids);
    RunKeepsInv(cfg, Apply(cfg, pre, Commit(t, body, ids)), after, s);
  }

  lemma FinishedTotals(cfg: Config, s: State, i: nat)
    requires Inv(cfg, s) && i < |s.events| && s.events[i].TestFinished?
    ensures var t := s.events[i].test;
            && t in s.db.tests && Settled(s.db, t)
            && s.events[i].passed + s.events[i].failed == |RowsOf(s.db, t)|
            && |RowsOf(s.db, t)| == s.db.tests[t].groupCount * s.db.tests[t].sigAlgCount
  {
    assert EventOk(s.db, s.events[i]);
    assert TestOk(cfg, s.db, s.events[i].test);
  }

  /** Every TestFinished event of every run accounts for each cell of the selected matrix once. */
  lemma PublishedTotalsBalance(cfg: Config, before: seq<Action>, pre: State, t: Uuid, body: NewTest, ids: seq<Uuid>,
                               after: seq<Action>, s: State, i: nat)
    requires Reaches(cfg, EMPTY, before, pre) && Enabled(cfg, pre, Commit(t, body, ids))
    requires Reaches(cfg, Apply(cfg, pre, Commit(t, body, ids)), after, s)
    requires i < |s.events| && s.events[i].TestFinished? && s.events[i].test == t
    ensures s.events[i].passed + s.events[i].failed == |Deduped(body.groups)| * |Deduped(body.sigAlgs)|
    ensures t in s.db.tests && |RowsOf(s.db, t)| == s.events[i].passed + s.events[i].failed
    ensures Settled(s.db, t)
  {
    AfterCommit(cfg, before, pre, t, body, ids, after, s);
    FinishedTotals(cfg, s, i);
  }

  /** With any mix of worker configurations, a verdict names a worker that could have produced it. */
  lemma VerdictNeedsWorker(cfg: Config, run: seq<Action>, s: State, t: Uuid)
    requires Reaches(cfg, EMPTY, run, s) && t in s.db.tests
    ensures s.db.tests[t].status == TaskStatus.Failed ==> SomeLacks(cfg, s.db.tests[t].adapter)
    ensures s.db.tests[t].status == TaskStatus.Finished ==> SomeHas(cfg, s.db.tests[t].adapter)
  {
    ReachableInv(cfg, run, s);
    assert TestOk(cfg, s.db, t);
  }

  /** Some worker has the adapter and another lacks it. */
  ghost predicate WorkersDisagree(cfg: Config, adapter: string)
  {
    SomeHas(cfg, adapter) && SomeLacks(cfg, adapter)
  }

  /** Where all workers agree on a test's adapter, whatever else their maps hold, a closed test is failed exactly when
      none has it, and no later close changes the verdict. */
  lemma AgreedVerdict(cfg: Config, run: seq<Action>, mid: State, rest: seq<Action>, end: State, t: Uuid)
    requires Reaches(cfg, EMPTY, run, mid) && Reaches(cfg, mid, rest, end)
    requires t in mid.db.tests && TerminalTask(mid.db.tests[t].status)
    requires !WorkersDisagree(cfg, mid.db.tests[t].adapter)
    ensures mid.db.tests[t].status == TaskStatus.Failed <==> !SomeHas(cfg, mid.db.tests[t].adapter)
    ensures t in end.db.tests && end.db.tests[t].status == mid.db.tests[t].status
  {
    ReachableInv(cfg, run, mid);
    RunKeepsInv(cfg, mid, rest, end);
    assert TestOk(cfg, mid.db, t);
    assert TestOk(cfg, end.db, t);
  }

  /** When all workers share one adapter map, a closed test is failed exactly when its adapter is not
      in the map, and no later close changes the verdict. */
  lemma SharedMapVerdict(cfg: Config, adapters: set<string>, run: seq<Action>, mid: State,
                         rest: seq<Action>, end: State, t: Uuid)
    requires forall w :: w in cfg.adapters ==> cfg.adapters[w] == adapters
    requires Reaches(cfg, EMPTY, run, mid) && Reaches(cfg, mid, rest, end)
    requires t in mid.db.tests && TerminalTask(mid.db.tests[t].status)
    ensures mid.db.tests[t].status == TaskStatus.Failed <==> mid.db.tests[t].adapter !in adapters
    ensures t in end.db.tests && end.db.tests[t].status == mid.db.tests[t].status
  {
    VerdictNeedsWorker(cfg, run, mid, t);
    AgreedVerdict(cfg, run, mid, rest, end, t);
  }
}
