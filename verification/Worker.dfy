/** The worker as code: one method per statement of services/worker/src/store.rs on tables held in
    fields, and `Handle`, the body of services/worker/src/probe.rs, which runs them in order. An
    undisturbed `Handle` is a run of the protocol's `Advance` actions of one handler. */
module Worker {
  import opened Wrappers
  import opened Text
  import opened Domain
  import opened Store
  import opened Protocol
  import opened ProtocolSafety
  import opened ProtocolProgress
  import opened ProtocolClosing

  class Deployment {
    var tests: map<Uuid, TestRow>
    var subtasks: map<Uuid, SubtaskRow>
    var reports: map<Uuid, ProbeResponse>
    var published: seq<TestEvent>
    var entries: map<EntryId, Entry>

    constructor ()
      ensures Tables() == Db(map[], map[], map[]) && published == [] && entries == map[]
    {
      tests, subtasks, reports, published, entries := map[], map[], map[], [], map[];
    }

    ghost function Tables(): Db
      reads this
    {
      Db(tests, subtasks, reports)
    }

    method MarkTestRunning(t: Uuid)
      modifies this`tests
      ensures Tables() == TestRunning(old(Tables()), t)
    {
      if t in tests && tests[t].status == TaskStatus.Pending {
        tests := tests[t := tests[t].(status := TaskStatus.Running)];
      }
    }

    method MarkSubtaskRunning(id: Uuid)
      modifies this`subtasks
      ensures Tables() == SubtaskRunning(old(Tables()), id)
    {
      if id in subtasks {
        subtasks := subtasks[id := subtasks[id].(exec := ExecStatus.Running)];
      }
    }

    method SaveReport(id: Uuid, result: ResultStatus, response: ProbeResponse)
      modifies this`subtasks, this`reports
      ensures Tables() == ReportSaved(old(Tables()), id, result, response)
    {
      var report := if response.handshakeSuccess then Complete
                    else if !response.hasMessages then Partial
                    else Complete;
      if id in subtasks {
        reports := reports[id := response];
        subtasks := subtasks[id := subtasks[id].(exec := ExecStatus.Finished, result := result, report := report,
                                                 failedStage := Some(response.failedStage),
                                                 errorSummary := response.errorSummary)];
      }
    }

    method MarkSubtaskError(id: Uuid, reason: string)
      modifies this`subtasks
      ensures Tables() == SubtaskErrored(old(Tables()), id, reason)
    {
      if id in subtasks {
        subtasks := subtasks[id := subtasks[id].(exec := ExecStatus.Error, result := ResultStatus.Failed,
                                                 report := Missing, errorSummary := Some(reason))];
      }
    }

    method Publish(event: TestEvent)
      modifies this`published
      ensures published == old(published) + [event]
    {
      published := published + [event];
    }

    /** The SELECT and the UPDATE of `finish_test_if_done`, here with nobody in between. */
    method FinishTestIfDone(t: Uuid) returns (progress: Option<(nat, nat)>)
      modifies this`tests
      ensures var counts := CountRows(old(Tables()), t);
              if counts.outstanding > 0 then progress == None && Tables() == old(Tables())
              else progress == Some((counts.passed, counts.failed)) &&
                   Tables() == TestClosed(old(Tables()), t, CloseStatus(counts))
      ensures progress.Some? ==> Tally(Tables(), t, progress.value.0, progress.value.1)
      ensures progress.None? ==>
                exists id :: id in subtasks && subtasks[id].test == t &&
                             (subtasks[id].exec == Queued || subtasks[id].exec == ExecStatus.Running)
    {
      SelectTallies(Tables(), t);
      var counts := CountRows(Db(tests, subtasks, reports), t);
      if counts.outstanding > 0 {
        return None;
      }
      var status := if counts.errored == counts.total && counts.total > 0 then TaskStatus.Failed
                    else TaskStatus.Finished;
      if t in tests {
        tests := tests[t := tests[t].(status := status)];
      }
      return Some((counts.passed, counts.failed));
    }

    /** `more` is how many of the close and the publish succeed. */
    method Finish(job: ProbeJob, more: nat)
      modifies this`tests, this`published
      ensures var counts := CountRows(old(Tables()), job.test);
              && Tables() == (if more == 0 then old(Tables()) else ClosedBy(old(Tables()), job.test))
              && published == old(published) + (if more <= 1 then [] else TotalsBy(old(Tables()), job.test))
      ensures published == old(published) ||
              exists p, f ::
                Tally(Tables(), job.test, p, f) && published == old(published) + [TestFinished(job.test, p, f)]
    {
      if more == 0 {
        return;
      }
      var progress := FinishTestIfDone(job.test);
      if progress.Some? && more > 1 {
        Publish(TestFinished(job.test, progress.value.0, progress.value.1));
      }
    }

    /** `probe::handle` when nothing else runs. An error ends it at once: `effects` is how many of its
        statements and publishes succeed, six or more if no error occurs. */
    method Handle(configured: set<string>, job: ProbeJob, response: ProbeResponse, caps: Option<Capabilities>,
                  effects: nat)
      modifies this`tests, this`subtasks, this`reports, this`published
      ensures Tables() == TablesUntil(old(Tables()), configured, job, response, caps, effects)
      ensures published == old(published) + HeardUntil(old(Tables()), configured, job, response, caps, effects)
    {
      if effects == 0 { return; }
      MarkTestRunning(job.test);
      if effects == 1 { return; }
      MarkSubtaskRunning(job.subtask);
      if effects == 2 { return; }
      if job.adapter !in configured {
        MarkSubtaskError(job.subtask, NotEnabled(job.adapter));
        if effects == 3 { return; }
        Publish(SubtaskUpdated(job.subtask, ExecStatus.Error, Disabled));
      } else {
        var result := ProbeResult(response, job, caps);
        SaveReport(job.subtask, result, response);
        if effects == 3 { return; }
        Publish(SubtaskUpdated(job.subtask, ExecStatus.Finished, result));
      }
      Finish(job, effects - 4);
    }

    method AckEntry(e: EntryId)
      modifies this`entries
      ensures entries == if e in old(entries) then old(entries)[e := old(entries)[e].(delivery := Acked)]
                         else old(entries)
    {
      if e in entries {
        entries := entries[e := entries[e].(delivery := Acked)];
      }
    }

    /** What `tick` spawns for one delivery: handle, then acknowledge, whether or not an error ended the
        handler. A payload that does not decode is acknowledged without any effect. */
    method RunDelivery(e: EntryId, configured: set<string>, response: ProbeResponse, caps: Option<Capabilities>,
                       effects: nat)
      requires e in entries
      modifies this
      ensures var job := old(entries)[e].job;
              && Tables() == TablesUntil(old(Tables()), configured, job, response, caps, effects)
              && published == old(published) + HeardUntil(old(Tables()), configured, job, response, caps, effects)
      ensures entries == old(entries)[e := old(entries)[e].(delivery := Acked)]
    {
      Handle(configured, entries[e].job, response, caps, effects);
      AckEntry(e);
    }
  }

  // ---------------------------------------------------------------- what an undisturbed handler leaves

  /** The tables when a handler whose marks are set has stored its outcome. */
  function StoredBy(db: Db, configured: set<string>, job: ProbeJob, response: ProbeResponse,
                    caps: Option<Capabilities>): Db
  {
    if job.adapter in configured then ReportSaved(db, job.subtask, ProbeResult(response, job, caps), response)
    else SubtaskErrored(db, job.subtask, NotEnabled(job.adapter))
  }

  /** The tables when the handler has marked test and subtask and stored its outcome. */
  function SavedBy(db: Db, configured: set<string>, job: ProbeJob, response: ProbeResponse,
                   caps: Option<Capabilities>): Db
  {
    StoredBy(SubtaskRunning(TestRunning(db, job.test), job.subtask), configured, job, response, caps)
  }

  /** The row says what the adapter answered: an unconfigured adapter is an error; otherwise the result is unsupported
      if the capabilities are known and list neither name in any capitalisation, and else the outcome of the
      handshake. */
  ghost predicate Stored(row: SubtaskRow, configured: set<string>, job: ProbeJob, response: ProbeResponse,
                         caps: Option<Capabilities>)
  {
    if job.adapter !in configured then
      && row.exec == ExecStatus.Error && row.result == ResultStatus.Failed && row.report == Missing
      && row.errorSummary == Some("adapter " + job.adapter + " is not enabled in this deployment")
    else
      && row.exec == ExecStatus.Finished
      && row.failedStage == Some(response.failedStage) && row.errorSummary == response.errorSummary
      && row.report == (if response.handshakeSuccess || response.hasMessages then Complete else Partial)
      && row.result == (if caps.Some? && (forall k :: k in caps.value.kemGroups || k in caps.value.sigAlgs ==>
                                            !EqIgnoreCase(k, job.group) && !EqIgnoreCase(k, job.sigAlg)) then
                          ResultStatus.Unsupported
                        else if response.handshakeSuccess then ResultStatus.Passed
                        else ResultStatus.Failed)
  }

  lemma SavedAsAnswered(db: Db, configured: set<string>, job: ProbeJob, response: ProbeResponse,
                        caps: Option<Capabilities>)
    requires job.subtask in db.subtasks
    ensures var saved := SavedBy(db, configured, job, response, caps);
            && job.subtask in saved.subtasks
            && Stored(saved.subtasks[job.subtask], configured, job, response, caps)
            && ClosedBy(saved, job.test).subtasks == saved.subtasks
  {
  }

  /** Once a handler has got as far as storing, its row says what the adapter answered, and publishing and closing
      leave it so. */
  lemma StoredAsAnswered(db: Db, configured: set<string>, job: ProbeJob, response: ProbeResponse,
                         caps: Option<Capabilities>, effects: nat)
    requires job.subtask in db.subtasks && effects >= 3
    ensures var after := TablesUntil(db, configured, job, response, caps, effects);
            job.subtask in after.subtasks && Stored(after.subtasks[job.subtask], configured, job, response, caps)
  {
    SavedAsAnswered(db, configured, job, response, caps);
  }

  /** Every total that is heard is the true one, then and when the handler ends. */
  lemma HeardTallies(db: Db, configured: set<string>, job: ProbeJob, response: ProbeResponse,
                     caps: Option<Capabilities>, effects: nat)
    ensures var heard := HeardUntil(db, configured, job, response, caps, effects);
            var after := TablesUntil(db, configured, job, response, caps, effects);
            forall i :: 0 <= i < |heard| && heard[i].TestFinished? ==>
              heard[i].test == job.test && Tally(after, job.test, heard[i].passed, heard[i].failed)
  {
    var saved := SavedBy(db, configured, job, response, caps);
    SelectTallies(saved, job.test);
    if effects >= 6 && CountRows(saved, job.test).outstanding == 0 {
      var c := CountRows(saved, job.test);
      TallyKept(saved, ClosedBy(saved, job.test), job.test, c.passed, c.failed);
    }
  }

  /** What it shows to subscribers: an unconfigured adapter is shown as disabled but stored as failed. */
  function ShownBy(configured: set<string>, job: ProbeJob, response: ProbeResponse, caps: Option<Capabilities>)
    : TestEvent
  {
    if job.adapter in configured then
      SubtaskUpdated(job.subtask, ExecStatus.Finished, ProbeResult(response, job, caps))
    else SubtaskUpdated(job.subtask, ExecStatus.Error, Disabled)
  }

  /** The result shown is the result stored exactly when the adapter is configured. */
  lemma ShownIsStored(db: Db, configured: set<string>, job: ProbeJob, response: ProbeResponse,
                      caps: Option<Capabilities>)
    requires JobOk(db, job)
    ensures var saved := SavedBy(db, configured, job, response, caps);
            && job.subtask in saved.subtasks
            && (ShownBy(configured, job, response, caps).result == saved.subtasks[job.subtask].result <==>
                  job.adapter in configured)
  {
  }

  function ClosedBy(db: Db, t: Uuid): Db
  {
    var counts := CountRows(db, t);
    if counts.outstanding > 0 then db else TestClosed(db, t, CloseStatus(counts))
  }

  function TotalsBy(db: Db, t: Uuid): seq<TestEvent>
  {
    var counts := CountRows(db, t);
    if counts.outstanding > 0 then [] else [TestFinished(t, counts.passed, counts.failed)]
  }

  lemma StoredEnds(db: Db, configured: set<string>, job: ProbeJob, response: ProbeResponse, caps: Option<Capabilities>)
    requires JobOk(db, job)
    ensures var stored := StoredBy(db, configured, job, response, caps);
            && stored.tests == db.tests && job.subtask in stored.subtasks
            && TerminalExec(stored.subtasks[job.subtask].exec)
            && (stored.subtasks[job.subtask].exec == ExecStatus.Error <==> job.adapter !in configured)
            && Outstanding(stored, job.test) == Outstanding(db, job.test) - {job.subtask}
            && RowsOf(stored, job.test) == RowsOf(db, job.test)
  {
    SaveEndsSubtask(db, job.subtask, ProbeResult(response, job, caps), response);
    ErrorEndsSubtask(db, job.subtask, NotEnabled(job.adapter));
  }

  /** The marks: the rows of the test stay, one more of them is outstanding, and the test stays open or closed. */
  lemma MarkedStatuses(db: Db, job: ProbeJob)
    requires JobOk(db, job)
    ensures var marked := SubtaskRunning(TestRunning(db, job.test), job.subtask);
            && JobOk(marked, job)
            && Outstanding(marked, job.test) == Outstanding(db, job.test) + {job.subtask}
            && RowsOf(marked, job.test) == RowsOf(db, job.test)
            && (TerminalTask(marked.tests[job.test].status) <==> TerminalTask(db.tests[job.test].status))
  {
    var started := TestRunning(db, job.test);
    OnlyPendingStarts(db, job.test);
    assert Outstanding(started, job.test) == Outstanding(db, job.test);
    MarkKeepsResult(started, job.subtask);
  }

  lemma SavedStatuses(db: Db, configured: set<string>, job: ProbeJob, response: ProbeResponse,
                      caps: Option<Capabilities>)
    requires JobOk(db, job)
    ensures var saved := SavedBy(db, configured, job, response, caps);
            && job.subtask in saved.subtasks && job.test in saved.tests
            && TerminalExec(saved.subtasks[job.subtask].exec)
            && (saved.subtasks[job.subtask].exec == ExecStatus.Error <==> job.adapter !in configured)
            && Outstanding(saved, job.test) == Outstanding(db, job.test) - {job.subtask}
            && RowsOf(saved, job.test) == RowsOf(db, job.test)
            && saved.tests[job.test].adapter == db.tests[job.test].adapter
            && (TerminalTask(saved.tests[job.test].status) <==> TerminalTask(db.tests[job.test].status))
  {
    MarkedStatuses(db, job);
    StoredEnds(SubtaskRunning(TestRunning(db, job.test), job.subtask), configured, job, response, caps);
  }

  /** An undisturbed handler brings its subtask to an end and closes the open test exactly when no other
      subtask of it is outstanding. */
  lemma LastHandlerCloses(db: Db, configured: set<string>, job: ProbeJob, response: ProbeResponse,
                          caps: Option<Capabilities>)
    requires JobOk(db, job) && !TerminalTask(db.tests[job.test].status)
    ensures var after := ClosedBy(SavedBy(db, configured, job, response, caps), job.test);
            && job.subtask in after.subtasks && TerminalExec(after.subtasks[job.subtask].exec)
            && job.test in after.tests
            && (TerminalTask(after.tests[job.test].status) <==> Outstanding(db, job.test) <= {job.subtask})
  {
    SavedStatuses(db, configured, job, response, caps);
  }

  /** The tables after the first `effects` statements and publishes of a handler. */
  function TablesUntil(db: Db, configured: set<string>, job: ProbeJob, response: ProbeResponse,
                       caps: Option<Capabilities>, effects: nat): Db
  {
    if effects == 0 then db
    else if effects == 1 then TestRunning(db, job.test)
    else if effects == 2 then SubtaskRunning(TestRunning(db, job.test), job.subtask)
    else
      var saved := SavedBy(db, configured, job, response, caps);
      if effects <= 4 then saved else ClosedBy(saved, job.test)
  }

  /** What subscribers have heard by then. */
  function HeardUntil(db: Db, configured: set<string>, job: ProbeJob, response: ProbeResponse,
                      caps: Option<Capabilities>, effects: nat): seq<TestEvent>
  {
    (if effects < 4 then [] else [ShownBy(configured, job, response, caps)]) +
    (if effects < 6 then [] else TotalsBy(SavedBy(db, configured, job, response, caps), job.test))
  }

  /** The protocol's handler `h` alone, ended by an error after `n` steps if it has not ended by then. */
  ghost function StopAfter(cfg: Config, s: State, h: HandlerId, response: ProbeResponse, caps: Option<Capabilities>,
                           n: nat): (r: State)
    requires Works(s, h)
    decreases n
  {
    if s.handlers[h].pc.Done? then s
    else if n == 0 then Moved(s, h, Done)
    else
      AdvancedShape(cfg, s, h, response, caps);
      StopAfter(cfg, Advanced(cfg, s, h, response, caps), h, response, caps, n - 1)
  }

  /** That is a run of the protocol, so everything proved of all runs holds of it. */
  lemma {:induction false} StopAfterIsRun(cfg: Config, s: State, h: HandlerId, response: ProbeResponse,
                                          caps: Option<Capabilities>, n: nat) returns (run: seq<Action>)
    requires Works(s, h)
    ensures Reaches(cfg, s, run, StopAfter(cfg, s, h, response, caps, n))
    decreases n
  {
    if s.handlers[h].pc.Done? {
      run := [];
    } else if n == 0 {
      Cons(cfg, s, Fail(h), [], Moved(s, h, Done));
      run := [Fail(h)] + [];
    } else {
      AdvancedShape(cfg, s, h, response, caps);
      var next := Advanced(cfg, s, h, response, caps);
      var rest := StopAfterIsRun(cfg, next, h, response, caps, n - 1);
      Cons(cfg, s, Advance(h, response, caps), rest, StopAfter(cfg, s, h, response, caps, n));
      run := [Advance(h, response, caps)] + rest;
    }
  }

  /** It ends with that handler done and touches no other handler, no entry and no queued job. */
  lemma {:induction false} StopAfterFrame(cfg: Config, s: State, h: HandlerId, response: ProbeResponse,
                                          caps: Option<Capabilities>, n: nat)
    requires Works(s, h)
    ensures var r := StopAfter(cfg, s, h, response, caps, n);
            && r.backlog == s.backlog && r.entries == s.entries
            && r.handlers == s.handlers[h := s.handlers[h].(pc := Done)]
    decreases n
  {
    if s.handlers[h].pc.Done? {
      assert s.handlers == s.handlers[h := s.handlers[h].(pc := Done)];
    } else if n > 0 {
      AdvancedShape(cfg, s, h, response, caps);
      StopAfterFrame(cfg, Advanced(cfg, s, h, response, caps), h, response, caps, n - 1);
    }
  }

  /** How many steps of the protocol's handler that many effects take: the probe and the SELECT have none. */
  function StepsFor(configured: bool, effects: nat): nat
  {
    var probe := if configured then 1 else 0;
    if effects <= 2 then effects
    else if effects <= 4 then effects + probe
    else if effects == 5 then 6 + probe
    else 7 + probe
  }

  /** The tail of every handler: publish the subtask, count, close, publish the totals. */
  lemma TailStops(cfg: Config, s: State, h: HandlerId, exec: ExecStatus, shown: ResultStatus,
                  response: ProbeResponse, caps: Option<Capabilities>, n: nat)
    requires Works(s, h) && s.handlers[h].pc == Saved(exec, shown) && (n <= 1 || 3 <= n <= 4)
    ensures var r, job := StopAfter(cfg, s, h, response, caps, n), JobOf(s, h);
            && r.db == (if n <= 1 then s.db else ClosedBy(s.db, job.test))
            && r.events == s.events + (if n == 0 then [] else [SubtaskUpdated(job.subtask, exec, shown)]) +
                           (if n < 4 then [] else TotalsBy(s.db, job.test))
  {
    if n > 0 {
      var a := Advanced(cfg, s, h, response, caps);
      assert StopAfter(cfg, s, h, response, caps, n) == StopAfter(cfg, a, h, response, caps, n - 1);
      if n > 1 {
        PublishedStops(cfg, a, h, response, caps, n - 1);
      }
    }
  }

  lemma PublishedStops(cfg: Config, s: State, h: HandlerId, response: ProbeResponse, caps: Option<Capabilities>, n: nat)
    requires Works(s, h) && s.handlers[h].pc.Published? && 2 <= n <= 3
    ensures var r, job := StopAfter(cfg, s, h, response, caps, n), JobOf(s, h);
            && r.db == ClosedBy(s.db, job.test)
            && r.events == s.events + if n < 3 then [] else TotalsBy(s.db, job.test)
  {
    var a := Advanced(cfg, s, h, response, caps);
    assert StopAfter(cfg, s, h, response, caps, n) == StopAfter(cfg, a, h, response, caps, n - 1);
    if CountRows(s.db, JobOf(s, h).test).outstanding == 0 {
      var b := Advanced(cfg, a, h, response, caps);
      assert StopAfter(cfg, a, h, response, caps, n - 1) == StopAfter(cfg, b, h, response, caps, n - 2);
      assert b.events == s.events;
      if n == 3 {
        var c := Advanced(cfg, b, h, response, caps);
        assert StopAfter(cfg, b, h, response, caps, 1) == StopAfter(cfg, c, h, response, caps, 0);
      }
    }
  }

  /** The two marks. */
  lemma MarkedState(cfg: Config, s: State, h: HandlerId, response: ProbeResponse, caps: Option<Capabilities>,
                    n: nat) returns (b: State)
    requires Works(s, h) && s.handlers[h].pc.Begin? && n >= 2
    ensures Works(b, h) && JobOf(b, h) == JobOf(s, h) && b.events == s.events
    ensures b.handlers[h] == s.handlers[h].(pc := SubtaskMarked)
    ensures b.db == SubtaskRunning(TestRunning(s.db, JobOf(s, h).test), JobOf(s, h).subtask)
    ensures StopAfter(cfg, s, h, response, caps, n) == StopAfter(cfg, b, h, response, caps, n - 2)
  {
    var a := Advanced(cfg, s, h, response, caps);
    b := Advanced(cfg, a, h, response, caps);
    assert StopAfter(cfg, s, h, response, caps, n) == StopAfter(cfg, a, h, response, caps, n - 1);
  }

  lemma SavedState(cfg: Config, b: State, h: HandlerId, response: ProbeResponse, caps: Option<Capabilities>,
                   n: nat) returns (d: State)
    requires Works(b, h) && b.handlers[h].pc.SubtaskMarked? && b.handlers[h].worker in cfg.adapters
    requires n >= if JobOf(b, h).adapter in cfg.adapters[b.handlers[h].worker] then 2 else 1
    ensures Works(d, h) && JobOf(d, h) == JobOf(b, h) && d.events == b.events
    ensures var job := JobOf(b, h);
            if job.adapter in cfg.adapters[b.handlers[h].worker] then
              var result := ProbeResult(response, job, caps);
              && d.handlers[h].pc == Saved(ExecStatus.Finished, result)
              && d.db == ReportSaved(b.db, job.subtask, result, response)
              && StopAfter(cfg, b, h, response, caps, n) == StopAfter(cfg, d, h, response, caps, n - 2)
            else
              && d.handlers[h].pc == Saved(ExecStatus.Error, Disabled)
              && d.db == SubtaskErrored(b.db, job.subtask, NotEnabled(job.adapter))
              && StopAfter(cfg, b, h, response, caps, n) == StopAfter(cfg, d, h, response, caps, n - 1)
  {
    var c := Advanced(cfg, b, h, response, caps);
    assert StopAfter(cfg, b, h, response, caps, n) == StopAfter(cfg, c, h, response, caps, n - 1);
    d := c;
    if JobOf(b, h).adapter in cfg.adapters[b.handlers[h].worker] {
      d := Advanced(cfg, c, h, response, caps);
    }
  }

  /** What is stored and shown from the marks on. */
  ghost predicate StopsWith(r: State, b: State, configured: set<string>, job: ProbeJob, response: ProbeResponse,
                            caps: Option<Capabilities>, m: nat)
  {
    var saved := StoredBy(b.db, configured, job, response, caps);
    && r.db == (if m <= 1 then saved else ClosedBy(saved, job.test))
    && r.events == b.events + (if m == 0 then [] else [ShownBy(configured, job, response, caps)]) +
                   (if m < 4 then [] else TotalsBy(saved, job.test))
  }

  lemma ConfiguredStops(cfg: Config, b: State, h: HandlerId, response: ProbeResponse, caps: Option<Capabilities>,
                        m: nat)
    requires Works(b, h) && b.handlers[h].pc.SubtaskMarked? && b.handlers[h].worker in cfg.adapters
    requires (m <= 1 || 3 <= m <= 4) && JobOf(b, h).adapter in cfg.adapters[b.handlers[h].worker]
    ensures StopsWith(StopAfter(cfg, b, h, response, caps, m + 2), b, cfg.adapters[b.handlers[h].worker],
                      JobOf(b, h), response, caps, m)
  {
    var d := SavedState(cfg, b, h, response, caps, m + 2);
    assert StopAfter(cfg, b, h, response, caps, m + 2) == StopAfter(cfg, d, h, response, caps, m);
    TailStops(cfg, d, h, ExecStatus.Finished, ProbeResult(response, JobOf(b, h), caps), response, caps, m);
  }

  lemma UnconfiguredStops(cfg: Config, b: State, h: HandlerId, response: ProbeResponse, caps: Option<Capabilities>,
                          m: nat)
    requires Works(b, h) && b.handlers[h].pc.SubtaskMarked? && b.handlers[h].worker in cfg.adapters
    requires (m <= 1 || 3 <= m <= 4) && JobOf(b, h).adapter !in cfg.adapters[b.handlers[h].worker]
    ensures StopsWith(StopAfter(cfg, b, h, response, caps, m + 1), b, cfg.adapters[b.handlers[h].worker],
                      JobOf(b, h), response, caps, m)
  {
    var d := SavedState(cfg, b, h, response, caps, m + 1);
    assert StopAfter(cfg, b, h, response, caps, m + 1) == StopAfter(cfg, d, h, response, caps, m);
    TailStops(cfg, d, h, ExecStatus.Error, Disabled, response, caps, m);
  }

  lemma StopsAsHandle(r: State, b: State, s: State, configured: set<string>, job: ProbeJob, response: ProbeResponse,
                      caps: Option<Capabilities>, effects: nat, m: nat)
    requires effects > 2 && m == if effects <= 4 then effects - 3 else if effects == 5 then 3 else 4
    requires b.db == SubtaskRunning(TestRunning(s.db, job.test), job.subtask) && b.events == s.events
    requires StopsWith(r, b, configured, job, response, caps, m)
    ensures AsHandle(r, s, configured, job, response, caps, effects)
  {
    var saved := StoredBy(b.db, configured, job, response, caps);
    assert saved == SavedBy(s.db, configured, job, response, caps);
  }

  lemma FirstEffects(cfg: Config, s: State, h: HandlerId, response: ProbeResponse, caps: Option<Capabilities>,
                     effects: nat)
    requires Works(s, h) && s.handlers[h].pc.Begin? && effects <= 2
    ensures var r := StopAfter(cfg, s, h, response, caps, effects);
            && r.events == s.events
            && r.db == (if effects == 0 then s.db
                        else if effects == 1 then TestRunning(s.db, JobOf(s, h).test)
                        else SubtaskRunning(TestRunning(s.db, JobOf(s, h).test), JobOf(s, h).subtask))
  {
    if effects == 1 {
      var a := Advanced(cfg, s, h, response, caps);
      assert StopAfter(cfg, s, h, response, caps, 1) == StopAfter(cfg, a, h, response, caps, 0);
    } else if effects == 2 {
      var b := MarkedState(cfg, s, h, response, caps, 2);
    }
  }

  lemma StopsFromMarks(cfg: Config, b: State, h: HandlerId, response: ProbeResponse, caps: Option<Capabilities>,
                       m: nat, n: nat)
    requires Works(b, h) && b.handlers[h].pc.SubtaskMarked? && b.handlers[h].worker in cfg.adapters
    requires m <= 1 || 3 <= m <= 4
    requires n == m + if JobOf(b, h).adapter in cfg.adapters[b.handlers[h].worker] then 2 else 1
    ensures StopsWith(StopAfter(cfg, b, h, response, caps, n), b, cfg.adapters[b.handlers[h].worker],
                      JobOf(b, h), response, caps, m)
  {
    if JobOf(b, h).adapter in cfg.adapters[b.handlers[h].worker] {
      ConfiguredStops(cfg, b, h, response, caps, m);
    } else {
      UnconfiguredStops(cfg, b, h, response, caps, m);
    }
  }

  ghost predicate AsHandle(r: State, s: State, configured: set<string>, job: ProbeJob, response: ProbeResponse,
                           caps: Option<Capabilities>, effects: nat)
  {
    && r.db == TablesUntil(s.db, configured, job, response, caps, effects)
    && r.events == s.events + HeardUntil(s.db, configured, job, response, caps, effects)
  }

  lemma LaterEffects(cfg: Config, s: State, h: HandlerId, response: ProbeResponse, caps: Option<Capabilities>,
                     effects: nat)
    requires Works(s, h) && s.handlers[h].pc.Begin? && s.handlers[h].worker in cfg.adapters && effects > 2
    ensures var configured, job := cfg.adapters[s.handlers[h].worker], JobOf(s, h);
            AsHandle(StopAfter(cfg, s, h, response, caps, StepsFor(job.adapter in configured, effects)), s, configured,
                     job, response, caps, effects)
  {
    var configured, job := cfg.adapters[s.handlers[h].worker], JobOf(s, h);
    var n := StepsFor(job.adapter in configured, effects);
    var m := if effects <= 4 then effects - 3 else if effects == 5 then 3 else 4;
    var b := MarkedState(cfg, s, h, response, caps, n);
    StopsFromMarks(cfg, b, h, response, caps, m, n - 2);
    StopsAsHandle(StopAfter(cfg, b, h, response, caps, n - 2), b, s, configured, job, response, caps, effects, m);
  }

  /** `Handle` does to the tables and the channel what the protocol's handler does when it runs alone, wherever an
      error ends it. */
  lemma HandlerIsHandle(cfg: Config, s: State, h: HandlerId, response: ProbeResponse, caps: Option<Capabilities>,
                        effects: nat)
    requires Works(s, h) && s.handlers[h].pc.Begin? && s.handlers[h].worker in cfg.adapters
    ensures var configured, job := cfg.adapters[s.handlers[h].worker], JobOf(s, h);
            AsHandle(StopAfter(cfg, s, h, response, caps, StepsFor(job.adapter in configured, effects)), s, configured,
                     job, response, caps, effects)
  {
    if effects <= 2 {
      FirstEffects(cfg, s, h, response, caps, effects);
    } else {
      LaterEffects(cfg, s, h, response, caps, effects);
    }
  }
}
