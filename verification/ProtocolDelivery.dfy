/** How often a subtask is worked on. Every subtask has one job in every run; until that job is first delivered the
    subtask is untouched; and as long as it is delivered once only, its row has a result exactly when its handler has
    stored one, which says what a handler error leaves behind. */
module ProtocolDelivery {
  import opened Wrappers
  import opened Domain
  import opened Matrix
  import opened Store
  import opened Protocol
  import opened ProtocolSafety
  import opened ProtocolProgress

  // ---------------------------------------------------------------- one job for every subtask

  predicate JobFor(entries: map<EntryId, Entry>, e: EntryId, id: Uuid)
  {
    e in entries && entries[e].job.subtask == id
  }

  ghost predicate NobodyOn(s: State, id: Uuid)
  {
    forall h :: Works(s, h) ==> JobOf(s, h).subtask != id
  }

  /** The job of the subtask has never been delivered. */
  ghost predicate Unstarted(s: State, id: Uuid)
  {
    id in s.backlog || exists e :: JobFor(s.entries, e, id) && s.entries[e].delivery == Undelivered
  }

  ghost predicate Untouched(s: State, id: Uuid)
  {
    && NobodyOn(s, id)
    && id in s.db.subtasks
    && s.db.subtasks[id].exec == ExecStatus.Queued
    && s.db.subtasks[id].result == ResultStatus.Pending
  }

  ghost predicate OneJob(s: State, id: Uuid)
  {
    && (forall e, f :: JobFor(s.entries, e, id) && JobFor(s.entries, f, id) ==> e == f)
    && (id in s.backlog ==> forall e :: !JobFor(s.entries, e, id))
    && (Unstarted(s, id) ==> Untouched(s, id))
  }

  /** Nothing but the handlers of the subtask moves towards or away from it. */
  ghost predicate SameJobs(s: State, r: State, id: Uuid)
  {
    && (id in r.backlog ==> id in s.backlog)
    && r.entries.Keys == s.entries.Keys
    && forall e :: e in s.entries ==>
         && r.entries[e].job == s.entries[e].job
         && (r.entries[e].delivery == Undelivered ==> s.entries[e].delivery == Undelivered)
  }

  lemma SameJobsKeepOne(s: State, r: State, id: Uuid)
    requires OneJob(s, id) && SameJobs(s, r, id)
    requires Unstarted(r, id) && Untouched(s, id) ==> Untouched(r, id)
    ensures OneJob(r, id)
  {
    forall e
      ensures JobFor(r.entries, e, id) <==> JobFor(s.entries, e, id)
    {
    }
    if Unstarted(r, id) {
      assert Unstarted(s, id);
    }
  }

  lemma FewerHandlersOn(s: State, r: State, id: Uuid)
    requires NobodyOn(s, id)
    requires forall h :: h in r.handlers ==> h in s.handlers && r.handlers[h].entry == s.handlers[h].entry
    requires forall e :: e in r.entries ==> e in s.entries && r.entries[e].job == s.entries[e].job
    ensures NobodyOn(r, id)
  {
    forall h | Works(r, h)
      ensures JobOf(r, h).subtask != id
    {
      assert Works(s, h);
    }
  }

  lemma UntouchedByOthers(cfg: Config, s: State, h: HandlerId, response: ProbeResponse, caps: Option<Capabilities>,
                          id: Uuid)
    requires Works(s, h) && JobOk(s.db, JobOf(s, h)) && Untouched(s, id)
    ensures Untouched(Advanced(cfg, s, h, response, caps), id)
  {
    NextDbRows(cfg, s.db, JobOf(s, h), s.handlers[h]);
    FewerHandlersOn(s, Advanced(cfg, s, h, response, caps), id);
  }

  lemma AdvanceKeepsOne(cfg: Config, s: State, h: HandlerId, response: ProbeResponse, caps: Option<Capabilities>,
                        id: Uuid)
    requires Works(s, h) && JobOk(s.db, JobOf(s, h)) && OneJob(s, id)
    ensures OneJob(Advanced(cfg, s, h, response, caps), id)
  {
    var r := Advanced(cfg, s, h, response, caps);
    if Untouched(s, id) {
      UntouchedByOthers(cfg, s, h, response, caps, id);
    }
    assert r.backlog == s.backlog && r.entries == s.entries;
    SameJobsKeepOne(s, r, id);
  }

  /** A handler that leaves or gives up, with or without an acknowledgement. */
  lemma LeaveKeepsOne(s: State, r: State, id: Uuid)
    requires OneJob(s, id) && SameJobs(s, r, id) && r.db == s.db
    requires forall h :: h in r.handlers ==> h in s.handlers && r.handlers[h].entry == s.handlers[h].entry
    ensures OneJob(r, id)
  {
    if Untouched(s, id) {
      FewerHandlersOn(s, r, id);
    }
    SameJobsKeepOne(s, r, id);
  }

  /** Once an entry for the subtask is picked up the job is no longer unstarted. */
  lemma PickUpKeepsOne(s: State, r: State, e: EntryId, h: HandlerId, w: WorkerId, id: Uuid)
    requires OneJob(s, id) && e in s.entries && r.backlog == s.backlog && r.db == s.db
    requires r.entries == s.entries[e := s.entries[e].(delivery := Delivered)]
    requires r.handlers == s.handlers[h := Handler(e, w, Begin)]
    ensures OneJob(r, id)
  {
    if Unstarted(r, id) {
      assert !JobFor(s.entries, e, id) by {
        if id !in s.backlog {
          var f :| JobFor(r.entries, f, id) && r.entries[f].delivery == Undelivered;
          assert JobFor(s.entries, f, id) && f != e;
        }
      }
      assert Unstarted(s, id);
      forall k | Works(r, k)
        ensures JobOf(r, k).subtask != id
      {
        if k != h { assert Works(s, k); }
      }
    }
    SameJobsKeepOne(s, r, id);
  }

  lemma EnqueueKeepsOne(s: State, r: State, k: Uuid, e: EntryId, id: Uuid)
    requires OneJob(s, id) && k in s.backlog && s.backlog[k].subtask == k && e !in s.entries
    requires forall h :: h in s.handlers ==> s.handlers[h].entry in s.entries
    requires r == s.(backlog := s.backlog - {k}, entries := s.entries[e := Entry(s.backlog[k], Undelivered)])
    ensures OneJob(r, id)
  {
    forall f
      ensures JobFor(r.entries, f, id) <==> JobFor(s.entries, f, id) || (f == e && k == id)
    {
    }
    if Unstarted(r, id) {
      assert Unstarted(s, id) by {
        if id !in r.backlog {
          var f :| JobFor(r.entries, f, id) && r.entries[f].delivery == Undelivered;
          assert f == e || JobFor(s.entries, f, id);
        }
      }
      forall h | Works(r, h)
        ensures JobOf(r, h).subtask != id
      {
        assert Works(s, h);
      }
    }
  }

  lemma CommittedRow(cfg: Config, s: State, t: Uuid, body: NewTest, ids: seq<Uuid>, id: Uuid)
    requires Enabled(cfg, s, Commit(t, body, ids)) && id in ids
    ensures var db := Apply(cfg, s, Commit(t, body, ids)).db;
            id in db.subtasks && db.subtasks[id].exec == Queued && db.subtasks[id].result == ResultStatus.Pending
  {
    InsertedRow(s.db, t, body.adapter, Accept(body, cfg.limits).value, ids, id);
  }

  lemma CommitKeepsOne(cfg: Config, s: State, t: Uuid, body: NewTest, ids: seq<Uuid>, id: Uuid)
    requires Inv(cfg, s) && OneJob(s, id) && Enabled(cfg, s, Commit(t, body, ids))
    ensures OneJob(Apply(cfg, s, Commit(t, body, ids)), id)
  {
    var r := Apply(cfg, s, Commit(t, body, ids));
    CommitShape(cfg, s, t, body, ids);
    CommitBacklog(cfg, s, t, body, ids);
    if id in ids {
      CommittedRow(cfg, s, t, body, ids, id);
      forall e | e in s.entries
        ensures s.entries[e].job.subtask != id
      {
        assert JobOk(s.db, s.entries[e].job);
      }
    } else {
      if Untouched(s, id) {
        FewerHandlersOn(s, r, id);
      }
      SameJobsKeepOne(s, r, id);
    }
  }

  lemma QueueStepKeepsOne(cfg: Config, s: State, a: Action, id: Uuid)
    requires Inv(cfg, s) && OneJob(s, id) && Enabled(cfg, s, a)
    requires a.Enqueue? || a.Deliver? || a.Reclaim?
    ensures OneJob(Apply(cfg, s, a), id)
  {
    if a.Enqueue? {
      EnqueueKeepsOne(s, Apply(cfg, s, a), a.subtask, a.entry, id);
    } else {
      assert a.Reclaim? ==> s.entries == s.entries[a.entry := s.entries[a.entry].(delivery := Delivered)];
      PickUpKeepsOne(s, Apply(cfg, s, a), a.entry, a.handler, a.worker, id);
    }
  }

  lemma LeaveStepKeepsOne(cfg: Config, s: State, a: Action, id: Uuid)
    requires OneJob(s, id) && Enabled(cfg, s, a)
    requires a.Fail? || a.Crash? || a.Ack? || a.LoseAck? || a.DropJob?
    ensures OneJob(Apply(cfg, s, a), id)
  {
    LeaveKeepsOne(s, Apply(cfg, s, a), id);
  }

  lemma StepKeepsOne(cfg: Config, s: State, a: Action, id: Uuid)
    requires Inv(cfg, s) && OneJob(s, id) && Enabled(cfg, s, a)
    ensures OneJob(Apply(cfg, s, a), id)
  {
    if a.Commit? {
      CommitKeepsOne(cfg, s, a.test, a.body, a.ids, id);
    } else if a.Advance? {
      assert HandlerOk(cfg, s.db, JobOf(s, a.handler), s.handlers[a.handler]);
      AdvanceKeepsOne(cfg, s, a.handler, a.response, a.caps, id);
    } else if a.Enqueue? || a.Deliver? || a.Reclaim? {
      QueueStepKeepsOne(cfg, s, a, id);
    } else {
      LeaveStepKeepsOne(cfg, s, a, id);
    }
  }

  lemma {:induction false} RunKeepsOne(cfg: Config, s: State, run: seq<Action>, r: State, id: Uuid)
    requires Inv(cfg, s) && OneJob(s, id) && Reaches(cfg, s, run, r)
    ensures Inv(cfg, r) && OneJob(r, id)
    decreases |run|
  {
    if run != [] {
      StepKeepsOne(cfg, s, run[0], id);
      StepKeepsInv(cfg, s, run[0]);
      RunKeepsOne(cfg, Apply(cfg, s, run[0]), run[1..], r, id);
    }
  }

  lemma NothingYet(id: Uuid)
    ensures OneJob(EMPTY, id)
  {
  }

  lemma EmptyInv(cfg: Config)
    ensures Inv(cfg, EMPTY)
  {
  }

  /** In every run a subtask has at most one job, in the backlog or in the stream, and is untouched until that job is
      first delivered. */
  lemma OneJobEach(cfg: Config, run: seq<Action>, s: State, id: Uuid)
    requires Reaches(cfg, EMPTY, run, s)
    ensures OneJob(s, id)
  {
    EmptyInv(cfg);
    NothingYet(id);
    RunKeepsOne(cfg, EMPTY, run, s, id);
  }

  // ---------------------------------------------------------------- a single delivery

  /** The job of the subtask is not handed out a second time. */
  ghost predicate Single(s: State, a: Action, id: Uuid)
  {
    a.Reclaim? ==> !JobFor(s.entries, a.entry, id)
  }

  ghost predicate SingleRun(cfg: Config, s: State, run: seq<Action>, id: Uuid)
    decreases |run|
  {
    run != [] ==>
      Enabled(cfg, s, run[0]) && Single(s, run[0], id) && SingleRun(cfg, Apply(cfg, s, run[0]), run[1..], id)
  }

  ghost predicate On(s: State, h: HandlerId, id: Uuid)
  {
    Works(s, h) && JobOf(s, h).subtask == id
  }

  /** At most one handler works on the subtask, and before it has stored an outcome there is no result. */
  ghost predicate Once(s: State, id: Uuid)
  {
    && (forall h, k :: On(s, h, id) && On(s, k, id) ==> h == k)
    && (forall h :: On(s, h, id) && BeforeSave(s.handlers[h].pc) ==>
          id in s.db.subtasks && s.db.subtasks[id].result == ResultStatus.Pending)
  }

  lemma AdvanceKeepsOnce(cfg: Config, s: State, h: HandlerId, response: ProbeResponse, caps: Option<Capabilities>,
                         id: Uuid)
    requires Works(s, h) && JobOk(s.db, JobOf(s, h)) && Once(s, id)
    ensures Once(Advanced(cfg, s, h, response, caps), id)
  {
    var r := Advanced(cfg, s, h, response, caps);
    var job, handler := JobOf(s, h), s.handlers[h];
    NextDbRows(cfg, s.db, job, handler);
    forall k
      ensures On(r, k, id) <==> On(s, k, id)
    {
    }
    assert id == job.subtask ==> On(s, h, id);
    forall k | On(r, k, id) && BeforeSave(r.handlers[k].pc)
      ensures id in r.db.subtasks && r.db.subtasks[id].result == ResultStatus.Pending
    {
      assert On(s, k, id);
      if k == h {
        NotYetSaved(cfg, s.db, job, handler, response, caps);
      }
    }
  }

  /** Up to the statement that stores the outcome, a handler leaves the result of its subtask alone. */
  lemma NotYetSaved(cfg: Config, db: Db, job: ProbeJob, h: Handler, response: ProbeResponse, caps: Option<Capabilities>)
    requires JobOk(db, job) && BeforeSave(NextPc(cfg, db, job, h, response, caps))
    ensures BeforeSave(h.pc)
    ensures NextDb(cfg, db, job, h).subtasks[job.subtask].result == db.subtasks[job.subtask].result
  {
  }

  lemma FewerKeepOnce(s: State, r: State, id: Uuid)
    requires Once(s, id)
    requires forall k :: On(r, k, id) ==>
               On(s, k, id) && (BeforeSave(r.handlers[k].pc) ==> BeforeSave(s.handlers[k].pc))
    requires id in s.db.subtasks ==> id in r.db.subtasks && r.db.subtasks[id].result == s.db.subtasks[id].result
    ensures Once(r, id)
  {
  }

  lemma DeliverKeepsOnce(s: State, r: State, e: EntryId, h: HandlerId, w: WorkerId, id: Uuid)
    requires OneJob(s, id) && Once(s, id) && e in s.entries && s.entries[e].delivery == Undelivered
    requires r.db == s.db && r.entries == s.entries[e := s.entries[e].(delivery := Delivered)]
    requires r.handlers == s.handlers[h := Handler(e, w, Begin)] && h !in s.handlers
    ensures Once(r, id)
  {
    if JobFor(s.entries, e, id) {
      assert Unstarted(s, id);
      forall k | On(r, k, id)
        ensures k == h
      {
        if k != h { assert Works(s, k); }
      }
    } else {
      forall k | On(r, k, id)
        ensures On(s, k, id) && r.handlers[k] == s.handlers[k]
      {
        assert k != h;
      }
    }
  }

  lemma ReclaimKeepsOnce(s: State, r: State, e: EntryId, h: HandlerId, w: WorkerId, id: Uuid)
    requires Once(s, id) && e in s.entries && !JobFor(s.entries, e, id)
    requires r == s.(handlers := s.handlers[h := Handler(e, w, Begin)])
    ensures Once(r, id)
  {
    forall k | On(r, k, id)
      ensures On(s, k, id) && r.handlers[k] == s.handlers[k]
    {
      assert k != h;
    }
  }

  lemma CommitKeepsOnce(cfg: Config, s: State, t: Uuid, body: NewTest, ids: seq<Uuid>, id: Uuid)
    requires Once(s, id) && Enabled(cfg, s, Commit(t, body, ids))
    ensures Once(Apply(cfg, s, Commit(t, body, ids)), id)
  {
    CommitShape(cfg, s, t, body, ids);
    FewerKeepOnce(s, Apply(cfg, s, Commit(t, body, ids)), id);
  }

  lemma EnqueueKeepsOnce(s: State, r: State, k: Uuid, e: EntryId, id: Uuid)
    requires Once(s, id) && k in s.backlog && e !in s.entries
    requires forall h :: h in s.handlers ==> s.handlers[h].entry in s.entries
    requires r == s.(backlog := s.backlog - {k}, entries := s.entries[e := Entry(s.backlog[k], Undelivered)])
    ensures Once(r, id)
  {
    FewerKeepOnce(s, r, id);
  }

  lemma GoneKeepsOnce(s: State, r: State, id: Uuid)
    requires Once(s, id) && r.db == s.db && r.entries.Keys == s.entries.Keys
    requires forall e :: e in s.entries ==> r.entries[e].job == s.entries[e].job
    requires forall k :: k in r.handlers ==>
               k in s.handlers && r.handlers[k].entry == s.handlers[k].entry &&
               (BeforeSave(r.handlers[k].pc) ==> BeforeSave(s.handlers[k].pc))
    ensures Once(r, id)
  {
    FewerKeepOnce(s, r, id);
  }

  lemma PickUpKeepsOnce(cfg: Config, s: State, a: Action, id: Uuid)
    requires OneJob(s, id) && Once(s, id) && Enabled(cfg, s, a) && Single(s, a, id)
    requires a.Deliver? || a.Reclaim?
    ensures Once(Apply(cfg, s, a), id)
  {
    if a.Deliver? {
      DeliverKeepsOnce(s, Apply(cfg, s, a), a.entry, a.handler, a.worker, id);
    } else {
      ReclaimKeepsOnce(s, Apply(cfg, s, a), a.entry, a.handler, a.worker, id);
    }
  }

  lemma LeaveStepKeepsOnce(cfg: Config, s: State, a: Action, id: Uuid)
    requires Once(s, id) && Enabled(cfg, s, a)
    requires a.Fail? || a.Crash? || a.Ack? || a.LoseAck? || a.DropJob?
    ensures Once(Apply(cfg, s, a), id)
  {
    GoneKeepsOnce(s, Apply(cfg, s, a), id);
  }

  lemma StepKeepsOnce(cfg: Config, s: State, a: Action, id: Uuid)
    requires Inv(cfg, s) && OneJob(s, id) && Once(s, id) && Enabled(cfg, s, a) && Single(s, a, id)
    ensures Once(Apply(cfg, s, a), id)
  {
    if a.Commit? {
      CommitKeepsOnce(cfg, s, a.test, a.body, a.ids, id);
    } else if a.Advance? {
      assert HandlerOk(cfg, s.db, JobOf(s, a.handler), s.handlers[a.handler]);
      AdvanceKeepsOnce(cfg, s, a.handler, a.response, a.caps, id);
    } else if a.Enqueue? {
      EnqueueKeepsOnce(s, Apply(cfg, s, a), a.subtask, a.entry, id);
    } else if a.Deliver? || a.Reclaim? {
      PickUpKeepsOnce(cfg, s, a, id);
    } else {
      LeaveStepKeepsOnce(cfg, s, a, id);
    }
  }

  lemma {:induction false} RunKeepsOnce(cfg: Config, s: State, run: seq<Action>, r: State, id: Uuid)
    requires Inv(cfg, s) && OneJob(s, id) && Once(s, id) && Reaches(cfg, s, run, r) && SingleRun(cfg, s, run, id)
    ensures Inv(cfg, r) && Once(r, id)
    decreases |run|
  {
    if run != [] {
      StepKeepsOnce(cfg, s, run[0], id);
      StepKeepsOne(cfg, s, run[0], id);
      StepKeepsInv(cfg, s, run[0]);
      RunKeepsOnce(cfg, Apply(cfg, s, run[0]), run[1..], r, id);
    }
  }

  lemma SavedHasResult(cfg: Config, s: State, h: HandlerId)
    requires Inv(cfg, s) && h in s.handlers && !BeforeSave(s.handlers[h].pc) && !s.handlers[h].pc.Done?
    ensures Works(s, h) && JobOf(s, h).subtask in s.db.subtasks
    ensures s.db.subtasks[JobOf(s, h).subtask].result != ResultStatus.Pending
  {
    assert HandlerOk(cfg, s.db, JobOf(s, h), s.handlers[h]);
    assert JobOf(s, h).subtask in RowsOf(s.db, JobOf(s, h).test);
  }

  lemma FailLeaves(cfg: Config, s: State, h: HandlerId, id: Uuid)
    requires Inv(cfg, s) && Once(s, id) && On(s, h, id) && !s.handlers[h].pc.Done?
    ensures id in s.db.subtasks
    ensures s.db.subtasks[id].result != ResultStatus.Pending <==> !BeforeSave(s.handlers[h].pc)
  {
    if !BeforeSave(s.handlers[h].pc) {
      SavedHasResult(cfg, s, h);
    }
  }

  lemma ReachableOnce(cfg: Config, run: seq<Action>, s: State, id: Uuid)
    requires Reaches(cfg, EMPTY, run, s) && SingleRun(cfg, EMPTY, run, id)
    ensures Inv(cfg, s) && Once(s, id)
  {
    EmptyInv(cfg);
    NothingYet(id);
    RunKeepsOnce(cfg, EMPTY, run, s, id);
  }

  /** With a single delivery, a handler error leaves a recorded result exactly when the handler had got past the
      statement that stores its outcome: an error before it records nothing. */
  lemma ErrorRecordsIffSaved(cfg: Config, run: seq<Action>, s: State, h: HandlerId, id: Uuid)
    requires Reaches(cfg, EMPTY, run, s) && SingleRun(cfg, EMPTY, run, id)
    requires On(s, h, id) && !s.handlers[h].pc.Done?
    ensures var db := Moved(s, h, Done).db;
            id in db.subtasks &&
            (db.subtasks[id].result != ResultStatus.Pending <==> !BeforeSave(s.handlers[h].pc))
  {
    ReachableOnce(cfg, run, s, id);
    FailLeaves(cfg, s, h, id);
  }
}
