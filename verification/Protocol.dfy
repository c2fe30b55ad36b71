/** The job protocol as a transition system: the API commits a test and queues its jobs one by one,
    the consumer group hands entries to workers and lets stale ones be reclaimed, and each handler
    runs `probe::handle` one database statement or publish at a time. Any interleaving, crash,
    handler error, lost acknowledgement and redelivery is a sequence of these actions. */
module Protocol {
  import opened Wrappers
  import opened Domain
  import opened Matrix
  import opened Store

  type EntryId = nat
  type HandlerId = nat
  type WorkerId = nat

  /** `adapters[w]` is the ADAPTERS map worker `w` was started with. */
  datatype Config = Config(adapters: map<WorkerId, set<string>>, limits: Limits)

  predicate IsConfigured(cfg: Config, w: WorkerId, adapter: string)
  {
    w in cfg.adapters && adapter in cfg.adapters[w]
  }

  datatype Delivery = Undelivered | Delivered | Acked

  datatype Entry = Entry(job: ProbeJob, delivery: Delivery)

  /** Where a handler is: what it has just done and the local values it still needs. */
  datatype Pc =
    | Begin
    | TestMarked
    | SubtaskMarked
    | Probed(result: ResultStatus, response: ProbeResponse)
    | Saved(exec: ExecStatus, shown: ResultStatus)
    | Published
    | Counted(counts: Counts)
    | Closed(passed: nat, failed: nat)
    | Done

  datatype Handler = Handler(entry: EntryId, worker: WorkerId, pc: Pc)

  /** `backlog` holds the jobs of committed subtasks that the API has not added to the stream yet. */
  datatype State = State(db: Db, backlog: map<Uuid, ProbeJob>, entries: map<EntryId, Entry>,
                         handlers: map<HandlerId, Handler>, events: seq<TestEvent>)

  const EMPTY := State(Db(map[], map[], map[]), map[], map[], map[], [])

  datatype Action =
    | Commit(test: Uuid, body: NewTest, ids: seq<Uuid>)
    | Enqueue(subtask: Uuid, entry: EntryId)
    | DropJob(subtask: Uuid)
    | Deliver(entry: EntryId, handler: HandlerId, worker: WorkerId)
    | Reclaim(entry: EntryId, handler: HandlerId, worker: WorkerId)
    | Advance(handler: HandlerId, response: ProbeResponse, caps: Option<Capabilities>)
    | Fail(handler: HandlerId)
    | Crash(handler: HandlerId)
    | Ack(handler: HandlerId)
    | LoseAck(handler: HandlerId)

  // ---------------------------------------------------------------- actions

  function JobsFor(t: Uuid, adapter: string, axes: Axes, ids: seq<Uuid>): (jobs: map<Uuid, ProbeJob>)
    requires Distinct(ids) && |ids| == |axes.groups| * |axes.sigAlgs|
  {
    var cells := RowMajor(axes);
    map k | 0 <= k < |ids| :: ids[k] := ProbeJob(t, ids[k], adapter, cells[k].group, cells[k].sigAlg)
  }

  ghost predicate Enabled(cfg: Config, s: State, a: Action)
  {
    match a
    case Commit(t, body, ids) =>
      && t !in s.db.tests
      && Accept(body, cfg.limits).Ok?
      && var axes := Accept(body, cfg.limits).value;
      && |ids| == |axes.groups| * |axes.sigAlgs|
      && Distinct(ids)
      && forall id :: id in ids ==> id !in s.db.subtasks
    case Enqueue(id, e) => id in s.backlog && e !in s.entries
    case DropJob(id) => id in s.backlog
    case Deliver(e, h, w) =>
      e in s.entries && s.entries[e].delivery == Undelivered && h !in s.handlers && w in cfg.adapters
    case Reclaim(e, h, w) =>
      e in s.entries && s.entries[e].delivery == Delivered && h !in s.handlers && w in cfg.adapters
    case Advance(h, _, _) => h in s.handlers && s.handlers[h].entry in s.entries && !s.handlers[h].pc.Done?
    case Fail(h) => h in s.handlers && !s.handlers[h].pc.Done?
    case Crash(h) => h in s.handlers
    case Ack(h) => h in s.handlers && s.handlers[h].entry in s.entries && s.handlers[h].pc.Done?
    case LoseAck(h) => h in s.handlers && s.handlers[h].pc.Done?
  }

  function Moved(s: State, h: HandlerId, pc: Pc): State
    requires h in s.handlers
  {
    s.(handlers := s.handlers[h := s.handlers[h].(pc := pc)])
  }

  /** The statement that `probe::handle` and `finish` execute next, as its effect on the tables. */
  function NextDb(cfg: Config, db: Db, job: ProbeJob, h: Handler): (r: Db)
  {
    match h.pc
    case Begin => TestRunning(db, job.test)
    case TestMarked => SubtaskRunning(db, job.subtask)
    case SubtaskMarked =>
      if IsConfigured(cfg, h.worker, job.adapter) then db else SubtaskErrored(db, job.subtask, NotEnabled(job.adapter))
    case Probed(result, response) => ReportSaved(db, job.subtask, result, response)
    case Counted(c) => TestClosed(db, job.test, CloseStatus(c))
    case _ => db
  }

  /** Where the handler is after that statement; `response` and `caps` are what the adapter answers. */
  function NextPc(cfg: Config, db: Db, job: ProbeJob, h: Handler,
                  response: ProbeResponse, caps: Option<Capabilities>): (pc: Pc)
  {
    match h.pc
    case Begin => TestMarked
    case TestMarked => SubtaskMarked
    case SubtaskMarked =>
      if IsConfigured(cfg, h.worker, job.adapter) then Probed(ProbeResult(response, job, caps), response)
      else Saved(ExecStatus.Error, Disabled)
    case Probed(result, _) => Saved(ExecStatus.Finished, result)
    case Saved(_, _) => Published
    case Published =>
      var counts := CountRows(db, job.test);
      if counts.outstanding > 0 then Done else Counted(counts)
    case Counted(c) => Closed(c.passed, c.failed)
    case Closed(_, _) => Done
    case Done => Done
  }

  /** What it publishes on the test's channel. */
  function Emitted(job: ProbeJob, pc: Pc): (events: seq<TestEvent>)
  {
    match pc
    case Saved(exec, shown) => [SubtaskUpdated(job.subtask, exec, shown)]
    case Closed(p, f) => [TestFinished(job.test, p, f)]
    case _ => []
  }

  function Advanced(cfg: Config, s: State, h: HandlerId, response: ProbeResponse, caps: Option<Capabilities>): State
    requires h in s.handlers && s.handlers[h].entry in s.entries
  {
    var handler := s.handlers[h];
    var job := s.entries[handler.entry].job;
    Moved(s, h, NextPc(cfg, s.db, job, handler, response, caps)).(
      db := NextDb(cfg, s.db, job, handler),
      events := s.events + Emitted(job, handler.pc))
  }

  function Apply(cfg: Config, s: State, a: Action): (r: State)
    requires Enabled(cfg, s, a)
  {
    match a
    case Commit(t, body, ids) =>
      var axes := Accept(body, cfg.limits).value;
      s.(db := TestInserted(s.db, t, body.adapter, axes, ids),
         backlog := s.backlog + JobsFor(t, body.adapter, axes, ids))
    case Enqueue(id, e) =>
      s.(backlog := s.backlog - {id}, entries := s.entries[e := Entry(s.backlog[id], Undelivered)])
    case DropJob(id) => s.(backlog := s.backlog - {id})
    case Deliver(e, h, w) =>
      s.(entries := s.entries[e := s.entries[e].(delivery := Delivered)],
         handlers := s.handlers[h := Handler(e, w, Begin)])
    case Reclaim(e, h, w) => s.(handlers := s.handlers[h := Handler(e, w, Begin)])
    case Advance(h, response, caps) => Advanced(cfg, s, h, response, caps)
    case Fail(h) => Moved(s, h, Done)
    case Crash(h) => s.(handlers := s.handlers - {h})
    case Ack(h) =>
      var e := s.handlers[h].entry;
      s.(entries := s.entries[e := s.entries[e].(delivery := Acked)], handlers := s.handlers - {h})
    case LoseAck(h) => s.(handlers := s.handlers - {h})
  }

  /** `run` takes the system from `s` to `r`. */
  ghost predicate Reaches(cfg: Config, s: State, run: seq<Action>, r: State)
    decreases |run|
  {
    if run == [] then s == r
    else Enabled(cfg, s, run[0]) && Reaches(cfg, Apply(cfg, s, run[0]), run[1..], r)
  }
}
