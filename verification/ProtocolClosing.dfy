/** Which tests can still be closed. Work that nobody holds is never taken up again, work that somebody
    holds can always be completed, and so an open test can still be closed exactly when it is
    `Workable`, a condition on the state alone. */
module ProtocolClosing {
  import opened Wrappers
  import opened Domain
  import opened Matrix
  import opened Store
  import opened Protocol
  import opened ProtocolSafety
  import opened ProtocolProgress

  lemma Cons(cfg: Config, s: State, a: Action, rest: seq<Action>, r: State)
    requires Enabled(cfg, s, a) && Reaches(cfg, Apply(cfg, s, a), rest, r)
    ensures Reaches(cfg, s, [a] + rest, r)
  {
    assert ([a] + rest)[1..] == rest;
  }

  lemma ConsSmooth(cfg: Config, s: State, a: Action, rest: seq<Action>, t: Uuid)
    requires Enabled(cfg, s, a)
    requires Smooth(s, a, t) && SmoothRun(cfg, Apply(cfg, s, a), rest, t)
    requires Exclusive(s, a, t) && ExclusiveRun(cfg, Apply(cfg, s, a), rest, t)
    ensures SmoothRun(cfg, s, [a] + rest, t) && ExclusiveRun(cfg, s, [a] + rest, t)
  {
    assert ([a] + rest)[1..] == rest;
  }

  // ---------------------------------------------------------------- work that nobody holds

  predicate Exists(db: Db, goal: Goal)
  {
    match goal
    case CloseTest(t) => t in db.tests
    case EndSubtask(id) => id in db.subtasks
    case MarkRunning(t) => t in db.tests
  }

  /** What the goal is about is as it was: the test with all its rows, the one row, or which subtasks of the
      test may be running. */
  ghost predicate Kept(db: Db, db': Db, goal: Goal)
  {
    match goal
    case CloseTest(t) =>
      && t in db.tests && t in db'.tests && db'.tests[t] == db.tests[t]
      && RowsOf(db', t) == RowsOf(db, t)
      && forall id :: id in RowsOf(db, t) ==> db'.subtasks[id] == db.subtasks[id]
    case EndSubtask(id) =>
      id in db.subtasks && id in db'.subtasks && db'.subtasks[id] == db.subtasks[id]
    case MarkRunning(t) =>
      && t in db'.tests && RowsOf(db', t) == RowsOf(db, t)
      && forall id :: id in RowsOf(db, t) && db'.subtasks[id].exec == ExecStatus.Running ==>
           db.subtasks[id].exec == ExecStatus.Running
  }

  lemma KeptTransitive(a: Db, b: Db, c: Db, goal: Goal)
    requires Kept(a, b, goal) && Kept(b, c, goal)
    ensures Kept(a, c, goal)
  {
  }

  /** A statement of a handler that does not work for the goal leaves it alone. */
  lemma StatementKeeps(cfg: Config, db: Db, job: ProbeJob, h: Handler, goal: Goal)
    requires JobOk(db, job) && Exists(db, goal)
    requires !(Serves(job, goal) && Ahead(h.pc, goal))
    ensures Kept(db, NextDb(cfg, db, job, h), goal)
  {
    var db' := NextDb(cfg, db, job, h);
    NextDbRows(cfg, db, job, h);
    NextDbTests(cfg, db, job, h);
    if goal.CloseTest? || goal.MarkRunning? {
      forall id
        ensures id in RowsOf(db', goal.test) <==> id in RowsOf(db, goal.test)
      {
        if id == job.subtask { assert db'.subtasks[id].test == db.subtasks[id].test; }
      }
    }
  }

  lemma BehindStaysBehind(cfg: Config, db: Db, job: ProbeJob, h: Handler, response: ProbeResponse,
                          caps: Option<Capabilities>, goal: Goal)
    requires !Ahead(h.pc, goal)
    ensures !Ahead(NextPc(cfg, db, job, h, response, caps), goal)
  {
  }

  /** Handlers that keep their entries and come no nearer, or leave, bring no new work. */
  lemma HandlersKeepIdle(s: State, r: State, goal: Goal)
    requires Idle(s, goal) && r.handlers.Keys <= s.handlers.Keys
    requires forall id :: id in r.backlog ==> id in s.backlog && r.backlog[id] == s.backlog[id]
    requires forall h :: h in r.handlers ==> r.handlers[h].entry == s.handlers[h].entry
    requires forall h :: Works(s, h) && h in r.handlers && Serves(JobOf(s, h), goal) ==>
               Ahead(r.handlers[h].pc, goal) ==> Ahead(s.handlers[h].pc, goal)
    requires r.entries.Keys == s.entries.Keys
    requires forall e :: e in s.entries ==>
               r.entries[e].job == s.entries[e].job &&
               (r.entries[e].delivery == s.entries[e].delivery || r.entries[e].delivery == Acked)
    ensures Idle(r, goal)
  {
    forall h | Works(r, h) && Serves(JobOf(r, h), goal)
      ensures !Ahead(r.handlers[h].pc, goal)
    {
      assert Works(s, h) && JobOf(s, h) == JobOf(r, h);
    }
  }

  lemma AdvancedShape(cfg: Config, s: State, h: HandlerId, response: ProbeResponse, caps: Option<Capabilities>)
    requires Works(s, h)
    ensures var r := Advanced(cfg, s, h, response, caps);
            && OthersKept(s, r, h)
            && r.db == NextDb(cfg, s.db, JobOf(s, h), s.handlers[h])
            && r.handlers[h].pc == NextPc(cfg, s.db, JobOf(s, h), s.handlers[h], response, caps)
  {
  }

  /** A handler that works for the goal is past the step, if nothing is left to do for it. */
  lemma PastTheStep(s: State, h: HandlerId, goal: Goal)
    requires Idle(s, goal) && Works(s, h) && Serves(JobOf(s, h), goal)
    ensures !Ahead(s.handlers[h].pc, goal)
  {
  }

  lemma MovedKeepsIdle(s: State, r: State, h: HandlerId, goal: Goal)
    requires Idle(s, goal) && OthersKept(s, r, h)
    requires Works(s, h) && Serves(JobOf(s, h), goal) && Ahead(r.handlers[h].pc, goal) ==> Ahead(s.handlers[h].pc, goal)
    ensures Idle(r, goal)
  {
    HandlersKeepIdle(s, r, goal);
  }

  lemma AdvanceKeepsIdle(cfg: Config, s: State, h: HandlerId, response: ProbeResponse, caps: Option<Capabilities>,
                         goal: Goal)
    requires Works(s, h) && JobOk(s.db, JobOf(s, h)) && Exists(s.db, goal) && Idle(s, goal)
    ensures var r := Advanced(cfg, s, h, response, caps);
            Idle(r, goal) && Kept(s.db, r.db, goal)
  {
    var job, handler := JobOf(s, h), s.handlers[h];
    AdvancedShape(cfg, s, h, response, caps);
    if Serves(job, goal) {
      PastTheStep(s, h, goal);
      BehindStaysBehind(cfg, s.db, job, handler, response, caps, goal);
    }
    StatementKeeps(cfg, s.db, job, handler, goal);
    MovedKeepsIdle(s, Advanced(cfg, s, h, response, caps), h, goal);
  }

  lemma FailKeepsIdle(s: State, h: HandlerId, goal: Goal)
    requires h in s.handlers && Idle(s, goal)
    ensures Idle(Moved(s, h, Done), goal)
  {
    MovedKeepsIdle(s, Moved(s, h, Done), h, goal);
  }

  lemma GoneKeepsIdle(s: State, h: HandlerId, goal: Goal)
    requires Idle(s, goal)
    ensures Idle(s.(handlers := s.handlers - {h}), goal)
  {
    HandlersKeepIdle(s, s.(handlers := s.handlers - {h}), goal);
  }

  lemma AckKeepsIdle(s: State, r: State, e: EntryId, h: HandlerId, goal: Goal)
    requires Idle(s, goal) && e in s.entries
    requires r == s.(entries := s.entries[e := s.entries[e].(delivery := Acked)], handlers := s.handlers - {h})
    ensures Idle(r, goal)
  {
    HandlersKeepIdle(s, r, goal);
  }

  lemma DropKeepsIdle(s: State, id: Uuid, goal: Goal)
    requires Idle(s, goal)
    ensures Idle(s.(backlog := s.backlog - {id}), goal)
  {
    HandlersKeepIdle(s, s.(backlog := s.backlog - {id}), goal);
  }

  /** An open entry never serves the goal, so neither does a handler that picks it up. */
  lemma PickUpKeepsIdle(s: State, r: State, e: EntryId, h: HandlerId, w: WorkerId, goal: Goal)
    requires Idle(s, goal) && e in s.entries && s.entries[e].delivery != Acked && r.backlog == s.backlog
    requires r.entries == s.entries[e := Entry(s.entries[e].job, Delivered)]
    requires r.handlers == s.handlers[h := Handler(e, w, Begin)]
    ensures Idle(r, goal)
  {
    assert !Serves(s.entries[e].job, goal);
    forall k | Works(r, k) && Serves(JobOf(r, k), goal)
      ensures !Ahead(r.handlers[k].pc, goal)
    {
      assert k != h && Works(s, k) && JobOf(s, k) == JobOf(r, k);
    }
  }

  lemma EnqueueKeepsIdle(s: State, r: State, id: Uuid, e: EntryId, goal: Goal)
    requires Idle(s, goal) && id in s.backlog && e !in s.entries
    requires forall h :: h in s.handlers ==> s.handlers[h].entry in s.entries
    requires r == s.(backlog := s.backlog - {id}, entries := s.entries[e := Entry(s.backlog[id], Undelivered)])
    ensures Idle(r, goal)
  {
    assert !Serves(s.backlog[id], goal);
    forall k | Works(r, k) && Serves(JobOf(r, k), goal)
      ensures !Ahead(r.handlers[k].pc, goal)
    {
      assert Works(s, k) && JobOf(s, k) == JobOf(r, k);
    }
  }

  /** New jobs are for a new test and new subtasks. */
  lemma BacklogKeepsIdle(s: State, r: State, goal: Goal)
    requires Idle(s, goal) && r.entries == s.entries && r.handlers == s.handlers
    requires forall id :: id in r.backlog ==>
               (id in s.backlog && r.backlog[id] == s.backlog[id]) || !Serves(r.backlog[id], goal)
    ensures Idle(r, goal)
  {
    forall k | Works(r, k) && Serves(JobOf(r, k), goal)
      ensures !Ahead(r.handlers[k].pc, goal)
    {
      assert Works(s, k) && JobOf(s, k) == JobOf(r, k);
    }
  }

  lemma CommitKeepsIdle(cfg: Config, s: State, u: Uuid, body: NewTest, ids: seq<Uuid>, goal: Goal)
    requires Inv(cfg, s) && Exists(s.db, goal) && Idle(s, goal) && Enabled(cfg, s, Commit(u, body, ids))
    ensures Idle(Apply(cfg, s, Commit(u, body, ids)), goal)
  {
    CommitBacklog(cfg, s, u, body, ids);
    CommitShape(cfg, s, u, body, ids);
    BacklogKeepsIdle(s, Apply(cfg, s, Commit(u, body, ids)), goal);
  }

  /** Rows of a new test leave everything that was there alone. */
  lemma NewRowsKeep(db: Db, db': Db, u: Uuid, goal: Goal)
    requires Exists(db, goal) && u !in db.tests && u in db'.tests && db'.tests == db.tests[u := db'.tests[u]]
    requires forall id :: id in db'.subtasks ==> id in db.subtasks || db'.subtasks[id].test == u
    requires forall id :: id in db.subtasks ==> id in db'.subtasks && db'.subtasks[id] == db.subtasks[id]
    ensures Kept(db, db', goal)
  {
  }

  lemma QueueStepKeepsIdle(cfg: Config, s: State, a: Action, goal: Goal)
    requires Inv(cfg, s) && Exists(s.db, goal) && Idle(s, goal) && Enabled(cfg, s, a)
    requires a.Commit? || a.Enqueue? || a.DropJob? || a.Deliver? || a.Reclaim?
    ensures Idle(Apply(cfg, s, a), goal)
  {
    if a.Commit? {
      CommitKeepsIdle(cfg, s, a.test, a.body, a.ids, goal);
    } else if a.Enqueue? {
      EnqueueKeepsIdle(s, Apply(cfg, s, a), a.subtask, a.entry, goal);
    } else if a.DropJob? {
      DropKeepsIdle(s, a.subtask, goal);
    } else {
      PickUpKeepsIdle(s, Apply(cfg, s, a), a.entry, a.handler, a.worker, goal);
    }
  }

  lemma StepKeepsIdle(cfg: Config, s: State, a: Action, goal: Goal)
    requires Inv(cfg, s) && Exists(s.db, goal) && Idle(s, goal) && Enabled(cfg, s, a)
    ensures Idle(Apply(cfg, s, a), goal)
  {
    if a.Advance? {
      assert HandlerOk(cfg, s.db, JobOf(s, a.handler), s.handlers[a.handler]);
      AdvanceKeepsIdle(cfg, s, a.handler, a.response, a.caps, goal);
    } else if a.Fail? {
      FailKeepsIdle(s, a.handler, goal);
    } else if a.Ack? {
      AckKeepsIdle(s, Apply(cfg, s, a), s.handlers[a.handler].entry, a.handler, goal);
    } else if a.Crash? || a.LoseAck? {
      GoneKeepsIdle(s, a.handler, goal);
    } else {
      QueueStepKeepsIdle(cfg, s, a, goal);
    }
  }

  lemma StepKeeps(cfg: Config, s: State, a: Action, goal: Goal)
    requires Inv(cfg, s) && Exists(s.db, goal) && Idle(s, goal) && Enabled(cfg, s, a)
    ensures Kept(s.db, Apply(cfg, s, a).db, goal)
  {
    if a.Advance? {
      assert HandlerOk(cfg, s.db, JobOf(s, a.handler), s.handlers[a.handler]);
      AdvanceKeepsIdle(cfg, s, a.handler, a.response, a.caps, goal);
    } else if a.Commit? {
      CommitShape(cfg, s, a.test, a.body, a.ids);
      NewRowsKeep(s.db, Apply(cfg, s, a).db, a.test, goal);
    } else {
      assert Apply(cfg, s, a).db == s.db;
    }
  }

  /** A test, or a subtask, that nobody works for and whose jobs are all acknowledged never changes again,
      in any run. */
  lemma {:induction false} AcknowledgedForGood(cfg: Config, s: State, run: seq<Action>, r: State, goal: Goal)
    requires Inv(cfg, s) && Exists(s.db, goal) && Idle(s, goal) && Reaches(cfg, s, run, r)
    ensures Idle(r, goal) && Kept(s.db, r.db, goal)
    decreases |run|
  {
    if run != [] {
      var next := Apply(cfg, s, run[0]);
      StepKeepsIdle(cfg, s, run[0], goal);
      StepKeeps(cfg, s, run[0], goal);
      StepKeepsInv(cfg, s, run[0]);
      AcknowledgedForGood(cfg, next, run[1..], r, goal);
      KeptTransitive(s.db, next.db, r.db, goal);
    }
  }

  // ---------------------------------------------------------------- work that somebody holds

  const SOME_REPLY := ProbeResponse(true, true, "complete", None, "")

  function Remaining(pc: Pc): nat
  {
    match pc
    case Begin => 8
    case TestMarked => 7
    case SubtaskMarked => 6
    case Probed(_, _) => 5
    case Saved(_, _) => 4
    case Published => 3
    case Counted(_) => 2
    case Closed(_, _) => 1
    case Done => 0
  }

  /** A step that brings the work forward: nothing new is submitted, no worker dies or loses an acknowledgement, and
      no job is taken from a live holder. Errors and lost jobs are steps forward in this sense too. */
  ghost predicate Steady(s: State, a: Action)
  {
    match a
    case Commit(_, _, _) => false
    case Crash(_) => false
    case LoseAck(_) => false
    case Reclaim(e, _, _) => Orphan(s, e)
    case _ => true
  }

  ghost predicate Quiescent(s: State)
  {
    && s.backlog == map[]
    && s.handlers == map[]
    && forall e :: e in s.entries ==> s.entries[e].delivery == Acked
  }

  ghost function Orphans(s: State): set<EntryId>
  {
    set e | e in s.entries && Orphan(s, e)
  }

  lemma {:induction false} FreshId(used: set<nat>) returns (id: nat)
    ensures forall k :: k in used ==> k < id
  {
    if used == {} {
      id := 0;
    } else {
      var k :| k in used;
      var below := FreshId(used - {k});
      id := if below > k then below else k + 1;
      forall x | x in used
        ensures x < id
      {
        assert x == k || x in used - {k};
      }
    }
  }

  lemma SubsetSize<T>(a: set<T>, b: set<T>)
    requires a <= b
    ensures |a| <= |b|
    ensures a != b ==> |a| < |b|
  {
    assert b == a + (b - a);
  }

  function RemainingOf(s: State, h: HandlerId): nat
  {
    if h in s.handlers then Remaining(s.handlers[h].pc) else 0
  }

  /** The measure of `Drain`: jobs to queue, then orphans, then live handlers, then the program point of
      the handler being run. */
  ghost predicate Less(r: State, k: HandlerId, s: State, h: HandlerId)
  {
    || |r.backlog| < |s.backlog|
    || (|r.backlog| == |s.backlog| && |Orphans(r)| < |Orphans(s)|)
    || (|r.backlog| == |s.backlog| && |Orphans(r)| <= |Orphans(s)| && |r.handlers| < |s.handlers|)
    || (|r.backlog| == |s.backlog| && |Orphans(r)| <= |Orphans(s)| && |r.handlers| == |s.handlers| &&
        RemainingOf(r, k) < RemainingOf(s, h))
  }

  lemma AdvanceMeasure(s: State, r: State, h: HandlerId)
    requires OthersKept(s, r, h) && Remaining(r.handlers[h].pc) < Remaining(s.handlers[h].pc)
    ensures Less(r, h, s, h)
  {
    assert r.handlers.Keys == s.handlers.Keys;
    forall e | e in Orphans(r)
      ensures e in Orphans(s)
    {
      forall k | k in s.handlers
        ensures s.handlers[k].entry != e
      {
        assert r.handlers[k].entry == s.handlers[k].entry;
      }
    }
    SubsetSize(Orphans(r), Orphans(s));
  }

  lemma AckMeasure(s: State, r: State, h: HandlerId, k: HandlerId)
    requires Works(s, h) && r.backlog == s.backlog && r.handlers == s.handlers - {h}
    requires r.entries == s.entries[s.handlers[h].entry := s.entries[s.handlers[h].entry].(delivery := Acked)]
    ensures Less(r, k, s, h)
  {
    assert r.handlers.Keys == s.handlers.Keys - {h};
    forall e | e in Orphans(r)
      ensures e in Orphans(s)
    {
      forall x | x in s.handlers
        ensures s.handlers[x].entry != e
      {
        assert x == h || r.handlers[x] == s.handlers[x];
      }
    }
    SubsetSize(Orphans(r), Orphans(s));
  }

  lemma PickUpMeasure(s: State, r: State, e: EntryId, h: HandlerId, w: WorkerId, k: HandlerId)
    requires Orphan(s, e) && h !in s.handlers && r.entries.Keys == s.entries.Keys && r.backlog == s.backlog
    requires forall k :: k in s.entries && k != e ==> r.entries[k] == s.entries[k]
    requires r.handlers == s.handlers[h := Handler(e, w, Begin)]
    ensures Less(r, k, s, h)
  {
    forall x | x in Orphans(r)
      ensures x in Orphans(s) - {e}
    {
      assert h in r.handlers && r.handlers[h].entry == e;
      forall y | y in s.handlers
        ensures s.handlers[y].entry != x
      {
        assert r.handlers[y] == s.handlers[y];
      }
    }
    SubsetSize(Orphans(r), Orphans(s) - {e});
  }

  lemma MoveOut(cfg: Config, s: State, h: HandlerId, t: Uuid) returns (a: Action, k: HandlerId)
    requires Inv(cfg, s) && h in s.handlers && s.handlers[h].pc.Done?
    ensures Enabled(cfg, s, a) && Smooth(s, a, t) && Exclusive(s, a, t) && Steady(s, a)
    ensures var r := Apply(cfg, s, a);
            Less(r, k, s, h) && (r.handlers != map[] ==> k in r.handlers)
  {
    a := Ack(h);
    k := 0;
    var r := Apply(cfg, s, a);
    if r.handlers != map[] {
      k :| k in r.handlers;
    }
    AckMeasure(s, r, h, k);
  }

  lemma AdvanceShrinks(cfg: Config, s: State, h: HandlerId, response: ProbeResponse, caps: Option<Capabilities>)
    requires Works(s, h) && !s.handlers[h].pc.Done?
    ensures var r := Advanced(cfg, s, h, response, caps);
            OthersKept(s, r, h) && Remaining(r.handlers[h].pc) < Remaining(s.handlers[h].pc)
  {
  }

  lemma MoveOn(cfg: Config, s: State, h: HandlerId, t: Uuid) returns (a: Action)
    requires Inv(cfg, s) && h in s.handlers && !s.handlers[h].pc.Done?
    ensures Enabled(cfg, s, a) && Smooth(s, a, t) && Exclusive(s, a, t) && Steady(s, a)
    ensures Less(Apply(cfg, s, a), h, s, h) && h in Apply(cfg, s, a).handlers
  {
    var response := SOME_REPLY;
    a := Advance(h, response, None);
    AdvanceShrinks(cfg, s, h, response, None);
    AdvanceMeasure(s, Advanced(cfg, s, h, response, None), h);
  }

  lemma MoveOrphan(cfg: Config, s: State, w: WorkerId, e: EntryId, t: Uuid) returns (a: Action)
    requires w in cfg.adapters && s.handlers == map[] && Orphan(s, e)
    ensures Enabled(cfg, s, a) && Smooth(s, a, t) && Exclusive(s, a, t) && Steady(s, a)
    ensures Less(Apply(cfg, s, a), 0, s, 0) && 0 in Apply(cfg, s, a).handlers
  {
    a := if s.entries[e].delivery == Undelivered then Deliver(e, 0, w) else Reclaim(e, 0, w);
    PickUpMeasure(s, Apply(cfg, s, a), e, 0, w, 0);
  }

  lemma MoveBacklog(cfg: Config, s: State, id: Uuid, t: Uuid) returns (a: Action)
    requires s.handlers == map[] && id in s.backlog
    ensures Enabled(cfg, s, a) && Smooth(s, a, t) && Exclusive(s, a, t) && Steady(s, a)
    ensures Less(Apply(cfg, s, a), 0, s, 0) && Apply(cfg, s, a).handlers == map[]
  {
    var e := FreshId(s.entries.Keys);
    a := Enqueue(id, e);
    assert Apply(cfg, s, a).backlog.Keys == s.backlog.Keys - {id};
  }

  lemma NextMove(cfg: Config, s: State, w: WorkerId, h: HandlerId, t: Uuid) returns (a: Action, k: HandlerId)
    requires Inv(cfg, s) && w in cfg.adapters && !Quiescent(s)
    requires if s.handlers == map[] then h == 0 else h in s.handlers
    ensures Enabled(cfg, s, a) && Smooth(s, a, t) && Exclusive(s, a, t) && Steady(s, a)
    ensures var r := Apply(cfg, s, a);
            Less(r, k, s, h) && (r.handlers != map[] ==> k in r.handlers)
  {
    if s.handlers != map[] {
      if s.handlers[h].pc.Done? {
        a, k := MoveOut(cfg, s, h, t);
      } else {
        a := MoveOn(cfg, s, h, t);
        k := h;
      }
    } else if s.backlog != map[] {
      var id :| id in s.backlog;
      a := MoveBacklog(cfg, s, id, t);
      k := 0;
    } else {
      var e :| e in s.entries && s.entries[e].delivery != Acked;
      assert Orphan(s, e);
      a := MoveOrphan(cfg, s, w, e, t);
      k := 0;
    }
  }

  /** From any state, worker `w` alone can finish everything that is held or queued: run the live handlers
      out, queue every job that was not queued yet, pick up every orphan. */
  lemma {:induction false} Drain(cfg: Config, s: State, w: WorkerId, h: HandlerId, t: Uuid)
    returns (run: seq<Action>, r: State)
    requires Inv(cfg, s) && w in cfg.adapters
    requires if s.handlers == map[] then h == 0 else h in s.handlers
    ensures Reaches(cfg, s, run, r) && SmoothRun(cfg, s, run, t) && ExclusiveRun(cfg, s, run, t)
    ensures Quiescent(r)
    decreases |s.backlog|, |Orphans(s)|, |s.handlers|, RemainingOf(s, h)
  {
    if Quiescent(s) {
      run, r := [], s;
    } else {
      var a, k := NextMove(cfg, s, w, h, t);
      StepKeepsInv(cfg, s, a);
      var next := Apply(cfg, s, a);
      var rest;
      rest, r := Drain(cfg, next, w, if next.handlers == map[] then 0 else k, t);
      Cons(cfg, s, a, rest, r);
      ConsSmooth(cfg, s, a, rest, t);
      run := [a] + rest;
    }
  }

  // ---------------------------------------------------------------- when a test can still be closed

  ghost predicate CanClose(cfg: Config, s: State, t: Uuid)
  {
    exists run, r :: Reaches(cfg, s, run, r) && t in r.db.tests && TerminalTask(r.db.tests[t].status)
  }

  /** A handler has counted and is about to close the test. */
  ghost predicate CloseDecided(s: State, t: Uuid)
  {
    exists h :: Works(s, h) && s.handlers[h].pc.Counted? && JobOf(s, h).test == t
  }

  /** What it takes to close `t`: an end of every outstanding subtask, and a close. */
  ghost function Goals(db: Db, t: Uuid): set<Goal>
  {
    (set id | id in Outstanding(db, t) :: EndSubtask(id)) + {CloseTest(t)}
  }

  /** The close is decided, or there is a queued job, an un-acknowledged job or a handler for the close and
      for each outstanding subtask. */
  ghost predicate Workable(s: State, t: Uuid)
  {
    CloseDecided(s, t) || forall goal :: goal in Goals(s.db, t) ==> !Idle(s, goal)
  }

  lemma GoalExists(db: Db, t: Uuid, goal: Goal)
    requires goal in Goals(db, t) && t in db.tests
    ensures Exists(db, goal)
  {
  }

  lemma StuckGoal(cfg: Config, s: State, a: Action, t: Uuid, goal: Goal)
    requires Inv(cfg, s) && Enabled(cfg, s, a) && t in s.db.tests
    requires goal in Goals(s.db, t) && Idle(s, goal)
    ensures goal in Goals(Apply(cfg, s, a).db, t) && Idle(Apply(cfg, s, a), goal)
  {
    GoalExists(s.db, t, goal);
    StepKeepsIdle(cfg, s, a, goal);
    StepKeeps(cfg, s, a, goal);
    StillAGoal(s.db, Apply(cfg, s, a).db, t, goal);
  }

  lemma StillAGoal(db: Db, db': Db, t: Uuid, goal: Goal)
    requires goal in Goals(db, t) && Kept(db, db', goal)
    ensures goal in Goals(db', t)
  {
    if goal.EndSubtask? {
      assert goal.subtask in Outstanding(db', t);
    }
  }

  /** Handlers in the middle of a close in `r` were there in `s`. */
  ghost predicate NoneAppears(s: State, r: State)
  {
    forall h :: Works(r, h) && (r.handlers[h].pc.Counted? || r.handlers[h].pc.Closed?) ==> SameHandler(s, r, h)
  }

  lemma FewerHandlers(s: State, r: State)
    requires forall h :: h in s.handlers ==> s.handlers[h].entry in s.entries
    requires forall h :: h in r.handlers ==> h in s.handlers && r.handlers[h] == s.handlers[h]
    requires forall e :: e in s.entries ==> e in r.entries && r.entries[e].job == s.entries[e].job
    ensures NoneAppears(s, r)
  {
  }

  lemma PickedUpStarts(s: State, r: State, e: EntryId, h: HandlerId, w: WorkerId)
    requires forall h :: h in s.handlers ==> s.handlers[h].entry in s.entries
    requires r.handlers == s.handlers[h := Handler(e, w, Begin)]
    requires forall e :: e in s.entries ==> e in r.entries && r.entries[e].job == s.entries[e].job
    ensures NoneAppears(s, r)
  {
  }

  lemma FailedIsDone(s: State, h: HandlerId)
    requires h in s.handlers
    ensures NoneAppears(s, Moved(s, h, Done))
  {
  }

  lemma StreamStepAppears(cfg: Config, s: State, a: Action)
    requires forall h :: h in s.handlers ==> s.handlers[h].entry in s.entries
    requires Enabled(cfg, s, a) && !a.Advance?
    ensures NoneAppears(s, Apply(cfg, s, a))
  {
    if a.Deliver? || a.Reclaim? {
      PickedUpStarts(s, Apply(cfg, s, a), a.entry, a.handler, a.worker);
    } else if a.Fail? {
      FailedIsDone(s, a.handler);
    } else {
      FewerHandlers(s, Apply(cfg, s, a));
    }
  }

  lemma NotDecided(s: State, r: State, t: Uuid)
    requires NoneAppears(s, r) && !CloseDecided(s, t)
    ensures !CloseDecided(r, t)
  {
    forall h | Works(r, h) && r.handlers[h].pc.Counted?
      ensures JobOf(r, h).test != t
    {
      assert SameHandler(s, r, h);
    }
  }

  /** A SELECT that sees an outstanding subtask decides nothing, and no other statement does. */
  lemma AdvanceDecides(cfg: Config, s: State, h: HandlerId, response: ProbeResponse, caps: Option<Capabilities>,
                       t: Uuid)
    requires Works(s, h) && !CloseDecided(s, t)
    requires s.handlers[h].pc.Published? && JobOf(s, h).test == t ==> Outstanding(s.db, t) != {}
    ensures !CloseDecided(Advanced(cfg, s, h, response, caps), t)
  {
    var r := Advanced(cfg, s, h, response, caps);
    AdvancedShape(cfg, s, h, response, caps);
    forall k | Works(r, k) && r.handlers[k].pc.Counted?
      ensures JobOf(r, k).test != t
    {
      if k != h {
        assert Works(s, k) && s.handlers[k] == r.handlers[k];
      }
    }
  }

  /** With a subtask nobody will end, or nobody left to count, no handler comes to close the test. */
  lemma NobodyDecides(cfg: Config, s: State, a: Action, t: Uuid, goal: Goal)
    requires Inv(cfg, s) && Enabled(cfg, s, a) && goal in Goals(s.db, t) && Idle(s, goal)
    requires !CloseDecided(s, t)
    ensures !CloseDecided(Apply(cfg, s, a), t)
  {
    if a.Advance? {
      if s.handlers[a.handler].pc.Published? && JobOf(s, a.handler).test == t {
        StillOutstanding(s, a.handler, t, goal);
      }
      AdvanceDecides(cfg, s, a.handler, a.response, a.caps, t);
    } else {
      StreamStepAppears(cfg, s, a);
      NotDecided(s, Apply(cfg, s, a), t);
    }
  }

  lemma StillOutstanding(s: State, h: HandlerId, t: Uuid, goal: Goal)
    requires goal in Goals(s.db, t) && Idle(s, goal)
    requires Works(s, h) && s.handlers[h].pc.Published? && JobOf(s, h).test == t
    ensures Outstanding(s.db, t) != {}
  {
    if goal.EndSubtask? {
      assert goal.subtask in Outstanding(s.db, t);
    } else {
      PastTheStep(s, h, goal);
      assert false;
    }
  }

  lemma AdvanceCloses(cfg: Config, s: State, h: HandlerId, response: ProbeResponse, caps: Option<Capabilities>, t: Uuid)
    requires Works(s, h) && !CloseDecided(s, t) && t in s.db.tests && !TerminalTask(s.db.tests[t].status)
    ensures var r := Advanced(cfg, s, h, response, caps);
            t in r.db.tests && !TerminalTask(r.db.tests[t].status)
  {
    AdvancedShape(cfg, s, h, response, caps);
    assert s.handlers[h].pc.Counted? ==> JobOf(s, h).test != t;
  }

  lemma NobodyCloses(cfg: Config, s: State, a: Action, t: Uuid)
    requires Enabled(cfg, s, a) && t in s.db.tests && !TerminalTask(s.db.tests[t].status)
    requires !CloseDecided(s, t)
    ensures t in Apply(cfg, s, a).db.tests && !TerminalTask(Apply(cfg, s, a).db.tests[t].status)
  {
    if a.Advance? {
      AdvanceCloses(cfg, s, a.handler, a.response, a.caps, t);
    } else if a.Commit? {
      CommitShape(cfg, s, a.test, a.body, a.ids);
    } else {
      assert Apply(cfg, s, a).db == s.db;
    }
  }

  /** One goal of an open test for which nobody works keeps the test open. */
  lemma {:induction false} StuckForGood(cfg: Config, s: State, run: seq<Action>, r: State, t: Uuid, goal: Goal)
    requires Inv(cfg, s) && Reaches(cfg, s, run, r)
    requires t in s.db.tests && !TerminalTask(s.db.tests[t].status)
    requires goal in Goals(s.db, t) && Idle(s, goal) && !CloseDecided(s, t)
    ensures t in r.db.tests && !TerminalTask(r.db.tests[t].status)
    decreases |run|
  {
    if run != [] {
      StuckGoal(cfg, s, run[0], t, goal);
      NobodyDecides(cfg, s, run[0], t, goal);
      NobodyCloses(cfg, s, run[0], t);
      StepKeepsInv(cfg, s, run[0]);
      StuckForGood(cfg, Apply(cfg, s, run[0]), run[1..], r, t, goal);
    }
  }

  // ---------------------------------------------------------------- closing a workable test

  /** The goals of `t` that are not owed: each has only an entry whose live holders are past the step. */
  ghost function Unowed(s: State, t: Uuid): set<Goal>
  {
    set goal | goal in Goals(s.db, t) && !Owed(s, goal)
  }

  lemma NothingUnowed(s: State, t: Uuid)
    requires Unowed(s, t) == {}
    ensures OwedFor(s, t)
  {
    forall id | id in Outstanding(s.db, t)
      ensures Owed(s, EndSubtask(id))
    {
      assert EndSubtask(id) !in Unowed(s, t);
    }
    assert CloseTest(t) !in Unowed(s, t);
  }

  lemma UnackedEntry(s: State, goal: Goal) returns (e: EntryId)
    requires !Idle(s, goal) && !Owed(s, goal)
    ensures e in s.entries && s.entries[e].delivery != Acked && Serves(s.entries[e].job, goal)
  {
    e :| e in s.entries && s.entries[e].delivery != Acked && Serves(s.entries[e].job, goal);
  }

  /** An entry can be reclaimed at any time before it is acknowledged. */
  lemma TakeOver(cfg: Config, s: State, e: EntryId, w: WorkerId) returns (a: Action, h: HandlerId)
    requires w in cfg.adapters && e in s.entries && s.entries[e].delivery != Acked
    ensures Enabled(cfg, s, a) && PickedUpBy(s, Apply(cfg, s, a), e, h, w)
  {
    h := FreshId(s.handlers.Keys);
    a := if s.entries[e].delivery == Undelivered then Deliver(e, h, w) else Reclaim(e, h, w);
    assert s.entries == s.entries[e := s.entries[e]];
  }

  ghost predicate PickedUpBy(s: State, r: State, e: EntryId, h: HandlerId, w: WorkerId)
  {
    && e in s.entries && h !in s.handlers && e in r.entries
    && r.entries == s.entries[e := r.entries[e]] && r.entries[e].job == s.entries[e].job
    && r.entries[e].delivery == Delivered
    && r.handlers == s.handlers[h := Handler(e, w, Begin)] && r.backlog == s.backlog && r.db == s.db
  }

  lemma TakenOverIsOwed(s: State, r: State, e: EntryId, h: HandlerId, w: WorkerId, goal: Goal)
    requires PickedUpBy(s, r, e, h, w) && Serves(s.entries[e].job, goal)
    ensures Owed(r, goal)
  {
    assert Works(r, h) && JobOf(r, h) == s.entries[e].job && Ahead(r.handlers[h].pc, goal);
  }

  lemma TakeOverKeepsWork(s: State, r: State, e: EntryId, h: HandlerId, w: WorkerId, goal: Goal)
    requires PickedUpBy(s, r, e, h, w) && !Idle(s, goal)
    ensures !Idle(r, goal)
  {
    if Unacked(s, goal) {
      var k :| k in s.entries && s.entries[k].delivery != Acked && Serves(s.entries[k].job, goal);
      assert r.entries[k].delivery != Acked && Serves(r.entries[k].job, goal);
    } else if InProgress(s, goal) {
      var k :| Works(s, k) && Ahead(s.handlers[k].pc, goal) && Serves(JobOf(s, k), goal);
      assert Works(r, k) && Ahead(r.handlers[k].pc, goal) && Serves(JobOf(r, k), goal);
    }
  }

  lemma GoalJobs(cfg: Config, s: State, t: Uuid, goal: Goal)
    requires Inv(cfg, s) && goal in Goals(s.db, t)
    ensures JobsOfTest(s, goal, t)
  {
    if goal.EndSubtask? {
      InvJobsOfTest(cfg, s, goal.subtask);
    }
  }

  lemma TakeOverKeepsOwed(s: State, r: State, e: EntryId, h: HandlerId, w: WorkerId, t: Uuid, goal: Goal)
    requires PickedUpBy(s, r, e, h, w) && JobsOfTest(s, goal, t) && Owed(s, goal)
    ensures Owed(r, goal)
  {
    PickedUp(s, r, e, h, w, t);
    OwedHandedOver(s, r, t, goal);
  }

  lemma TakeOverStep(cfg: Config, s: State, r: State, e: EntryId, h: HandlerId, w: WorkerId, t: Uuid)
    requires Inv(cfg, s) && PickedUpBy(s, r, e, h, w)
    requires forall goal :: goal in Goals(s.db, t) ==> !Idle(s, goal)
    ensures forall goal :: goal in Goals(r.db, t) ==> !Idle(r, goal)
    ensures Unowed(r, t) <= Unowed(s, t)
  {
    forall g | g in Goals(s.db, t)
      ensures !Idle(r, g)
      ensures Owed(s, g) ==> Owed(r, g)
    {
      TakeOverKeepsWork(s, r, e, h, w, g);
      GoalJobs(cfg, s, t, g);
      if Owed(s, g) { TakeOverKeepsOwed(s, r, e, h, w, t, g); }
    }
  }

  /** A test with a subtask none of whose goals is idle: take over what is not owed, then drain. */
  lemma {:induction false} WorkCloses(cfg: Config, s: State, t: Uuid, w: WorkerId) returns (run: seq<Action>, r: State)
    requires Inv(cfg, s) && w in cfg.adapters && t in s.db.tests && s.db.tests[t].subtaskCount > 0
    requires forall goal :: goal in Goals(s.db, t) ==> !Idle(s, goal)
    ensures Reaches(cfg, s, run, r) && t in r.db.tests && TerminalTask(r.db.tests[t].status)
    decreases |Unowed(s, t)|
  {
    if Unowed(s, t) == {} {
      NothingUnowed(s, t);
      run, r := OwedTestCloses(cfg, s, t, w);
    } else {
      var goal :| goal in Unowed(s, t);
      var e := UnackedEntry(s, goal);
      var a, h := TakeOver(cfg, s, e, w);
      var next := Apply(cfg, s, a);
      StepKeepsInv(cfg, s, a);
      TakeOverStep(cfg, s, next, e, h, w, t);
      TakenOverIsOwed(s, next, e, h, w, goal);
      assert goal !in Unowed(next, t);
      SubsetSize(Unowed(next, t), Unowed(s, t));
      var rest;
      rest, r := WorkCloses(cfg, next, t, w);
      Cons(cfg, s, a, rest, r);
      run := [a] + rest;
    }
  }

  lemma QuiescentIsIdle(s: State, goal: Goal)
    requires Quiescent(s)
    ensures Idle(s, goal)
  {
  }

  /** A test that has a job has a subtask. */
  lemma WorkMeansSubtask(cfg: Config, s: State, t: Uuid)
    requires Inv(cfg, s) && t in s.db.tests && !Idle(s, CloseTest(t))
    ensures s.db.tests[t].subtaskCount > 0
  {
    var job;
    if InBacklog(s, CloseTest(t)) {
      var id :| id in s.backlog && Serves(s.backlog[id], CloseTest(t));
      job := s.backlog[id];
    } else if Unacked(s, CloseTest(t)) {
      var e :| e in s.entries && s.entries[e].delivery != Acked && Serves(s.entries[e].job, CloseTest(t));
      job := s.entries[e].job;
    } else {
      var h :| Works(s, h) && Ahead(s.handlers[h].pc, CloseTest(t)) && Serves(JobOf(s, h), CloseTest(t));
      job := JobOf(s, h);
    }
    assert JobOk(s.db, job) && job.subtask in RowsOf(s.db, t);
    assert TestOk(cfg, s.db, t);
  }

  lemma OwedTestCloses(cfg: Config, s: State, t: Uuid, w: WorkerId) returns (run: seq<Action>, r: State)
    requires Inv(cfg, s) && OwedFor(s, t) && w in cfg.adapters && t in s.db.tests && s.db.tests[t].subtaskCount > 0
    ensures Reaches(cfg, s, run, r) && t in r.db.tests && TerminalTask(r.db.tests[t].status)
  {
    var h := 0;
    if s.handlers != map[] {
      h :| h in s.handlers;
    }
    run, r := Drain(cfg, s, w, h, t);
    RunKeepsOwed(cfg, s, run, r, t);
    RunKeepsInv(cfg, s, run, r);
    QuiescentIsIdle(r, CloseTest(t));
    IdleMeansDone(cfg, r, t);
  }

  lemma DecidedCloses(cfg: Config, s: State, t: Uuid) returns (run: seq<Action>, r: State)
    requires t in s.db.tests && CloseDecided(s, t)
    ensures Reaches(cfg, s, run, r) && t in r.db.tests && TerminalTask(r.db.tests[t].status)
  {
    var h :| Works(s, h) && s.handlers[h].pc.Counted? && JobOf(s, h).test == t;
    var response := SOME_REPLY;
    r := Advanced(cfg, s, h, response, None);
    AdvancedShape(cfg, s, h, response, None);
    Cons(cfg, s, Advance(h, response, None), [], r);
    run := [Advance(h, response, None)] + [];
  }

  /** An open test can still be closed exactly when it is workable, whatever crashed, failed, was lost or
      was delivered twice on the way there. */
  lemma CanCloseIffWorkable(cfg: Config, run: seq<Action>, s: State, t: Uuid, w: WorkerId)
    requires Reaches(cfg, EMPTY, run, s) && w in cfg.adapters
    requires t in s.db.tests && !TerminalTask(s.db.tests[t].status)
    ensures CanClose(cfg, s, t) <==> Workable(s, t)
  {
    ReachableInv(cfg, run, s);
    if Workable(s, t) {
      var more, r;
      if CloseDecided(s, t) {
        more, r := DecidedCloses(cfg, s, t);
      } else {
        assert CloseTest(t) in Goals(s.db, t);
        WorkMeansSubtask(cfg, s, t);
        more, r := WorkCloses(cfg, s, t, w);
      }
    } else if CanClose(cfg, s, t) {
      var more, r :| Reaches(cfg, s, more, r) && t in r.db.tests && TerminalTask(r.db.tests[t].status);
      var goal :| goal in Goals(s.db, t) && Idle(s, goal);
      StuckForGood(cfg, s, more, r, t, goal);
      assert false;
    }
  }

  /** Under the conditions of `AllDoneWhenQuiet`, whatever crashed, an open test with a subtask can be closed. */
  lemma SmoothTestCanClose(cfg: Config, run: seq<Action>, s: State, t: Uuid, w: WorkerId)
    requires Reaches(cfg, EMPTY, run, s) && SmoothRun(cfg, EMPTY, run, t) && w in cfg.adapters
    requires t in s.db.tests && s.db.tests[t].subtaskCount > 0
    ensures CanClose(cfg, s, t)
  {
    RunKeepsOwed(cfg, EMPTY, run, s, t);
    var more, r := OwedTestCloses(cfg, s, t, w);
  }
}
