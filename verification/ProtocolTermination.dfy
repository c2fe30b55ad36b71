/** Closing is not only possible but inevitable: a run of steady steps cannot be longer than a measure of its start
    state, and when no steady step is left every test that is owed a close is closed. */
module ProtocolTermination {
  import opened Wrappers
  import opened Domain
  import opened Store
  import opened Protocol
  import opened ProtocolSafety
  import opened ProtocolProgress
  import opened ProtocolClosing

  ghost predicate SteadyRun(cfg: Config, s: State, run: seq<Action>)
    decreases |run|
  {
    run != [] ==> Enabled(cfg, s, run[0]) && Steady(s, run[0]) && SteadyRun(cfg, Apply(cfg, s, run[0]), run[1..])
  }

  // ---------------------------------------------------------------- the measure

  /** Entries that wait to be picked up. */
  ghost function Waiting(s: State): set<EntryId>
  {
    set e | e in s.entries && (s.entries[e].delivery == Undelivered || Orphan(s, e))
  }

  /** One pair for each step a live handler still has to take, the acknowledgement included. */
  ghost function StepsLeft(handlers: map<HandlerId, Handler>): set<(HandlerId, int)>
  {
    set h, i | h in handlers && 0 <= i <= Remaining(handlers[h].pc) :: (h, i)
  }

  /** An upper bound on the steady steps from `s`. */
  ghost function Measure(s: State): nat
  {
    11 * |s.backlog| + 10 * |Waiting(s)| + |StepsLeft(s.handlers)|
  }

  lemma SmallerSet<T>(a: set<T>, b: set<T>, x: T)
    requires a <= b && x in b && x !in a
    ensures |a| < |b|
  {
    SubsetSize(a, b);
  }

  lemma MovedShrinks(s: State, r: State, h: HandlerId)
    requires OthersKept(s, r, h) && Remaining(r.handlers[h].pc) < Remaining(s.handlers[h].pc)
    ensures Measure(r) < Measure(s)
  {
    forall e
      ensures e in Waiting(r) <==> e in Waiting(s)
    {
      assert Orphan(r, e) <==> Orphan(s, e) by {
        assert forall k :: k in s.handlers <==> k in r.handlers;
        assert forall k :: k in s.handlers ==> r.handlers[k].entry == s.handlers[k].entry;
      }
    }
    assert Waiting(r) == Waiting(s);
    SmallerSet(StepsLeft(r.handlers), StepsLeft(s.handlers), (h, Remaining(s.handlers[h].pc)));
  }

  lemma AckedShrinks(s: State, r: State, e: EntryId, h: HandlerId)
    requires h in s.handlers && s.handlers[h].entry == e && e in s.entries
    requires r == s.(entries := s.entries[e := s.entries[e].(delivery := Acked)], handlers := s.handlers - {h})
    ensures Measure(r) < Measure(s)
  {
    forall k | k in Waiting(r)
      ensures k in Waiting(s)
    {
      assert k != e && r.entries[k] == s.entries[k];
      if Orphan(r, k) {
        forall x | x in s.handlers
          ensures s.handlers[x].entry != k
        {
          assert x == h || r.handlers[x] == s.handlers[x];
        }
      }
    }
    SubsetSize(Waiting(r), Waiting(s));
    SmallerSet(StepsLeft(r.handlers), StepsLeft(s.handlers), (h, 0));
  }

  lemma PickedUpShrinks(s: State, r: State, e: EntryId, h: HandlerId, w: WorkerId)
    requires e in Waiting(s) && h !in s.handlers
    requires r == s.(entries := s.entries[e := s.entries[e].(delivery := Delivered)],
                     handlers := s.handlers[h := Handler(e, w, Begin)])
    ensures Measure(r) < Measure(s)
  {
    forall k | k in Waiting(r)
      ensures k in Waiting(s) - {e}
    {
      assert r.handlers[h].entry == e;
      if Orphan(r, k) {
        forall x | x in s.handlers
          ensures s.handlers[x].entry != k
        {
          assert r.handlers[x] == s.handlers[x];
        }
      }
    }
    SubsetSize(Waiting(r), Waiting(s) - {e});
    NewSteps(s.handlers, e, h, w);
  }

  lemma NineSteps(h: HandlerId)
    ensures |set i | 0 <= i <= 8 :: (h, i)| <= 9
  {
    var all := set i | 0 <= i <= 8 :: (h, i);
    assert all == {(h, 0), (h, 1), (h, 2), (h, 3), (h, 4), (h, 5), (h, 6), (h, 7), (h, 8)};
  }

  /** A new handler has nine steps to take. */
  lemma NewSteps(handlers: map<HandlerId, Handler>, e: EntryId, h: HandlerId, w: WorkerId)
    requires h !in handlers
    ensures |StepsLeft(handlers[h := Handler(e, w, Begin)])| <= |StepsLeft(handlers)| + 9
  {
    var added := set i | 0 <= i <= 8 :: (h, i);
    NineSteps(h);
    assert StepsLeft(handlers[h := Handler(e, w, Begin)]) == StepsLeft(handlers) + added;
  }

  lemma EnqueuedShrinks(s: State, r: State, id: Uuid, e: EntryId)
    requires id in s.backlog && e !in s.entries
    requires r == s.(backlog := s.backlog - {id}, entries := s.entries[e := Entry(s.backlog[id], Undelivered)])
    ensures Measure(r) < Measure(s)
  {
    assert r.backlog.Keys == s.backlog.Keys - {id};
    forall k | k in Waiting(r)
      ensures k in Waiting(s) + {e}
    {
      if k != e && Orphan(r, k) {
        assert Orphan(s, k);
      }
    }
    SubsetSize(Waiting(r), Waiting(s) + {e});
  }

  lemma DroppedShrinks(s: State, id: Uuid)
    requires id in s.backlog
    ensures Measure(s.(backlog := s.backlog - {id})) < Measure(s)
  {
    var r := s.(backlog := s.backlog - {id});
    assert r.backlog.Keys == s.backlog.Keys - {id};
    forall e
      ensures Orphan(r, e) <==> Orphan(s, e)
    {
    }
    assert Waiting(r) == Waiting(s);
  }

  lemma QueueStepShrinks(cfg: Config, s: State, a: Action)
    requires Enabled(cfg, s, a) && Steady(s, a)
    requires a.Enqueue? || a.DropJob? || a.Deliver? || a.Reclaim?
    ensures Measure(Apply(cfg, s, a)) < Measure(s)
  {
    if a.Enqueue? {
      EnqueuedShrinks(s, Apply(cfg, s, a), a.subtask, a.entry);
    } else if a.DropJob? {
      DroppedShrinks(s, a.subtask);
    } else {
      assert a.Reclaim? ==> s.entries == s.entries[a.entry := s.entries[a.entry].(delivery := Delivered)];
      PickedUpShrinks(s, Apply(cfg, s, a), a.entry, a.handler, a.worker);
    }
  }

  lemma StepShrinks(cfg: Config, s: State, a: Action)
    requires Enabled(cfg, s, a) && Steady(s, a)
    ensures Measure(Apply(cfg, s, a)) < Measure(s)
  {
    if a.Advance? {
      AdvanceShrinks(cfg, s, a.handler, a.response, a.caps);
      MovedShrinks(s, Apply(cfg, s, a), a.handler);
    } else if a.Fail? {
      MovedShrinks(s, Apply(cfg, s, a), a.handler);
    } else if a.Ack? {
      AckedShrinks(s, Apply(cfg, s, a), s.handlers[a.handler].entry, a.handler);
    } else {
      QueueStepShrinks(cfg, s, a);
    }
  }

  /** From any state there are no more steady steps than its measure: with finitely many jobs and without further
      crashes the system comes to rest. */
  lemma {:induction false} SteadyRunIsBounded(cfg: Config, s: State, run: seq<Action>, r: State)
    requires Reaches(cfg, s, run, r) && SteadyRun(cfg, s, run)
    ensures |run| + Measure(r) <= Measure(s)
    decreases |run|
  {
    if run != [] {
      StepShrinks(cfg, s, run[0]);
      SteadyRunIsBounded(cfg, Apply(cfg, s, run[0]), run[1..], r);
    }
  }

  // ---------------------------------------------------------------- at rest

  ghost predicate AtRest(cfg: Config, s: State)
  {
    forall a :: Enabled(cfg, s, a) ==> !Steady(s, a)
  }

  /** Nothing is left to do only when every job is acknowledged and no handler is active. */
  lemma AtRestIsQuiescent(cfg: Config, s: State, w: WorkerId)
    requires Inv(cfg, s) && w in cfg.adapters && AtRest(cfg, s)
    ensures Quiescent(s)
  {
    if !Quiescent(s) {
      var h := 0;
      if s.handlers != map[] {
        h :| h in s.handlers;
      }
      var a, k := NextMove(cfg, s, w, h, 0);
      assert false;
    }
  }

  /** Whatever crashed, failed or was delivered twice before: once only steady steps happen, and none of them loses a
      job of the test or ends a handler of it with an error before its close, the steps run out, and then the test is
      closed with all its subtasks ended. */
  lemma OwedTestWillClose(cfg: Config, s: State, run: seq<Action>, r: State, t: Uuid, w: WorkerId)
    requires Inv(cfg, s) && OwedFor(s, t) && t in s.db.tests && s.db.tests[t].subtaskCount > 0
    requires Reaches(cfg, s, run, r) && SteadyRun(cfg, s, run) && SmoothRun(cfg, s, run, t)
    requires w in cfg.adapters && AtRest(cfg, r)
    ensures |run| <= Measure(s)
    ensures t in r.db.tests && TerminalTask(r.db.tests[t].status)
    ensures forall id :: id in RowsOf(r.db, t) ==> TerminalExec(r.db.subtasks[id].exec)
  {
    SteadyRunIsBounded(cfg, s, run, r);
    RunKeepsInv(cfg, s, run, r);
    RunKeepsOwed(cfg, s, run, r, t);
    AtRestIsQuiescent(cfg, r, w);
    QuiescentIsIdle(r, CloseTest(t));
    IdleMeansDone(cfg, r, t);
  }
}
