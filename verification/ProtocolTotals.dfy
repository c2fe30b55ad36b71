/** What the published totals are totals of: in every run, the numbers in a finished event were once the true ones. */
module ProtocolTotals {
  import opened Wrappers
  import opened Domain
  import opened Store
  import opened Protocol
  import opened ProtocolSafety
  import opened ProtocolProgress
  import opened ProtocolDelivery
  import opened ProtocolClosing

  datatype Claim = Claim(test: Uuid, passed: nat, failed: nat)

  ghost predicate Holds(db: Db, c: Claim)
  {
    Tally(db, c.test, c.passed, c.failed)
  }

  /** A handler that has counted, or closed, carries totals to publish. */
  predicate Carries(job: ProbeJob, pc: Pc, c: Claim)
  {
    match pc
    case Counted(counts) => job.test == c.test && counts.passed == c.passed && counts.failed == c.failed
    case Closed(p, f) => job.test == c.test && p == c.passed && f == c.failed
    case _ => false
  }

  ghost predicate Carried(s: State, c: Claim)
  {
    exists h :: Works(s, h) && Carries(JobOf(s, h), s.handlers[h].pc, c)
  }

  predicate Published(s: State, c: Claim)
  {
    TestFinished(c.test, c.passed, c.failed) in s.events
  }

  /** At the moment of the SELECT the totals a handler takes along are true, and no subtask is outstanding. */
  lemma CountedIsTrue(cfg: Config, db: Db, job: ProbeJob, h: Handler, response: ProbeResponse,
                      caps: Option<Capabilities>, c: Claim)
    requires Carries(job, NextPc(cfg, db, job, h, response, caps), c) && !Carries(job, h.pc, c)
    ensures h.pc.Published? && Holds(db, c)
  {
    SelectTallies(db, job.test);
  }

  /** What is published is what the handler carries. */
  lemma EmittedIsCarried(job: ProbeJob, pc: Pc, c: Claim)
    requires TestFinished(c.test, c.passed, c.failed) in Emitted(job, pc)
    ensures pc.Closed? && Carries(job, pc, c)
  {
  }

  lemma AdvanceClaims(cfg: Config, s: State, h: HandlerId, response: ProbeResponse, caps: Option<Capabilities>,
                      c: Claim)
    requires Works(s, h)
    requires var r := Advanced(cfg, s, h, response, caps);
             Carried(r, c) || Published(r, c)
    ensures Carried(s, c) || Published(s, c) || Holds(s.db, c)
  {
    var r := Advanced(cfg, s, h, response, caps);
    AdvancedShape(cfg, s, h, response, caps);
    if Carries(JobOf(s, h), s.handlers[h].pc, c) {
      assert Carried(s, c);
    } else if Carried(r, c) {
      var k :| Works(r, k) && Carries(JobOf(r, k), r.handlers[k].pc, c);
      if k == h {
        CountedIsTrue(cfg, s.db, JobOf(s, h), s.handlers[h], response, caps, c);
      } else {
        assert Works(s, k) && Carries(JobOf(s, k), s.handlers[k].pc, c);
      }
    } else if !Published(s, c) {
      assert r.events == s.events + Emitted(JobOf(s, h), s.handlers[h].pc);
      EmittedIsCarried(JobOf(s, h), s.handlers[h].pc, c);
    }
  }

  lemma SameCarried(s: State, r: State, c: Claim)
    requires NoneAppears(s, r) && Carried(r, c)
    ensures Carried(s, c)
  {
    var h :| Works(r, h) && Carries(JobOf(r, h), r.handlers[h].pc, c);
    assert SameHandler(s, r, h);
  }

  lemma StreamStepClaims(cfg: Config, s: State, a: Action, c: Claim)
    requires forall h :: h in s.handlers ==> s.handlers[h].entry in s.entries
    requires Enabled(cfg, s, a) && !a.Advance? && (Carried(Apply(cfg, s, a), c) || Published(Apply(cfg, s, a), c))
    ensures Carried(s, c) || Published(s, c)
  {
    if Carried(Apply(cfg, s, a), c) {
      StreamStepAppears(cfg, s, a);
      SameCarried(s, Apply(cfg, s, a), c);
    }
  }

  /** A claim that appears in a step is true where the step starts. */
  lemma StepClaims(cfg: Config, s: State, a: Action, c: Claim)
    requires forall h :: h in s.handlers ==> s.handlers[h].entry in s.entries
    requires Enabled(cfg, s, a) && (Carried(Apply(cfg, s, a), c) || Published(Apply(cfg, s, a), c))
    ensures Carried(s, c) || Published(s, c) || Holds(s.db, c)
  {
    if a.Advance? {
      AdvanceClaims(cfg, s, a.handler, a.response, a.caps, c);
    } else {
      StreamStepClaims(cfg, s, a, c);
    }
  }

  /** The claim is true at some state that the run passes through, its two ends included. */
  ghost predicate OnceTrue(cfg: Config, s: State, run: seq<Action>, c: Claim)
    decreases |run|
  {
    || Tally(s.db, c.test, c.passed, c.failed)
    || (run != [] && Enabled(cfg, s, run[0]) && OnceTrue(cfg, Apply(cfg, s, run[0]), run[1..], c))
  }

  lemma {:induction false} ClaimsWereTrue(cfg: Config, s: State, run: seq<Action>, r: State, c: Claim)
    requires Inv(cfg, s) && Reaches(cfg, s, run, r) && (Carried(r, c) || Published(r, c))
    ensures Carried(s, c) || Published(s, c) || OnceTrue(cfg, s, run, c)
    decreases |run|
  {
    if run != [] {
      var next := Apply(cfg, s, run[0]);
      StepKeepsInv(cfg, s, run[0]);
      ClaimsWereTrue(cfg, next, run[1..], r, c);
      if !OnceTrue(cfg, next, run[1..], c) {
        StepClaims(cfg, s, run[0], c);
      }
    }
  }

  lemma NoClaimsYet(c: Claim)
    ensures !Carried(EMPTY, c) && !Published(EMPTY, c)
  {
  }

  /** In every run, with any crashes and redeliveries, a published finished event carries the numbers of passed and of
      failed or unsupported subtasks that its test had at some moment of the run at which all of them had ended. */
  lemma PublishedTotalsWereTrue(cfg: Config, run: seq<Action>, s: State, i: nat)
    requires Reaches(cfg, EMPTY, run, s) && i < |s.events| && s.events[i].TestFinished?
    ensures OnceTrue(cfg, EMPTY, run, Claim(s.events[i].test, s.events[i].passed, s.events[i].failed))
  {
    var c := Claim(s.events[i].test, s.events[i].passed, s.events[i].failed);
    EmptyInv(cfg);
    NoClaimsYet(c);
    ClaimsWereTrue(cfg, EMPTY, run, s, c);
  }
}
