/** Status vocabularies, job payloads and events shared by the API and the worker, and the mapping
    from a probe response to the result that is stored. */
module Domain {
  import opened Wrappers
  import opened Text

  type Uuid = nat

  datatype TaskStatus = Pending | Running | Finished | Failed | Cancelled
  datatype ExecStatus = Queued | Running | Finished | Error
  datatype ResultStatus = Pending | Passed | Failed | Unsupported | Disabled
  datatype ReportStatus = Missing | Partial | Complete

  /** One subtask handed to a worker. */
  datatype ProbeJob = ProbeJob(test: Uuid, subtask: Uuid, adapter: string, group: string, sigAlg: string)

  datatype TestEvent =
    | SubtaskUpdated(subtask: Uuid, exec: ExecStatus, result: ResultStatus)
    | TestFinished(test: Uuid, passed: nat, failed: nat)

  /** An adapter's answer: whether the handshake completed and whether any handshake message was captured
      decide a status; the rest of it is `body`, stored as it is. */
  datatype ProbeResponse = ProbeResponse(handshakeSuccess: bool, hasMessages: bool, failedStage: string,
                                         errorSummary: Option<string>, body: string)

  datatype Capabilities = Capabilities(kemGroups: seq<string>, sigAlgs: seq<string>)

  predicate TerminalTask(s: TaskStatus)
  {
    s == TaskStatus.Finished || s == TaskStatus.Failed
  }

  predicate TerminalExec(s: ExecStatus)
  {
    s == ExecStatus.Finished || s == ExecStatus.Error
  }

  /** The adapter lists the name, in some capitalisation. */
  predicate Known(caps: Capabilities, alg: string)
  {
    exists k :: k in caps.kemGroups + caps.sigAlgs && EqIgnoreCase(k, alg)
  }

  lemma KnownMeans(caps: Capabilities, alg: string)
    ensures Known(caps, alg) <==> exists k :: (k in caps.kemGroups || k in caps.sigAlgs) && EqIgnoreCase(k, alg)
  {
    if Known(caps, alg) {
      var k :| k in caps.kemGroups + caps.sigAlgs && EqIgnoreCase(k, alg);
      assert k in caps.kemGroups || k in caps.sigAlgs;
    }
    if exists k :: (k in caps.kemGroups || k in caps.sigAlgs) && EqIgnoreCase(k, alg) {
      var k :| (k in caps.kemGroups || k in caps.sigAlgs) && EqIgnoreCase(k, alg);
      assert k in caps.kemGroups + caps.sigAlgs;
    }
  }

  function Classify(response: ProbeResponse, offered: seq<string>, caps: Capabilities): (r: ResultStatus)
    ensures r == ResultStatus.Unsupported <==> forall a :: a in offered ==> !Known(caps, a)
    ensures r == ResultStatus.Passed ==> response.handshakeSuccess
    ensures r == ResultStatus.Failed ==> !response.handshakeSuccess
    ensures r != ResultStatus.Pending && r != ResultStatus.Disabled
  {
    if !exists a :: a in offered && Known(caps, a) then ResultStatus.Unsupported
    else if response.handshakeSuccess then ResultStatus.Passed
    else ResultStatus.Failed
  }

  /** Why `probe::handle` records an error for a job whose adapter is not configured. */
  function NotEnabled(adapter: string): (reason: string)
  {
    "adapter " + adapter + " is not enabled in this deployment"
  }

  /** What `probe::handle` stores: the classification when the capabilities are available, else the
      raw outcome. */
  function ProbeResult(response: ProbeResponse, job: ProbeJob, caps: Option<Capabilities>): (r: ResultStatus)
    ensures r == ResultStatus.Passed || r == ResultStatus.Failed || r == ResultStatus.Unsupported
    ensures r == ResultStatus.Unsupported <==>
            && caps.Some?
            && forall k :: k in caps.value.kemGroups || k in caps.value.sigAlgs ==>
                 !EqIgnoreCase(k, job.group) && !EqIgnoreCase(k, job.sigAlg)
    ensures r == ResultStatus.Passed <==> r != ResultStatus.Unsupported && response.handshakeSuccess
  {
    match caps
    case Some(c) =>
      KnownMeans(c, job.group);
      KnownMeans(c, job.sigAlg);
      assert [job.group, job.sigAlg][0] == job.group && [job.group, job.sigAlg][1] == job.sigAlg;
      Classify(response, [job.group, job.sigAlg], c)
    case None => if response.handshakeSuccess then ResultStatus.Passed else ResultStatus.Failed
  }
}
