# PQC lab: verified model

A Dafny model of the lab's probe protocol, its preference-order judge, its CAVP grading and the codecs around
them, with proofs of what those parts promise. `dafny verify dfyconfig.toml` checks all of it.

## What is modelled

**The PQ-CAS job protocol** (`Domain`, `Store`, `Worker` and the modules named `Protocol`). The API commits a test with
its subtasks and then queues one job a subtask; a consumer group hands entries to workers and lets stale ones be
reclaimed; each handler executes `probe::handle` one database statement or publish at a time. `Protocol` is that as a
transition system: table rows, backlog, stream entries, handlers with a program counter, and published events. Crashes
at any step, handler errors, jobs lost before they are queued, lost acknowledgements, redelivery to a second live
handler, workers with different adapter maps and any interleaving are actions. `Worker.Deployment` is the same code in
imperative form, one method a statement; a handler of it, wherever an error ends it, is shown to be a run of the
protocol.

The safety theorems hold of every run. The progress theorems are about one test at a time: what befalls other tests
does not matter. "No test is stranded" is false of the code, so three things are proved instead: concrete runs that
strand a test; conditions on a run under which none is stranded; and, for every reachable state, that an open test can
still be closed if and only if it is `Workable`, a condition on the state alone (a handler has already decided to close
it, or the close and each outstanding subtask still have a queued job, an un-acknowledged entry or a handler before the
step in question). Where the conditions hold closing is inevitable too: once nothing crashes and nothing new is
submitted, the steps run out after a number bounded by the start state, and then the test is closed.

Two more expectations about closed tests are false of the code, each with runs that show it and the exact condition.
In some run the verdict of a closed test changes, either way, if and only if one worker has its adapter and another
lacks it. A closed test whose subtasks have all ended can show one running again if and only if an entry of it is
un-acknowledged or a handler of it has not marked its subtask yet.

**The preference-order probe** (`Kem`, `KemRanks`). A server is an arbitrary function from offers to replies; an honest
server has a fixed list of preferences (group negotiation, section 4.2.7 of RFC 8446). `KemRanks` says what the ranks of
the judge mean in terms of how a group is spelled.

**CAVP grading** (`Json`, `Cavp`, `CavpGrading`, `Hex`, `Skeleton`). The validator on parsed JSON with the key and
signature lengths of section 4 of FIPS 204 (Table 2), the browser's base16 codec (section 8 of RFC 4648), the results
skeleton and the example the API serves next to it.

**The matrix** (`Matrix`, `MatrixView`). Trimming and deduplication of the selection, row-major expansion, the matrix
read back, and the Previous/Next walk, all after any run of the protocol.

**Two smaller cores.** The Rust and the Go parser of a probed server's HTTP response (`Http`,
`HttpReading`, `HttpAgreement`; sections 4 and 5 of RFC 9112), and the counter-mode filler of the question-pack
generator (`Derive`).

Clocks, networks, databases and TLS stacks are parameters or actions: a probe is an arbitrary response, a query without
a promised order is any sequence with the right members, SHA-256 is any function to 32-byte blocks.

## Where code and documentation disagree

The model follows the code.

- `services/worker/src/stream.rs:3-5` says a probe held by a dead worker is picked up instead of leaving a subtask on
  "running" forever. `ProtocolOutcomes.ErrorStrandsTest` and `ProtocolOutcomes.DuplicateCrashStrandsTest` are runs in
  which that does not happen; `ProtocolClosing.CanCloseIffWorkable` says exactly when it can.
- `services/worker/src/main.rs:109-110` says failures are already recorded on the row. With a single delivery that is
  so if and only if the error comes after the statement that stores the outcome
  (`ProtocolDelivery.ErrorRecordsIffSaved`, `ProtocolOutcomes.ErrorStrandsTest`).
- An adapter missing from the deployment is shown as disabled; the table stores failed. The result shown is the result
  stored if and only if the adapter is configured (`Worker.ShownIsStored`), and a test closes as failed when no worker
  has its adapter (`ProtocolSafety.AgreedVerdict`).
- `services/api/src/routes/tests.rs:60-64` asks for at least one group and one signature algorithm, but looks before
  blank names are dropped (`ProtocolOutcomes.BlankIsAccepted`); such a test stays pending for good
  (`ProtocolOutcomes.BlankSelectionNeverRuns`).
- `apps/web/src/lib/cavp.ts:7-8` says a student who edits only values cannot meet a malformed verdict. Every untouched
  blank is malformed (`Skeleton.UneditedSkeleton`), and so is any value of the wrong length
  (`CavpGrading.CheckHexComparesBytes`).

## Model

| member | source | states |
|---|---|---|
| Domain.Classify | crates/pqcas-domain/src/lib.rs:17-40 | unsupported exactly when the adapter knows none of the offered names in any capitalisation; otherwise the verdict agrees with the handshake; never pending and never disabled |
| Domain.ProbeResult | services/worker/src/probe.rs:54-65 | the stored result is unsupported if and only if capabilities are available and none of their groups and signature algorithms equals the group or the signature algorithm of the job ignoring case; otherwise, and always without capabilities, it is passed if the handshake succeeded and failed if not |
| Matrix.Dedupe | services/api/src/routes/tests.rs:170-177 | the hash-set loop yields the distinct non-blank trimmed names in order of first appearance |
| Matrix.DedupedMembers | services/api/src/routes/tests.rs:170-177 | the result is free of duplicates and holds exactly the non-blank trimmed names |
| Matrix.FirstSeenPrefix | services/api/src/routes/tests.rs:170-177 | later names never reorder or remove what was kept so far |
| Matrix.AcceptedIff | services/api/src/routes/tests.rs:52-80 | a request is accepted if and only if its host is not blank, its port is in range, both lists have an element, its path starts with a slash, the distinct trimmed names make no more cells than the limit, and all of them are known |
| Matrix.RejectedForFirstFault | services/api/src/routes/tests.rs:52-80 | a rejected request has the fault it is rejected for and none of those looked for before it |
| Matrix.Expand | services/api/src/routes/tests.rs:104-115 | the nested loops push, for every ordinal below groups times signature algorithms, the cell in that row and column |
| Matrix.OneCellAccepted | services/api/src/routes/tests.rs:54-80 | any single cell of an accepted selection is acceptable on its own |
| Matrix.RowMajorIndex | services/api/src/routes/tests.rs:109-111 | row and column are recovered from an ordinal by division, so ordinals of distinct cells differ |
| Store.OnlyPendingStarts | services/worker/src/store.rs:18-27 | the guarded mark changes the status exactly of a pending test, to running, and nothing else |
| Store.MarkKeepsResult | services/worker/src/store.rs:10-16 | the unguarded mark makes any subtask outstanding again and keeps its result, its report and both counts of the test |
| Store.SaveEndsSubtask | services/worker/src/store.rs:29-105 | report row and status columns change together: the subtask is ended and no longer outstanding, its report partial exactly when the handshake failed before any message |
| Store.ErrorEndsSubtask | services/worker/src/store.rs:107-122 | an error ends the subtask as errored and failed with its reason, and leaves an earlier report row and stage in place |
| Store.FailedMeansAllErrored | services/worker/src/store.rs:154-161 | the close fails a test exactly when it has subtasks and all of them errored |
| Store.CountsAreRows | services/worker/src/store.rs:136-147 | each of the five numbers of the SELECT is the number of rows it names: passed those with result passed, failed those with result failed or unsupported, outstanding those queued or running |
| Store.SelectTallies | services/worker/src/store.rs:134-152 | nothing outstanding means that every subtask has ended and the totals are the true ones; otherwise there is an unfinished row |
| Worker.Deployment.MarkTestRunning | services/worker/src/store.rs:18-27 | the guarded mark executed in place: the tables are what `OnlyPendingStarts` is about |
| Worker.Deployment.MarkSubtaskRunning | services/worker/src/store.rs:10-16 | the unguarded mark executed in place: the tables are what `MarkKeepsResult` is about |
| Worker.Deployment.SaveReport | services/worker/src/store.rs:29-105 | the transaction executed in place: the tables are what `SaveEndsSubtask` is about |
| Worker.Deployment.MarkSubtaskError | services/worker/src/store.rs:107-122 | the error statement executed in place: the tables are what `ErrorEndsSubtask` is about |
| Worker.Deployment.FinishTestIfDone | services/worker/src/store.rs:129-170 | the new tables and the totals handed back as functions of the old tables; totals that are handed back are the numbers of passed and of failed or unsupported rows of a test whose rows have all ended, and nothing is handed back only while a row is unfinished |
| Worker.Deployment.Finish | services/worker/src/probe.rs:91-102 | the new tables and the published event as functions of the old tables, for every statement at which an error can end it; what is published is at most one finished event, with the true totals |
| Worker.Deployment.Handle | services/worker/src/probe.rs:13-71 | tables and channel after a handler on both branches, for every point at which an error can end it |
| Worker.ShownIsStored | services/worker/src/probe.rs:22-34 | the result shown to subscribers is the result stored exactly when the adapter is configured |
| Worker.StoredAsAnswered | services/worker/src/probe.rs:19-69 | once a handler has stored, its row says what the adapter answered, column by column: the error text of a missing adapter, or the result by capabilities and handshake, the stage, the summary and whether the report is complete; publishing and closing leave it so |
| Worker.HeardTallies | services/worker/src/probe.rs:91-102 | whatever statements fail, a finished event that is heard carries the number of passed rows and the number of failed or unsupported rows, all of them ended |
| Worker.Deployment.AckEntry | services/worker/src/stream.rs:104-107 | only the entry's delivery state changes |
| Worker.Deployment.RunDelivery | services/worker/src/main.rs:91-114 | a delivery is acknowledged whether its handler succeeds or an error ends it at any point, with what was stored and heard until then |
| Worker.LastHandlerCloses | services/worker/src/store.rs:129-170 | an undisturbed handler ends its own subtask and closes an open test exactly when no other subtask of it is outstanding |
| Worker.HandlerIsHandle | services/worker/src/probe.rs:13-71 | the method `Handle` and the protocol's handler left alone do the same to tables and channel, wherever an error ends them |
| Worker.StopAfterIsRun | services/worker/src/probe.rs:13-71 | that handler is a run of the protocol, so every theorem about runs holds of it |
| ProtocolSafety.StepKeepsInv | services/worker/src/store.rs:10-170 | every action keeps the invariant: rows belong to tests, ended rows have results, counts fit, closed tests are settled and their verdicts backed, decided closes and published totals balance; and no action undoes a close or a result |
| ProtocolSafety.RunKeepsInv | services/worker/src/store.rs:10-170 | the same over whole runs |
| ProtocolSafety.JobsAskForTheirCell | services/api/src/routes/tests.rs:136-150 | in every run, each job that is queued, streamed or held asks for the group and signature algorithm of the very subtask it reports on, with the adapter of its test |
| ProtocolSafety.CountsBalance | services/worker/src/store.rs:134-152 | when the SELECT sees nothing outstanding, passed and failed rows partition the subtasks and each has a result |
| ProtocolSafety.VerdictBacked | services/worker/src/store.rs:154-161 | the status computed from such counts is one some worker's configuration can have produced |
| ProtocolSafety.ClosedStaysClosed | services/worker/src/store.rs:154-167 | in every run, a finished or failed test stays finished or failed, with the same subtasks, each with a result |
| ProtocolSafety.AfterCommit | services/api/src/routes/tests.rs:82-134 | what the commit recorded about the selection is there after every later run |
| ProtocolSafety.PublishedTotalsBalance | services/worker/src/probe.rs:91-102 | in every run, the totals of every finished event add up to distinct groups times distinct signature algorithms of the request |
| ProtocolTotals.CountedIsTrue | services/worker/src/store.rs:134-152 | the totals a handler takes along are true of the tables at the moment of its SELECT, at which every subtask of the test has ended |
| ProtocolTotals.PublishedTotalsWereTrue | services/worker/src/probe.rs:91-102 | in every run, with crashes and redeliveries, the two totals of a finished event are the numbers of passed and of failed or unsupported subtasks at some state of the run at which all subtasks of the test had ended |
| ProtocolSafety.VerdictNeedsWorker | services/worker/src/probe.rs:22-34 | with any mix of workers, a failed test needs a worker without its adapter and a finished one a worker with it |
| ProtocolSafety.AgreedVerdict | services/worker/src/store.rs:154-167 | where all workers agree on a test's adapter, whatever else their maps hold, a closed test is failed if and only if none has it, and no later close flips it |
| ProtocolSafety.SharedMapVerdict | services/worker/src/store.rs:154-167 | in particular, with one adapter map for all workers, a closed test is failed if and only if its adapter is not in the map, for good |
| ProtocolVerdicts.WorkerDecides | services/worker/src/store.rs:154-167 | a worker that reclaims the job of a one-cell test, closed or not, can give the test its own verdict and leave the job for the next |
| ProtocolVerdicts.VerdictFlipsIffWorkersDisagree | services/worker/src/store.rs:154-167 | wherever some selection can be accepted for an adapter, a closed test of it can change from failed to finished in some run, and from finished to failed in some run, each if and only if one worker has the adapter and another lacks it |
| ProtocolVerdicts.RunsAgainIffMarkAhead | services/worker/src/store.rs:10-16 | from any reachable state, a test without a running subtask can come to have one if and only if some job of it is queued, un-acknowledged, or held by a handler that has not marked its subtask yet |
| ProtocolVerdicts.ClosedRunsAgainIff | services/worker/src/store.rs:10-16 | a closed test whose subtasks have all ended can show one running again if and only if an entry of it is un-acknowledged or a handler of it has not marked its subtask yet; it stays closed all the while |
| ProtocolDelivery.OneJobEach | services/api/src/routes/tests.rs:136-152 | in every run a subtask has at most one job, in the backlog or in the stream, and is untouched until that job is first delivered |
| ProtocolDelivery.ErrorRecordsIffSaved | services/worker/src/main.rs:105-113 | with a single delivery, a handler error leaves a recorded result if and only if the handler had got past the statement that stores its outcome |
| ProtocolProgress.SelectPassesOn | services/worker/src/store.rs:150-152 | a handler that declines to close leaves behind somebody who owes the test a close |
| ProtocolProgress.StepKeepsOwed | services/worker/src/probe.rs:13-102 | every action that is harmless to a test keeps each outstanding subtask owed an end and the open test owed a close |
| ProtocolProgress.RunKeepsOwed | services/worker/src/main.rs:86-114 | the same over whole runs |
| ProtocolProgress.AllDoneWhenQuiet | services/worker/src/probe.rs:19-69 | with arbitrary live duplicates but no harmful crash or error, once a test's jobs are acknowledged and idle every subtask has ended and the test is closed, unless its selection was blank, although SELECT and UPDATE are separate |
| ProtocolProgress.ExclusiveIsSmooth | services/worker/src/stream.rs:56-102 | if jobs of a test are reclaimed only after their holder died, every crash is harmless to it |
| ProtocolProgress.OpenTestHasJob | services/worker/src/stream.rs:56-107 | then, while a test with a subtask is open, some job of it is still to be queued or un-acknowledged, in every run with crashes at any step |
| ProtocolClosing.AcknowledgedForGood | services/worker/src/main.rs:109-113 | a test or subtask all of whose jobs are acknowledged and past never changes again, in any run |
| ProtocolClosing.StuckForGood | services/worker/src/main.rs:105-113 | unless a close is already decided, one outstanding subtask nobody works for, or no work for the test at all, keeps the test open in every continuation |
| ProtocolClosing.Drain | services/worker/src/main.rs:67-118 | from any reachable state one worker alone can finish everything that is queued or held |
| ProtocolClosing.CanCloseIffWorkable | services/worker/src/stream.rs:1-5 | from any reachable state, an open test can still be closed if and only if it is workable |
| ProtocolClosing.SmoothTestCanClose | services/worker/src/stream.rs:1-5 | under the conditions of `AllDoneWhenQuiet`, whatever crashed, a test with a subtask can be closed |
| ProtocolTermination.SteadyRunIsBounded | services/worker/src/main.rs:67-118 | without new tests, crashes, lost acknowledgements and jobs taken from live holders, a run is no longer than a measure of its start state |
| ProtocolTermination.AtRestIsQuiescent | services/worker/src/main.rs:67-118 | no such step is left only when no job waits to be queued, every entry is acknowledged and no handler is active |
| ProtocolTermination.OwedTestWillClose | services/worker/src/main.rs:67-118 | so every such run that cannot go on, and that harms no handler of a test owed a close, ends with the test closed and its subtasks ended |
| ProtocolOutcomes.ErrorStrandsTest | services/worker/src/main.rs:105-113 | one handler error leaves a reachable state from which the test stays pending, and its subtask untouched, in every continuation |
| ProtocolOutcomes.LostJobStrandsTest | services/api/src/routes/tests.rs:134-152 | a job that is committed but never queued leaves a reachable state from which the test stays pending in every continuation |
| ProtocolOutcomes.ClosedTestRunsAgain | services/worker/src/store.rs:10-16 | a run in which a finished test shows a subtask running again and stays closed |
| ProtocolOutcomes.MixedLabFlips | services/worker/src/probe.rs:22-34 | with two workers of which one lacks the adapter, a closed test flips from failed to finished and from finished to failed |
| ProtocolOutcomes.DuplicateCrashStrandsTest | services/worker/src/store.rs:10-16 | without any error, a duplicate that dies after its twin was acknowledged leaves test and subtask running in every continuation |
| ProtocolOutcomes.BlankSelectionNeverRuns | services/api/src/routes/tests.rs:60-71 | an accepted selection with a blank axis gives a test without subtasks that is pending in every run |
| ProtocolOutcomes.BlankIsAccepted | services/api/src/routes/tests.rs:60-80 | such a selection is indeed accepted |
| ProtocolOutcomes.LabCanClose | services/worker/src/probe.rs:13-102 | closed tests are reachable: a one-cell test just submitted can be closed |
| MatrixView.LayoutStays | services/worker/src/store.rs:10-170 | no run of the workers moves, drops or adds a cell of a test |
| MatrixView.JobsCoverMatrix | services/api/src/routes/tests.rs:117-150 | in whatever order the inserted rows return, every cell has exactly one job and it is the job of the row that holds the cell |
| MatrixView.FetchedIsRowMajor | services/api/src/routes/tests.rs:258-267 | rows fetched in ordinal order are the row-major layout, so ordinals are a bijection onto 0 to n-1 |
| MatrixView.AxesOf | services/api/src/routes/tests.rs:269-279 | the axis loop keeps each name at its first appearance |
| MatrixView.MatrixReadBack | services/api/src/routes/tests.rs:252-297 | reading a laid-out test back gives both axes in the selected order and the cells row by row |
| MatrixView.SelectionReadBack | services/api/src/routes/tests.rs:269-290 | from request to matrix: after any run, both axes are the distinct trimmed names of the request in order |
| MatrixView.NeighbourIsAdjacent | services/api/src/routes/subtasks.rs:54-70 | next and previous are determined, one cell away, and absent exactly at the two ends |
| MatrixView.PreviousUndoesNext | services/api/src/routes/subtasks.rs:56-70 | previous of next is where one came from, wherever ordinals are unique |
| MatrixView.WalkExists | services/api/src/routes/subtasks.rs:54-70 | every test with a subtask has a walk that follows next from ordinal 0 to the end |
| MatrixView.WalkVisitsMatrix | services/api/src/routes/subtasks.rs:54-78 | following next from ordinal 0 visits every subtask once in row-major order, ends at the last, and the position runs from 1 to the total |
| Kem.RankIgnoresCase | services/worker/src/kem.rs:58-75 | a group's level does not depend on its capitalisation |
| Kem.EvaluateOrder | services/worker/src/kem.rs:473-497 | the one-pass scan with two accumulators returns, in order, exactly the groups that have a strictly weaker group before them |
| Kem.FindingsOfPrefix | services/worker/src/kem.rs:473-497 | the findings of a truncated order are a prefix of the findings of the whole |
| Kem.NoFindingsIffNonIncreasing | services/worker/src/kem.rs:473-497 | there is no finding if and only if ranks never rise along the list |
| KemRanks.RankBySpelling | services/worker/src/kem.rs:44-75 | curve names in any capitalisation rank lowest; of the marks that occur in another name the strongest decides; a name without a mark ranks in the middle |
| KemRanks.PairFindings | services/worker/src/kem.rs:473-497 | of two groups the second is a finding if and only if it ranks higher |
| KemRanks.CurveIsWeakest | services/worker/src/kem.rs:37-56 | any curve, however capitalised, is strictly weaker than any other name, and the judge finds exactly that name behind it |
| KemRanks.MarksOrder | services/worker/src/kem.rs:58-70 | names that are no curves are ordered by their strongest mark |
| KemRanks.SizesOrder | services/worker/src/kem.rs:58-70 | for any text before and after that adds no mark, size 512 is strictly weaker than 768 and that than 1024, and the judge reports the stronger behind the weaker and nothing in the other order |
| KemRanks.FrodoSizesOrder | services/worker/src/kem.rs:58-70 | the same for 640, 976 and the strongest other mark |
| Kem.RecoverOrder | services/worker/src/kem.rs:416-436 | the loop computes the recursive recovery, with its probes counted |
| Kem.FirstRound | services/worker/src/kem.rs:416-436 | a refusal or an answer without a group records nothing and ends the loop; a group that was not offered is recorded and ends it; an offered group is recorded and the loop goes on with the offer without it |
| Kem.HonestPicksFirst | services/worker/src/kem.rs:409-412 | an honest server answers with its first preference that is on offer, and with no group if there is none |
| Kem.RecoverBounds | services/worker/src/kem.rs:416-436 | against any server, no more probes or recorded groups than were offered, all recorded groups but possibly the last offered and distinct ignoring case, and every offered group accounted for |
| Kem.RecoversPreferences | services/worker/src/kem.rs:409-436 | against an honest server, the recovered order is its list cut down to the offer and what remains is exactly what it lacks |
| Kem.CleanIffNonIncreasing | services/worker/src/kem.rs:409-455 | an honest server gets no finding for any offer if and only if its own list never rises in rank |
| Hex.DecodesIffAllHex | crates/cavp-validate/src/lib.rs:294-297 | text decodes if and only if it is all hex digits and of even length |
| Hex.HexDigit | crates/cavp-validate/src/lib.rs:294-297 | the sixteen digits and their values, the letters in either case, and nothing else |
| Hex.EqIgnoreCaseIsSameBytes | crates/cavp-validate/src/lib.rs:304-311 | comparing hex text ignoring case is comparing the decoded bytes |
| Hex.DecodeOfBytesToHex | apps/web/src/lib/mldsa.ts:36-40 | what the browser prints decodes to the same bytes |
| Hex.BytesToHexIsUpper | apps/web/src/lib/mldsa.ts:36-40 | what the browser prints is upper-case digits only |
| Hex.StripIgnoresInserted | apps/web/src/lib/mldsa.ts:24 | one white-space character inserted at any position of a text goes again |
| Hex.StrippedHasNoSpaces | apps/web/src/lib/mldsa.ts:24 | no white space is left |
| Hex.IsSpaced | apps/web/src/lib/mldsa.ts:24 | every text is some characters without white space with white space put in |
| Hex.SpacedDigits | apps/web/src/lib/mldsa.ts:24 | a text with any white space before, between and after its characters is read as the text |
| Hex.HexToBytes | apps/web/src/lib/mldsa.ts:23-34 | whatever white space stands before, between and after the characters, the array loop accepts exactly an even number of hex digits, and fills in the bytes they decode to |
| Hex.HexRoundTrip | apps/web/src/lib/mldsa.ts:23-40 | reading back what was printed gives the bytes, whatever white space is put in before, between and after the digits |
| Cavp.CollectCases | crates/cavp-validate/src/lib.rs:182-205 | the nested loops flatten groups and tests in order and skip whatever has no shape |
| CavpGrading.CheckHexComparesBytes | crates/cavp-validate/src/lib.rs:271-313 | for every reference: accepted if and only if the trimmed text decodes to the reference bytes and has the length, malformed if and only if it does not decode to that many bytes, incorrect otherwise |
| CavpGrading.ReasonIsTrue | crates/cavp-validate/src/lib.rs:288-313 | the reason given is the one that holds: no text under the name, nothing but white space, not an even number of hex digits, the number of bytes there are and there should be, or other bytes |
| CavpGrading.RenderedBytesAccepted | crates/cavp-validate/src/lib.rs:288-313 | the browser's rendering of the reference bytes, padded or not, is accepted |
| CavpGrading.CheckFieldsFindsFirst | crates/cavp-validate/src/lib.rs:221-241 | a failure is about the first field that does not hold the reference bytes, with the right one of the two verdicts |
| CavpGrading.CompareMeansMatch | crates/cavp-validate/src/lib.rs:207-269 | a keyGen case is correct if and only if each of `pk` and `sk` that the key sets holds exactly the reference bytes, of the set's key lengths; a sigGen case if and only if `signature` does, of its signature length; a sigVer case if and only if the boolean is the key's or the key sets none; of two failing keys the verdict is about `pk`, and about `sk` if only that fails; no case is reported missing and an unknown mode makes every case malformed |
| CavpGrading.OtherReasons | crates/cavp-validate/src/lib.rs:207-269 | a correct case has no reason, a wrong boolean names the one expected, a missing one says so, and an unknown mode is named |
| CavpGrading.ReportMeansGraded | crates/cavp-validate/src/lib.rs:130-173 | one result a key case in key order, four counts that add up to the total, correct if and only if the first entry for the id answers, missing if and only if there is none, and otherwise the verdict of `CompareMeansMatch` on that first entry |
| CavpGrading.ReportCounts | crates/cavp-validate/src/lib.rs:146-173 | the header is the key's, and each count is the number of results with that status |
| CavpGrading.GradedOrRefused | crates/cavp-validate/src/lib.rs:106-128 | a submission is graded if and only if the key's parameter set exists, its mode and vsId are right or left out, and it has test groups; otherwise the first of these that fails is reported |
| CavpGrading.KnownParameterSets | crates/cavp-validate/src/params.rs:19-47 | three names are known in any capitalisation, with the lengths that the encodings of FIPS 204 come to for their dimensions |
| CavpGrading.AllCorrectMeansAllAnswered | crates/cavp-validate/src/lib.rs:69-73 | all correct if and only if there is a case and the first entry for every case answers it |
| CavpGrading.OnlyFirstEntriesCount | crates/cavp-validate/src/lib.rs:128-144 | beyond mode and vsId a report depends on nothing but the first entry for each key id |
| CavpGrading.ShapelessGroupIsIgnored | crates/cavp-validate/src/lib.rs:187-190 | a group without a tests array changes nothing, wherever it is inserted |
| CavpGrading.OverlookedTestIsIgnored | crates/cavp-validate/src/lib.rs:191-202 | an entry without an id, with an id the key lacks, or after one with the same id changes nothing, wherever it is inserted |
| CavpGrading.EntryIsItself | crates/cavp-validate/src/lib.rs:191-202 | an object with a 64-bit integer `tcId` contributes itself under that id, and anything else contributes nothing |
| CavpGrading.TestWithoutIdIsIgnored | crates/cavp-validate/src/lib.rs:191-202 | anything that is not an object with such an id changes nothing, wherever it is inserted |
| CavpGrading.RegroupingChangesNothing | crates/cavp-validate/src/lib.rs:182-205 | entries with distinct ids may be regrouped and reordered at will |
| Skeleton.KeyRoundTrip | crates/cavp-validate/src/lib.rs:77-104 | an answer key stored as JSON, unset fields left out, is read back unchanged |
| Skeleton.ExampleIsFirst | services/api/src/routes/cavp.rs:69-80 | the example served is the key case with id 1 |
| Skeleton.SkeletonEntry | apps/web/src/lib/cavp.ts:14-39 | the first skeleton entry the validator sees for an id is the blank for that id |
| Skeleton.SkeletonEntries | apps/web/src/lib/cavp.ts:29-45 | the validator sees one entry for each id of the prompt's first group, in order, each the blank for its id |
| Skeleton.FilledBlankIsCorrect | apps/web/src/lib/cavp.ts:19-27 | a blank has just the fields its mode grades: filled in with the key's answers, and nothing added, it is correct |
| Skeleton.BlankIsEmpty | apps/web/src/lib/cavp.ts:19-27 | and nothing is filled in: the texts are empty and the boolean is open |
| Skeleton.UneditedSkeleton | apps/web/src/lib/cavp.ts:10-45 | submitted unedited it validates: id 1 correct, every other case malformed, none missing and none incorrect |
| Skeleton.ComputedSheetIsAllCorrect | crates/cavp-validate/src/lib.rs:106-174 | a student whose local computation yields the reference bytes gets everything right, however the key spells them |
| Http.ReadHeaders | adapters/cli/src/backend.rs:381-389 | the loop reads the headers of the lines before the first blank one |
| Http.ParseHttp | adapters/cli/src/backend.rs:374-398 | status and headers from the first status line in the client's output, or nothing |
| Http.ParseResponse | adapters/go/main.go:368-392 | status and headers of the text before the first blank line, or nothing |
| HttpReading.FindIsFirst | adapters/cli/src/backend.rs:375 | the search finds the first occurrence, and nothing if and only if there is none |
| HttpReading.RustAnswersIff | adapters/cli/src/backend.rs:374-379 | with a first version marker anywhere in the output, the Rust parser answers, with that status, if and only if the line of the marker has a second field that is a 16-bit number |
| HttpReading.NoMarkerNoAnswer | adapters/cli/src/backend.rs:375 | without a version marker it gives nothing |
| HttpReading.GoAnswersIff | adapters/go/main.go:368-374 | the Go parser answers if and only if the text begins with a version |
| HttpReading.U16Iff | adapters/cli/src/backend.rs:379 | the Rust status is digits, perhaps behind a plus sign, up to 65535, and nothing else |
| HttpReading.ScanReadsDigits | adapters/go/main.go:375-379 | the Go status is the leading digits with either sign, whatever follows, or zero out of the 64-bit range |
| HttpReading.StatusesAgree | adapters/go/main.go:375-379 | on any status line the Rust parser accepts, the Go parser reads the same number |
| HttpReading.LineByLine | adapters/cli/src/backend.rs:377 | a line ends at a line feed, one carriage return before it goes too, and the last line needs no end |
| HttpReading.HeaderByColon | adapters/cli/src/backend.rs:386-388 | a header is cut at its first colon and trimmed on both sides, and a line without a colon is none |
| HttpAgreement.ResponseStartsAt | adapters/cli/src/backend.rs:375-376 | the response is found behind any output that holds no status line, and no match straddles the border |
| HttpAgreement.RustReads | adapters/cli/src/backend.rs:374-398 | behind such output, every well-formed response gives back its status and its trimmed headers in order |
| HttpAgreement.GoReads | adapters/go/main.go:368-384 | every well-formed response gives back its status and its trimmed headers in order |
| HttpAgreement.ParsersAgree | adapters/go/main.go:368-384 | the two parsers agree on every well-formed response |
| Derive.Derive | tools/gen-cavp-vectors.mjs:21-31 | the loop ends with exactly the length asked for, byte i being byte i mod 32 of hash block i div 32 |
| Derive.PrintedIsDecimal | tools/gen-cavp-vectors.mjs:26 | a counter is printed as the decimal numeral of its value, without leading zeros |
| Derive.DerivationBegins | tools/gen-cavp-vectors.mjs:21-31 | the first 32 bytes come from the hash of the label with `:0`, the next from that with `:1` |
| Derive.DerivedIsPrefix | tools/gen-cavp-vectors.mjs:21-31 | a derivation is the hash blocks end to end cut to length, so a shorter one is a prefix of a longer one |
| Derive.BlocksHashDifferentTexts | tools/gen-cavp-vectors.mjs:26 | no two blocks, of one label or of two, hash the same text |

## Left out

- Http.ParseHttp: no body excerpt; the two parsers cut it differently and nothing is promised about it.
- Http.ParseResponse: no body excerpt, and the text is characters where Go works on bytes.
- HttpAgreement.GoReads: about the text that was read; `adapters/go/main.go:363` stops reading at 64 KiB, so a response whose head is longer than that does not read back whole.
- Worker.Deployment.RunDelivery: the permits, the batch size of 16 and the two-second blocking read of `tick`; deliveries are independent actions of the protocol, in any order and number. A payload that does not decode is acknowledged like an error before any effect.
- Worker.Deployment.SaveReport: the report's columns are kept as the one response they are taken from; timestamps are not modelled.
- Worker.Deployment.Publish: what subscribers receive; events are appended to one list and no property depends on who listens.
- ProtocolClosing.CanCloseIffWorkable: the consumer group is taken to exist before the first job is queued; `ensure_group` starts a new group at the end of the stream, and entries older than the group are not modelled.
- ProtocolSafety.ClosedStaysClosed: says results and not exec statuses, which can change after the close; `ProtocolVerdicts.ClosedRunsAgainIff` says exactly when.
- ProtocolTermination.OwedTestWillClose: nothing is claimed of runs in which workers keep crashing or live jobs keep being reclaimed; such runs need not come to rest.
- Skeleton.UneditedSkeleton: starts from the value that is printed; printing and parsing JSON text, and numbers a browser cannot hold exactly, are not modelled.
- Skeleton.KeyRoundTrip: reads keys that are JSON objects; `from_value` also takes a struct written as an array, which nothing here writes.
- Decoding of stream entries (`collect`, `field_value`): entries carry their job directly.
- Handler errors are an action at any point; which SQL or Redis failure causes one is not modelled.
- The 32-bit casts of counts and ordinals: the limit on subtasks a test keeps them far below the bound.
- The adapter of a job is recorded with the test row; how `adapter_for` picks it from tool and plugin is a finite table.
- The console, matrix and single-probe modes of KEM runs, and redelivered KEM runs: only the probe loop and its judge are modelled.
- TLS clients, process launching, Redis, Postgres and web plumbing: only their contracts (atomic statement or transaction, pending list of a consumer group, any RETURNING order).
- SHA-256 and ML-DSA: opaque; only block and value lengths matter here.
- Timestamps, timeouts and durations: a reclaim may happen at any time an entry is un-acknowledged.
- React components, translations, deployment files and seed data.
