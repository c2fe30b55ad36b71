/** Grading of a submitted results file against an answer key (crates/cavp-validate/src/lib.rs). */
module Cavp {
  import opened Wrappers
  import opened Text
  import opened Json
  import opened Seqs
  import Hex

  // ---------------------------------------------------------------- parameter sets

  datatype ParameterSet = ParameterSet(name: string, pkLen: nat, skLen: nat, sigLen: nat)

  const ML_DSA_44 := ParameterSet("ML-DSA-44", 1312, 2560, 2420)
  const ML_DSA_65 := ParameterSet("ML-DSA-65", 1952, 4032, 3309)
  const ML_DSA_87 := ParameterSet("ML-DSA-87", 2592, 4896, 4627)

  function Lookup(name: string): (r: Option<ParameterSet>)
  {
    if EqIgnoreCase(ML_DSA_44.name, name) then Some(ML_DSA_44)
    else if EqIgnoreCase(ML_DSA_65.name, name) then Some(ML_DSA_65)
    else if EqIgnoreCase(ML_DSA_87.name, name) then Some(ML_DSA_87)
    else None
  }

  // ---------------------------------------------------------------- keys, submissions, reports

  datatype AnswerCase = AnswerCase(tcId: I64, pk: Option<string>, sk: Option<string>, signature: Option<string>,
                                   testPassed: Option<bool>)

  datatype AnswerKey = AnswerKey(vsId: I64, mode: string, parameterSet: string, cases: seq<AnswerCase>)

  datatype SubmittedCase = SubmittedCase(tcId: I64, values: map<string, Value>)

  datatype CaseStatus = Correct | Incorrect | Malformed | Missing

  datatype Reason =
    | NoEntry
    | MissingField
    | EmptyField
    | NotHex
    | WrongLength(got: nat, expected: nat)
    | Mismatch
    | ExpectedBoolean
    | ExpectedTestPassed(want: bool)
    | UnsupportedMode(mode: string)

  datatype CaseResult = CaseResult(tcId: I64, status: CaseStatus, field: Option<string>, reason: Option<Reason>)

  datatype Report = Report(vsId: I64, mode: string, parameterSet: string, total: nat, correct: nat, incorrect: nat,
                           malformed: nat, missing: nat, cases: seq<CaseResult>)
  {
    predicate AllCorrect() { total > 0 && correct == total }
  }

  datatype ValidateError =
    | UnknownParameterSet(name: string)
    | ModeMismatch(gotMode: string, wantMode: string)
    | VsIdMismatch(gotId: I64, wantId: I64)
    | MissingTestGroups

  // ---------------------------------------------------------------- flattening the submission

  /** What one element of a `tests` array contributes: nothing unless it is an object with an integer id. */
  function EntryOf(test: Value): (r: seq<SubmittedCase>)
  {
    if test.Obj? && test.GetI64("tcId").Some? then [SubmittedCase(test.GetI64("tcId").value, test.fields)] else []
  }

  function EntriesOf(tests: seq<Value>): (r: seq<SubmittedCase>)
  {
    FlatMap(EntryOf, tests)
  }

  function GroupEntries(group: Value): (r: seq<SubmittedCase>)
  {
    match group.GetArr("tests")
    case None => []
    case Some(tests) => EntriesOf(tests)
  }

  function Flatten(groups: seq<Value>): (r: seq<SubmittedCase>)
  {
    FlatMap(GroupEntries, groups)
  }

  function Collected(value: Value): (r: Option<seq<SubmittedCase>>)
  {
    match value.GetArr("testGroups")
    case None => None
    case Some(groups) => Some(Flatten(groups))
  }

  /** `collect_cases`. */
  method CollectCases(value: Value) returns (r: Option<seq<SubmittedCase>>)
    ensures r == Collected(value)
  {
    var groups := value.GetArr("testGroups");
    if groups.None? {
      return None;
    }
    var out: seq<SubmittedCase> := [];
    for i := 0 to |groups.value|
      invariant out == Flatten(groups.value[..i])
    {
      FlatMapStep(GroupEntries, groups.value, i);
      var tests := groups.value[i].GetArr("tests");
      if tests.None? {
        continue;
      }
      for j := 0 to |tests.value|
        invariant out == Flatten(groups.value[..i]) + EntriesOf(tests.value[..j])
      {
        FlatMapStep(EntryOf, tests.value, j);
        var test := tests.value[j];
        if !test.Obj? {
          continue;
        }
        var tcId := test.GetI64("tcId");
        if tcId.None? {
          continue;
        }
        out := out + [SubmittedCase(tcId.value, test.fields)];
      }
      assert tests.value[..|tests.value|] == tests.value;
    }
    assert groups.value[..|groups.value|] == groups.value;
    return Some(out);
  }

  // ---------------------------------------------------------------- grading one case

  /** `check_hex`. */
  function CheckHex(tcId: I64, actual: SubmittedCase, field: string, want: string, expectedLen: nat)
    : (r: Result<(), CaseResult>)
  {
    var text := Obj(actual.values).GetStr(field);
    if text.None? then Err(CaseResult(tcId, Malformed, Some(field), Some(MissingField)))
    else
      var got := Trim(text.value);
      if got == [] then Err(CaseResult(tcId, Malformed, Some(field), Some(EmptyField)))
      else
        var bytes := Hex.Decode(got);
        if bytes.None? then Err(CaseResult(tcId, Malformed, Some(field), Some(NotHex)))
        else if |bytes.value| != expectedLen then
          Err(CaseResult(tcId, Malformed, Some(field), Some(WrongLength(|bytes.value|, expectedLen))))
        else if !EqIgnoreCase(got, want) then Err(CaseResult(tcId, Incorrect, Some(field), Some(Mismatch)))
        else Ok(())
  }

  datatype Wanted = Wanted(field: string, want: Option<string>, len: nat)

  /** The fields a mode compares as hex, in the order they are compared. */
  function HexFields(expected: AnswerCase, mode: string, params: ParameterSet): (r: seq<Wanted>)
  {
    if mode == "keyGen" then [Wanted("pk", expected.pk, params.pkLen), Wanted("sk", expected.sk, params.skLen)]
    else if mode == "sigGen" then [Wanted("signature", expected.signature, params.sigLen)]
    else []
  }

  /** One failing field ends the comparison; a field the key leaves unset is skipped. */
  function CheckFields(tcId: I64, actual: SubmittedCase, wanted: seq<Wanted>): (r: Result<(), CaseResult>)
  {
    if wanted == [] then Ok(())
    else if wanted[0].want.None? then CheckFields(tcId, actual, wanted[1..])
    else
      var r := CheckHex(tcId, actual, wanted[0].field, wanted[0].want.value, wanted[0].len);
      if r.Err? then r else CheckFields(tcId, actual, wanted[1..])
  }

  /** `compare_case`. */
  function CompareCase(expected: AnswerCase, actual: SubmittedCase, mode: string, params: ParameterSet): (r: CaseResult)
  {
    var id := expected.tcId;
    var ok := CaseResult(id, Correct, None, None);
    if mode == "keyGen" || mode == "sigGen" then
      var r := CheckFields(id, actual, HexFields(expected, mode, params));
      if r.Err? then r.error else ok
    else if mode == "sigVer" then
      if expected.testPassed.None? then ok
      else
        var want := expected.testPassed.value;
        var got := Obj(actual.values).GetBool("testPassed");
        if got.None? then CaseResult(id, Malformed, Some("testPassed"), Some(ExpectedBoolean))
        else if got.value == want then ok
        else CaseResult(id, Incorrect, Some("testPassed"), Some(ExpectedTestPassed(want)))
    else CaseResult(id, Malformed, None, Some(UnsupportedMode(mode)))
  }

  // ---------------------------------------------------------------- the report

  function FirstWith(cases: seq<SubmittedCase>, tcId: I64): (r: Option<SubmittedCase>)
  {
    if cases == [] then None
    else if cases[0].tcId == tcId then Some(cases[0])
    else FirstWith(cases[1..], tcId)
  }

  function Grade(found: Option<SubmittedCase>, expected: AnswerCase, mode: string, params: ParameterSet)
    : (r: CaseResult)
  {
    if found.None? then CaseResult(expected.tcId, Missing, None, Some(NoEntry))
    else CompareCase(expected, found.value, mode, params)
  }

  function GradeAll(submitted: seq<SubmittedCase>, key: AnswerKey, params: ParameterSet): (r: seq<CaseResult>)
  {
    seq(|key.cases|,
        i requires 0 <= i < |key.cases| =>
          Grade(FirstWith(submitted, key.cases[i].tcId), key.cases[i], key.mode, params))
  }

  function Count(cases: seq<CaseResult>, status: CaseStatus): (n: nat)
  {
    if cases == [] then 0
    else Count(cases[..|cases| - 1], status) + (if cases[|cases| - 1].status == status then 1 else 0)
  }

  function ReportOf(key: AnswerKey, cases: seq<CaseResult>): (r: Report)
  {
    Report(key.vsId, key.mode, key.parameterSet, |cases|, Count(cases, Correct), Count(cases, Incorrect),
           Count(cases, Malformed), Count(cases, Missing), cases)
  }

  /** `validate`, on the parsed text. A `mode` or `vsId` that is absent or of another type is not compared. */
  function Validate(value: Value, key: AnswerKey): (r: Result<Report, ValidateError>)
  {
    var params := Lookup(key.parameterSet);
    var mode := value.GetStr("mode");
    var vsId := value.GetI64("vsId");
    var submitted := Collected(value);
    if params.None? then Err(UnknownParameterSet(key.parameterSet))
    else if mode.Some? && mode.value != key.mode then Err(ModeMismatch(mode.value, key.mode))
    else if vsId.Some? && vsId.value != key.vsId then Err(VsIdMismatch(vsId.value, key.vsId))
    else if submitted.None? then Err(MissingTestGroups)
    else Ok(ReportOf(key, GradeAll(submitted.value, key, params.value)))
  }
}
