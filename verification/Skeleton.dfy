/** The results file the browser starts a student from, and the one a correct student ends with, seen through
    the validator (apps/web/src/lib/cavp.ts, services/api/src/routes/cavp.rs). */
module Skeleton {
  import opened Wrappers
  import opened Text
  import opened Json
  import opened Seqs
  import opened Cavp
  import opened CavpGrading
  import Hex

  /** The integers a browser number holds exactly. */
  type SafeInt = n: int | -0x1F_FFFF_FFFF_FFFF <= n <= 0x1F_FFFF_FFFF_FFFF

  // ---------------------------------------------------------------- the stored key and its example

  function PutStr(fields: map<string, Value>, name: string, s: Option<string>): (r: map<string, Value>)
  {
    if s.Some? then fields[name := Str(s.value)] else fields
  }

  function PutBool(fields: map<string, Value>, name: string, b: Option<bool>): (r: map<string, Value>)
  {
    if b.Some? then fields[name := Bool(b.value)] else fields
  }

  /** An answer case as it is stored: unset fields are left out. */
  function CaseToJson(c: AnswerCase): (r: Value)
  {
    var id := map["tcId" := Int(c.tcId)];
    var hex := PutStr(PutStr(PutStr(id, "pk", c.pk), "sk", c.sk), "signature", c.signature);
    Obj(PutBool(hex, "testPassed", c.testPassed))
  }

  function KeyToJson(key: AnswerKey): (r: Value)
  {
    Obj(map["vsId" := Int(key.vsId), "mode" := Str(key.mode), "parameterSet" := Str(key.parameterSet),
            "cases" := Arr(seq(|key.cases|, i requires 0 <= i < |key.cases| => CaseToJson(key.cases[i])))])
  }

  /** A field that may be left out or null, and must else be of its type. */
  function OptStr(v: Value, name: string): (r: Option<Option<string>>)
  {
    match v.Get(name)
    case None => Some(None)
    case Some(Null) => Some(None)
    case Some(Str(s)) => Some(Some(s))
    case _ => None
  }

  function OptBool(v: Value, name: string): (r: Option<Option<bool>>)
  {
    match v.Get(name)
    case None => Some(None)
    case Some(Null) => Some(None)
    case Some(Bool(b)) => Some(Some(b))
    case _ => None
  }

  /** `from_value` on an answer case. */
  function CaseFromJson(v: Value): (r: Option<AnswerCase>)
  {
    match (v.GetI64("tcId"), OptStr(v, "pk"), OptStr(v, "sk"), OptStr(v, "signature"), OptBool(v, "testPassed"))
    case (Some(id), Some(pk), Some(sk), Some(signature), Some(testPassed)) =>
      Some(AnswerCase(id, pk, sk, signature, testPassed))
    case _ => None
  }

  function CasesFromJson(items: seq<Value>): (r: Option<seq<AnswerCase>>)
  {
    if items == [] then Some([])
    else
      match (CaseFromJson(items[0]), CasesFromJson(items[1..]))
      case (Some(c), Some(rest)) => Some([c] + rest)
      case _ => None
  }

  /** `from_value` on an answer key. */
  function KeyFromJson(v: Value): (r: Option<AnswerKey>)
  {
    match (v.GetI64("vsId"), v.GetStr("mode"), v.GetStr("parameterSet"), v.GetArr("cases"))
    case (Some(id), Some(mode), Some(parameterSet), Some(items)) =>
      (match CasesFromJson(items)
       case Some(cases) => Some(AnswerKey(id, mode, parameterSet, cases))
       case None => None)
    case _ => None
  }

  lemma CaseRoundTrip(c: AnswerCase)
    ensures CaseFromJson(CaseToJson(c)) == Some(c)
  {
    var v := CaseToJson(c);
    assert v.GetI64("tcId") == Some(c.tcId);
    assert OptStr(v, "pk") == Some(c.pk) && OptStr(v, "sk") == Some(c.sk);
    assert OptStr(v, "signature") == Some(c.signature);
    assert OptBool(v, "testPassed") == Some(c.testPassed);
  }

  lemma {:induction false} CasesRoundTrip(cases: seq<AnswerCase>, stored: seq<Value>)
    requires |stored| == |cases| && forall i :: 0 <= i < |cases| ==> stored[i] == CaseToJson(cases[i])
    ensures CasesFromJson(stored) == Some(cases)
  {
    if cases != [] {
      CaseRoundTrip(cases[0]);
      CasesRoundTrip(cases[1..], stored[1..]);
      assert cases == [cases[0]] + cases[1..];
    }
  }

  /** A key that is stored as JSON is read back unchanged. */
  lemma KeyRoundTrip(key: AnswerKey)
    ensures KeyFromJson(KeyToJson(key)) == Some(key)
  {
    var stored := seq(|key.cases|, i requires 0 <= i < |key.cases| => CaseToJson(key.cases[i]));
    var v := KeyToJson(key);
    CasesRoundTrip(key.cases, stored);
    assert v.GetI64("vsId") == Some(key.vsId) && v.GetStr("mode") == Some(key.mode);
    assert v.GetStr("parameterSet") == Some(key.parameterSet) && v.GetArr("cases") == Some(stored);
  }

  function FirstById(cases: seq<Value>, tcId: I64): (r: Option<Value>)
  {
    if cases == [] then None
    else if cases[0].GetI64("tcId") == Some(tcId) then Some(cases[0])
    else FirstById(cases[1..], tcId)
  }

  /** `example_answer`. */
  function ExampleAnswer(answerKey: Value): (r: Value)
  {
    match answerKey.GetArr("cases")
    case None => Null
    case Some(cases) => match FirstById(cases, 1) case Some(c) => c case None => Null
  }

  // ---------------------------------------------------------------- the skeleton

  datatype Capability = KeyGen | SigGen | SigVer

  datatype PromptGroup = PromptGroup(tgId: SafeInt, tcIds: seq<SafeInt>)

  datatype Prompt = Prompt(algorithm: string, mode: string, revision: string, testGroups: seq<PromptGroup>)

  datatype Pack = Pack(capability: Capability, vsId: SafeInt, prompt: Prompt, example: Value)

  function PromptIds(prompt: Prompt): (r: seq<SafeInt>)
  {
    if prompt.testGroups == [] then [] else prompt.testGroups[0].tcIds
  }

  function EmptyAnswer(capability: Capability): (r: map<string, Value>)
  {
    match capability
    case KeyGen => map["pk" := Str(""), "sk" := Str("")]
    case SigGen => map["signature" := Str("")]
    case SigVer => map["testPassed" := Null]
  }

  /** `blank`: the worked example for id 1 when there is one, an empty answer for every other id. */
  function Blank(pack: Pack, tcId: SafeInt): (r: Value)
  {
    var example := if pack.example.Obj? then pack.example.fields else map[];
    var answer := if tcId == 1 && example != map[] then example - {"tcId"} else EmptyAnswer(pack.capability);
    Obj(answer["tcId" := Int(tcId)])
  }

  function BlankTests(pack: Pack): (r: seq<Value>)
  {
    var ids := PromptIds(pack.prompt);
    seq(|ids|, i requires 0 <= i < |ids| => Blank(pack, ids[i]))
  }

  function Envelope(vsId: I64, algorithm: string, mode: string, revision: string, tgId: int, tests: seq<Value>)
    : (r: Value)
  {
    Obj(map["vsId" := Int(vsId), "algorithm" := Str(algorithm), "mode" := Str(mode), "revision" := Str(revision),
            "testGroups" := Arr([Obj(map["tgId" := Int(tgId), "tests" := Arr(tests)])])])
  }

  /** `buildResultsSkeleton`, before it is printed. */
  function BuildResultsSkeleton(pack: Pack): (r: Value)
  {
    var tgId := if pack.prompt.testGroups == [] then 1 else pack.prompt.testGroups[0].tgId;
    Envelope(pack.vsId, pack.prompt.algorithm, pack.prompt.mode, pack.prompt.revision, tgId, BlankTests(pack))
  }

  lemma EnvelopeShape(vsId: I64, algorithm: string, mode: string, revision: string, tgId: int, tests: seq<Value>)
    ensures var v := Envelope(vsId, algorithm, mode, revision, tgId, tests);
            && v.GetI64("vsId") == Some(vsId) && v.GetStr("mode") == Some(mode)
            && Collected(v) == Some(EntriesOf(tests))
  {
    var group := Obj(map["tgId" := Int(tgId), "tests" := Arr(tests)]);
    var v := Envelope(vsId, algorithm, mode, revision, tgId, tests);
    assert group.GetArr("tests") == Some(tests);
    assert v.GetArr("testGroups") == Some([group]);
    var groups := [group];
    FlatMapStep(GroupEntries, groups, 0);
    assert groups[..1] == groups && groups[..0] == [];
    assert FlatMap(GroupEntries, groups[..0]) == [];
    assert Flatten(groups) == GroupEntries(group) == EntriesOf(tests);
    assert Collected(v) == Some(Flatten(groups));
  }

  /** The skeleton repeats the header of its prompt, and has one group: the prompt's first, or group 1. */
  lemma SkeletonHeader(pack: Pack)
    ensures var v, prompt := BuildResultsSkeleton(pack), pack.prompt;
            && v.GetI64("vsId") == Some(pack.vsId) && v.GetStr("algorithm") == Some(prompt.algorithm)
            && v.GetStr("mode") == Some(prompt.mode) && v.GetStr("revision") == Some(prompt.revision)
            && v.GetArr("testGroups").Some? && |v.GetArr("testGroups").value| == 1
            && var id := v.GetArr("testGroups").value[0].GetI64("tgId");
               if prompt.testGroups == [] then id == Some(1) else id == Some(prompt.testGroups[0].tgId)
  {
  }

  // ---------------------------------------------------------------- a sheet of well-shaped entries

  /** Every test of the sheet is an object with an integer id. */
  predicate Shaped(tests: seq<Value>)
  {
    forall i :: 0 <= i < |tests| ==> tests[i].Obj? && tests[i].GetI64("tcId").Some?
  }

  lemma ShapedEntries(tests: seq<Value>)
    requires Shaped(tests)
    ensures |EntriesOf(tests)| == |tests|
    ensures forall i :: 0 <= i < |tests| ==>
              EntriesOf(tests)[i] == SubmittedCase(tests[i].GetI64("tcId").value, tests[i].fields)
  {
    var entries := seq(|tests|, i requires 0 <= i < |tests| =>
                         SubmittedCase(tests[i].GetI64("tcId").value, tests[i].fields));
    FlatMapSingletons(EntryOf, tests, entries);
  }

  // ---------------------------------------------------------------- well-formed keys

  predicate ReferenceOk(want: Option<string>, len: nat)
  {
    want.Some? && HasLength(Hex.Decode(want.value), len)
  }

  /** The key sets exactly what the mode asks for, as hex of the standard's length. */
  predicate WellFormed(c: AnswerCase, mode: string, params: ParameterSet)
  {
    if mode == "keyGen" then ReferenceOk(c.pk, params.pkLen) && ReferenceOk(c.sk, params.skLen)
    else if mode == "sigGen" then ReferenceOk(c.signature, params.sigLen)
    else mode == "sigVer" && c.testPassed.Some?
  }

  predicate WellFormedKey(key: AnswerKey)
  {
    && Lookup(key.parameterSet).Some?
    && forall i :: 0 <= i < |key.cases| ==> WellFormed(key.cases[i], key.mode, Lookup(key.parameterSet).value)
  }

  // ---------------------------------------------------------------- grading the example

  lemma ReferenceAnswersItself(actual: SubmittedCase, field: string, want: string, len: nat)
    requires ReferenceOk(Some(want), len) && len > 0
    requires Obj(actual.values).GetStr(field) == Some(want)
    ensures Answer(actual, field) == Hex.Decode(want)
  {
    Hex.DecodesIffAllHex(want);
    Hex.DigitsAreNotSpaces(want);
    TrimPadded("", want, "");
    assert "" + want + "" == want;
  }

  lemma LookupLengths(name: string)
    ensures Lookup(name).Some? ==>
              Lookup(name).value.pkLen > 0 && Lookup(name).value.skLen > 0 && Lookup(name).value.sigLen > 0
  {
  }

  /** The example's fields without its id, as the skeleton copies them. */
  function ExampleFields(c: AnswerCase): (r: map<string, Value>)
  {
    (CaseToJson(c).fields - {"tcId"})["tcId" := Int(1)]
  }

  lemma CaseFields(c: AnswerCase)
    ensures CaseToJson(c).GetI64("tcId") == Some(c.tcId)
    ensures CaseToJson(c).GetStr("pk") == c.pk && CaseToJson(c).GetStr("sk") == c.sk
    ensures CaseToJson(c).GetStr("signature") == c.signature && CaseToJson(c).GetBool("testPassed") == c.testPassed
  {
  }

  lemma ExampleKeepsFields(c: AnswerCase)
    ensures var v := Obj(ExampleFields(c));
            && v.GetStr("pk") == c.pk && v.GetStr("sk") == c.sk && v.GetStr("signature") == c.signature
            && v.GetBool("testPassed") == c.testPassed
  {
    CaseFields(c);
  }

  lemma ExampleMatches(c: AnswerCase, mode: string, params: ParameterSet)
    requires WellFormed(c, mode, params) && params.pkLen > 0 && params.skLen > 0 && params.sigLen > 0
    ensures Matches(SubmittedCase(1, ExampleFields(c)), c, mode, params)
  {
    ExampleKeepsFields(c);
    FieldsMatch(SubmittedCase(1, ExampleFields(c)), c, mode, params);
  }

  /** A submission with the key's own text in every field answers the key. */
  lemma FieldsMatch(actual: SubmittedCase, c: AnswerCase, mode: string, params: ParameterSet)
    requires WellFormed(c, mode, params) && params.pkLen > 0 && params.skLen > 0 && params.sigLen > 0
    requires var v := Obj(actual.values);
             && v.GetStr("pk") == c.pk && v.GetStr("sk") == c.sk && v.GetStr("signature") == c.signature
             && v.GetBool("testPassed") == c.testPassed
    ensures Matches(actual, c, mode, params)
  {
    if mode == "keyGen" {
      ReferenceAnswersItself(actual, "pk", c.pk.value, params.pkLen);
      ReferenceAnswersItself(actual, "sk", c.sk.value, params.skLen);
    } else if mode == "sigGen" {
      ReferenceAnswersItself(actual, "signature", c.signature.value, params.sigLen);
    }
  }

  lemma {:induction false} FirstByIdFinds(cases: seq<AnswerCase>, i: nat, stored: seq<Value>)
    requires i < |cases| == |stored| && cases[i].tcId == 1
    requires forall k :: 0 <= k < |cases| ==> stored[k] == CaseToJson(cases[k])
    requires forall k :: 0 <= k < |cases| && cases[k].tcId == 1 ==> cases[k] == cases[i]
    ensures FirstById(stored, 1) == Some(CaseToJson(cases[i]))
  {
    CaseFields(cases[0]);
    if cases[0].tcId != 1 {
      FirstByIdFinds(cases[1..], i - 1, stored[1..]);
    }
  }

  lemma ExampleIsFirst(key: AnswerKey, i: nat)
    requires i < |key.cases| && key.cases[i].tcId == 1
    requires forall k :: 0 <= k < |key.cases| && key.cases[k].tcId == 1 ==> key.cases[k] == key.cases[i]
    ensures ExampleAnswer(KeyToJson(key)) == CaseToJson(key.cases[i])
  {
    var stored := seq(|key.cases|, k requires 0 <= k < |key.cases| => CaseToJson(key.cases[k]));
    assert KeyToJson(key).GetArr("cases") == Some(stored);
    FirstByIdFinds(key.cases, i, stored);
  }

  // ---------------------------------------------------------------- grading the blanks

  lemma BlankHoldsNothing(actual: SubmittedCase, field: string)
    requires Obj(actual.values).GetStr(field).None? || Obj(actual.values).GetStr(field) == Some("")
    ensures Answer(actual, field) == None
  {
    assert Trim("") == "";
  }

  /** The mode a capability is registered under. */
  function ModeOf(capability: Capability): (mode: string)
  {
    match capability
    case KeyGen => "keyGen"
    case SigGen => "sigGen"
    case SigVer => "sigVer"
  }

  /** A student who only fills in the fields a blank has, with the right answers, is right: nothing is missing from it,
      and nothing in it is beside the point. */
  lemma FilledBlankIsCorrect(capability: Capability, c: AnswerCase, params: ParameterSet,
                             answers: map<string, Value>)
    requires WellFormed(c, ModeOf(capability), params)
    requires params.pkLen > 0 && params.skLen > 0 && params.sigLen > 0
    requires answers.Keys == EmptyAnswer(capability).Keys
    requires forall field :: field in answers ==>
               Obj(CaseToJson(c).fields).Get(field) == Some(answers[field])
    ensures CompareCase(c, SubmittedCase(c.tcId, answers["tcId" := Int(c.tcId)]), ModeOf(capability), params).status
            == Correct
  {
    var actual := SubmittedCase(c.tcId, answers["tcId" := Int(c.tcId)]);
    CaseFields(c);
    match capability
    case KeyGen =>
      assert "pk" in answers && "sk" in answers;
      ReferenceAnswersItself(actual, "pk", c.pk.value, params.pkLen);
      ReferenceAnswersItself(actual, "sk", c.sk.value, params.skLen);
      CompareMeansMatch(c, actual, "keyGen", params);
    case SigGen =>
      assert "signature" in answers;
      ReferenceAnswersItself(actual, "signature", c.signature.value, params.sigLen);
      CompareMeansMatch(c, actual, "sigGen", params);
    case SigVer =>
      assert "testPassed" in answers;
      CompareMeansMatch(c, actual, "sigVer", params);
  }

  /** And a blank has nothing filled in: every text is empty and the boolean is open. */
  lemma BlankIsEmpty(capability: Capability, field: string)
    requires field in EmptyAnswer(capability)
    ensures EmptyAnswer(capability)[field] == if field == "testPassed" then Null else Str("")
    ensures field == "pk" || field == "sk" ==> capability == KeyGen
    ensures field == "signature" ==> capability == SigGen
    ensures field == "testPassed" ==> capability == SigVer
    ensures field in {"pk", "sk", "signature", "testPassed"}
  {
  }

  lemma EmptyAnswerIsMalformed(capability: Capability, tcId: I64, c: AnswerCase, mode: string, params: ParameterSet)
    requires WellFormed(c, mode, params) && params.pkLen > 0 && params.skLen > 0 && params.sigLen > 0
    ensures CompareCase(c, SubmittedCase(tcId, EmptyAnswer(capability)["tcId" := Int(tcId)]), mode, params).status
            == Malformed
  {
    var actual := SubmittedCase(tcId, EmptyAnswer(capability)["tcId" := Int(tcId)]);
    BlankHoldsNothing(actual, "pk");
    BlankHoldsNothing(actual, "sk");
    BlankHoldsNothing(actual, "signature");
    CompareMeansMatch(c, actual, mode, params);
  }

  // ---------------------------------------------------------------- the unedited skeleton

  /** The question pack as the API serves it next to `key`. */
  predicate Serves(pack: Pack, key: AnswerKey)
  {
    && pack.vsId == key.vsId
    && pack.prompt.mode == key.mode
    && pack.example == ExampleAnswer(KeyToJson(key))
    && (forall i :: 0 <= i < |key.cases| ==> key.cases[i].tcId in PromptIds(pack.prompt))
    && (forall i, k :: 0 <= i < |key.cases| && 0 <= k < |key.cases| && key.cases[i].tcId == 1 == key.cases[k].tcId ==>
          key.cases[i] == key.cases[k])
  }

  lemma SkeletonEntries(pack: Pack)
    ensures Collected(BuildResultsSkeleton(pack)).Some?
    ensures var entries, ids := Collected(BuildResultsSkeleton(pack)).value, PromptIds(pack.prompt);
            && |entries| == |ids|
            && forall i :: 0 <= i < |ids| ==> entries[i] == SubmittedCase(ids[i], Blank(pack, ids[i]).fields)
  {
    var tgId := if pack.prompt.testGroups == [] then 1 else pack.prompt.testGroups[0].tgId;
    var tests := BlankTests(pack);
    EnvelopeShape(pack.vsId, pack.prompt.algorithm, pack.prompt.mode, pack.prompt.revision, tgId, tests);
    ShapedEntries(tests);
  }

  /** The first skeleton entry for an id is the blank for it. */
  lemma SkeletonEntry(pack: Pack, tcId: I64)
    requires tcId in PromptIds(pack.prompt)
    ensures Collected(BuildResultsSkeleton(pack)).Some?
    ensures FirstWith(Collected(BuildResultsSkeleton(pack)).value, tcId) ==
            Some(SubmittedCase(tcId, Blank(pack, tcId).fields))
  {
    SkeletonEntries(pack);
    var entries, ids := Collected(BuildResultsSkeleton(pack)).value, PromptIds(pack.prompt);
    var j := FirstWithFinds(entries, tcId);
    var k :| 0 <= k < |ids| && ids[k] == tcId;
    assert entries[k].tcId == tcId;
  }

  lemma SkeletonCase(pack: Pack, key: AnswerKey, i: nat)
    requires WellFormedKey(key) && Serves(pack, key) && i < |key.cases|
    ensures Collected(BuildResultsSkeleton(pack)).Some?
    ensures var c := key.cases[i];
            Grade(FirstWith(Collected(BuildResultsSkeleton(pack)).value, c.tcId), c, key.mode,
                  Lookup(key.parameterSet).value).status == if c.tcId == 1 then Correct else Malformed
  {
    var c, params := key.cases[i], Lookup(key.parameterSet).value;
    LookupLengths(key.parameterSet);
    SkeletonEntry(pack, c.tcId);
    var actual := SubmittedCase(c.tcId, Blank(pack, c.tcId).fields);
    if c.tcId == 1 {
      ExampleIsFirst(key, i);
      CaseFields(c);
      assert "tcId" in pack.example.fields;
      assert actual == SubmittedCase(1, ExampleFields(c));
      ExampleMatches(c, key.mode, params);
      CompareMeansMatch(c, actual, key.mode, params);
    } else {
      EmptyAnswerIsMalformed(pack.capability, c.tcId, c, key.mode, params);
    }
  }

  lemma {:induction false} CountNone(cases: seq<CaseResult>, status: CaseStatus)
    requires forall i :: 0 <= i < |cases| ==> cases[i].status != status
    ensures Count(cases, status) == 0
  {
    if cases != [] {
      CountNone(cases[..|cases| - 1], status);
    }
  }

  /** Submitted unedited, the skeleton validates: id 1 is correct, every other case is malformed, none is missing
      and none is incorrect, whatever capability its question pack names. */
  lemma UneditedSkeleton(pack: Pack, key: AnswerKey)
    requires WellFormedKey(key) && Serves(pack, key)
    ensures var r := Validate(BuildResultsSkeleton(pack), key);
            && r.Ok? && |r.value.cases| == |key.cases|
            && r.value.missing == 0 && r.value.incorrect == 0
            && forall i :: 0 <= i < |key.cases| ==>
                 r.value.cases[i].status == if key.cases[i].tcId == 1 then Correct else Malformed
  {
    var skeleton := BuildResultsSkeleton(pack);
    var tgId := if pack.prompt.testGroups == [] then 1 else pack.prompt.testGroups[0].tgId;
    EnvelopeShape(pack.vsId, pack.prompt.algorithm, pack.prompt.mode, pack.prompt.revision, tgId, BlankTests(pack));
    var r := Validate(skeleton, key);
    forall i | 0 <= i < |key.cases|
      ensures r.value.cases[i].status == if key.cases[i].tcId == 1 then Correct else Malformed
    {
      SkeletonCase(pack, key, i);
    }
    CountNone(r.value.cases, Missing);
    CountNone(r.value.cases, Incorrect);
  }

  // ---------------------------------------------------------------- the sheet of a correct student

  /** What the browser's local computation prints for a reference value: the same bytes, rendered again. */
  function Rendered(want: Option<string>): (r: Option<string>)
  {
    if want.Some? && Hex.Decode(want.value).Some? then Some(Hex.BytesToHex(Hex.Decode(want.value).value)) else None
  }

  function Computed(c: AnswerCase): (r: AnswerCase)
  {
    c.(pk := Rendered(c.pk), sk := Rendered(c.sk), signature := Rendered(c.signature))
  }

  function ComputedTests(key: AnswerKey): (r: seq<Value>)
  {
    seq(|key.cases|, i requires 0 <= i < |key.cases| => CaseToJson(Computed(key.cases[i])))
  }

  lemma RenderedAnswers(actual: SubmittedCase, field: string, want: Option<string>, len: nat)
    requires ReferenceOk(want, len) && len > 0
    requires Obj(actual.values).GetStr(field) == Rendered(want)
    ensures Answer(actual, field) == Hex.Decode(want.value)
  {
    var bytes := Hex.Decode(want.value).value;
    Hex.DecodeOfBytesToHex(bytes);
    ReferenceAnswersItself(actual, field, Hex.BytesToHex(bytes), len);
  }

  lemma ComputedMatches(c: AnswerCase, mode: string, params: ParameterSet)
    requires WellFormed(c, mode, params) && params.pkLen > 0 && params.skLen > 0 && params.sigLen > 0
    ensures Matches(SubmittedCase(c.tcId, CaseToJson(Computed(c)).fields), c, mode, params)
  {
    var actual := SubmittedCase(c.tcId, CaseToJson(Computed(c)).fields);
    CaseFields(Computed(c));
    if mode == "keyGen" {
      RenderedAnswers(actual, "pk", c.pk, params.pkLen);
      RenderedAnswers(actual, "sk", c.sk, params.skLen);
    } else if mode == "sigGen" {
      RenderedAnswers(actual, "signature", c.signature, params.sigLen);
    }
  }

  /** A student whose local computation yields the reference bytes for every case gets everything right,
      however the reference itself is written. */
  lemma ComputedSheetIsAllCorrect(key: AnswerKey, algorithm: string, revision: string, tgId: int)
    requires WellFormedKey(key) && key.cases != []
    requires forall i, k :: 0 <= i < k < |key.cases| ==> key.cases[i].tcId != key.cases[k].tcId
    ensures var r := Validate(Envelope(key.vsId, algorithm, key.mode, revision, tgId, ComputedTests(key)), key);
            r.Ok? && r.value.AllCorrect()
  {
    var tests, params := ComputedTests(key), Lookup(key.parameterSet).value;
    var sheet := Envelope(key.vsId, algorithm, key.mode, revision, tgId, tests);
    EnvelopeShape(key.vsId, algorithm, key.mode, revision, tgId, tests);
    LookupLengths(key.parameterSet);
    forall i | 0 <= i < |tests|
      ensures tests[i].Obj? && tests[i].GetI64("tcId") == Some(key.cases[i].tcId)
    {
      CaseFields(Computed(key.cases[i]));
    }
    ShapedEntries(tests);
    var submitted := EntriesOf(tests);
    forall i | 0 <= i < |key.cases|
      ensures Answered(submitted, key.cases[i], key.mode, params)
    {
      ComputedMatches(key.cases[i], key.mode, params);
      assert submitted[i] == SubmittedCase(key.cases[i].tcId, CaseToJson(Computed(key.cases[i])).fields);
      assert IsFirst(submitted, i, key.cases[i].tcId);
    }
    AllCorrectMeansAllAnswered(sheet, key);
  }
}
