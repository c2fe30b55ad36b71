/** What a report means: each verdict in terms of the bytes submitted, and what cannot change a report. */
module CavpGrading {
  import opened Wrappers
  import opened Text
  import opened Json
  import opened Seqs
  import opened Cavp
  import Hex

  // ---------------------------------------------------------------- one field

  /** The bytes a submission gives for a field: none when it is absent, not text, blank or not hex. */
  function Answer(actual: SubmittedCase, field: string): (r: Option<seq<Hex.Byte>>)
  {
    var text := Obj(actual.values).GetStr(field);
    if text.None? || Trim(text.value) == [] then None else Hex.Decode(Trim(text.value))
  }

  predicate HasLength(answer: Option<seq<Hex.Byte>>, len: nat)
  {
    answer.Some? && |answer.value| == len
  }

  /** Accepted means the same bytes as the reference; malformed means not as many bytes as the standard
      fixes, whatever the reference holds; anything else is incorrect. */
  lemma CheckHexComparesBytes(tcId: I64, actual: SubmittedCase, field: string, want: string, len: nat)
    ensures var r, answer := CheckHex(tcId, actual, field, want, len), Answer(actual, field);
            && (r.Ok? <==> HasLength(answer, len) && Hex.Decode(want) == answer)
            && (r.Err? ==> r.error.tcId == tcId && r.error.field == Some(field))
            && (r.Err? && r.error.status == Malformed <==> !HasLength(answer, len))
            && (r.Err? && r.error.status == Incorrect <==> HasLength(answer, len) && Hex.Decode(want) != answer)
  {
    var answer := Answer(actual, field);
    if HasLength(answer, len) {
      var got := Trim(Obj(actual.values).GetStr(field).value);
      Hex.EqIgnoreCaseIsSameBytes(got, want);
    }
  }

  /** The reason tells the student what to mend: no text under the name, nothing but white space, text that is not
      hex, the number of bytes there are and there should be, or other bytes than the reference. */
  lemma ReasonIsTrue(tcId: I64, actual: SubmittedCase, field: string, want: string, len: nat)
    requires CheckHex(tcId, actual, field, want, len).Err?
    ensures CheckHex(tcId, actual, field, want, len).error.reason.Some?
    ensures IsReason(CheckHex(tcId, actual, field, want, len).error.reason.value, actual, field, len)
  {
    var text := Obj(actual.values).GetStr(field);
    if text.Some? {
      TrimmedAway(text.value);
      DecodedSize(Trim(text.value));
    }
  }

  lemma DecodedSize(digits: string)
    ensures Hex.Decode(digits).Some? <==> Hex.AllHex(digits) && |digits| % 2 == 0
    ensures Hex.Decode(digits).Some? ==> |Hex.Decode(digits).value| == |digits| / 2 && |digits| % 2 == 0
  {
    Hex.DecodesIffAllHex(digits);
    Hex.DecodeLength(digits);
  }

  predicate IsReason(reason: Reason, actual: SubmittedCase, field: string, len: nat)
  {
    if !(field in actual.values && actual.values[field].Str?) then reason == MissingField
    else
      var text := actual.values[field].s;
      var digits := Trim(text);
      if forall i :: 0 <= i < |text| ==> IsSpace(text[i]) then reason == EmptyField
      else if !Hex.AllHex(digits) || |digits| % 2 != 0 then reason == NotHex
      else if |digits| / 2 != len then reason == WrongLength(|digits| / 2, len)
      else reason == Mismatch
  }

  /** The browser's rendering of the reference bytes is accepted, and so is any padding of it. */
  lemma RenderedBytesAccepted(tcId: I64, actual: SubmittedCase, field: string, want: string, bytes: seq<Hex.Byte>,
                              before: string, after: string)
    requires Hex.Decode(want) == Some(bytes) && bytes != []
    requires forall i :: 0 <= i < |before| ==> IsSpace(before[i])
    requires forall i :: 0 <= i < |after| ==> IsSpace(after[i])
    requires Obj(actual.values).GetStr(field) == Some(before + Hex.BytesToHex(bytes) + after)
    ensures CheckHex(tcId, actual, field, want, |bytes|).Ok?
  {
    var s := Hex.BytesToHex(bytes);
    Hex.DecodeOfBytesToHex(bytes);
    Hex.DecodesIffAllHex(s);
    Hex.DigitsAreNotSpaces(s);
    TrimPadded(before, s, after);
    CheckHexComparesBytes(tcId, actual, field, want, |bytes|);
  }

  // ---------------------------------------------------------------- one case

  /** The field holds exactly the reference bytes, as many as the standard fixes; a field the key leaves unset holds
      anything. */
  predicate Holds(actual: SubmittedCase, field: string, want: Option<string>, len: nat)
  {
    want.None? || (HasLength(Answer(actual, field), len) && Hex.Decode(want.value) == Answer(actual, field))
  }

  /** The result is about this field: malformed without the right number of bytes, else incorrect. */
  predicate Blames(r: CaseResult, actual: SubmittedCase, field: string, len: nat)
  {
    && r.field == Some(field)
    && r.status == (if HasLength(Answer(actual, field), len) then Incorrect else Malformed)
  }

  predicate FieldMatches(actual: SubmittedCase, w: Wanted)
  {
    Holds(actual, w.field, w.want, w.len)
  }

  predicate AllMatchBefore(actual: SubmittedCase, wanted: seq<Wanted>, n: nat)
    requires n <= |wanted|
  {
    forall i :: 0 <= i < n ==> FieldMatches(actual, wanted[i])
  }

  predicate AllMatch(actual: SubmittedCase, wanted: seq<Wanted>)
  {
    AllMatchBefore(actual, wanted, |wanted|)
  }

  /** `wanted[i]` is the field the result `e` is about: the first that fails, with the verdict on it. */
  predicate BlamesField(e: CaseResult, actual: SubmittedCase, w: Wanted)
  {
    !FieldMatches(actual, w) && Blames(e, actual, w.field, w.len)
  }

  ghost predicate BlamesFirst(e: CaseResult, actual: SubmittedCase, wanted: seq<Wanted>)
  {
    exists i: nat :: i < |wanted| && AllMatchBefore(actual, wanted, i) && BlamesField(e, actual, wanted[i])
  }

  lemma FirstFieldChecked(tcId: I64, actual: SubmittedCase, wanted: seq<Wanted>)
    requires wanted != []
    ensures var r, w := CheckFields(tcId, actual, wanted), wanted[0];
            if FieldMatches(actual, w) then r == CheckFields(tcId, actual, wanted[1..])
            else r.Err? && r.error.tcId == tcId && BlamesField(r.error, actual, w)
  {
    var w := wanted[0];
    if w.want.Some? {
      CheckHexComparesBytes(tcId, actual, w.field, w.want.value, w.len);
    }
  }

  lemma BlamesLater(e: CaseResult, actual: SubmittedCase, wanted: seq<Wanted>)
    requires wanted != [] && FieldMatches(actual, wanted[0]) && BlamesFirst(e, actual, wanted[1..])
    ensures BlamesFirst(e, actual, wanted)
  {
    var rest := wanted[1..];
    var i: nat :| i < |rest| && AllMatchBefore(actual, rest, i) && BlamesField(e, actual, rest[i]);
    var j := i + 1;
    assert AllMatchBefore(actual, wanted, j) && BlamesField(e, actual, wanted[j]);
  }

  lemma AllMatchSplit(actual: SubmittedCase, wanted: seq<Wanted>)
    requires wanted != []
    ensures AllMatch(actual, wanted) <==> FieldMatches(actual, wanted[0]) && AllMatch(actual, wanted[1..])
  {
    assert wanted == [wanted[0]] + wanted[1..];
  }

  lemma {:induction false} CheckFieldsFindsFirst(tcId: I64, actual: SubmittedCase, wanted: seq<Wanted>)
    ensures var r := CheckFields(tcId, actual, wanted);
            && (r.Ok? <==> AllMatch(actual, wanted))
            && (r.Err? ==> r.error.tcId == tcId && BlamesFirst(r.error, actual, wanted))
  {
    if wanted != [] {
      FirstFieldChecked(tcId, actual, wanted);
      AllMatchSplit(actual, wanted);
      var r := CheckFields(tcId, actual, wanted);
      if FieldMatches(actual, wanted[0]) {
        CheckFieldsFindsFirst(tcId, actual, wanted[1..]);
        if r.Err? { BlamesLater(r.error, actual, wanted); }
      } else {
        assert AllMatchBefore(actual, wanted, 0) && BlamesField(r.error, actual, wanted[0]);
      }
    }
  }

  /** What it takes for a submission to answer a key case: both keys, the signature, or the boolean. */
  ghost predicate Matches(actual: SubmittedCase, expected: AnswerCase, mode: string, params: ParameterSet)
  {
    if mode == "keyGen" then
      Holds(actual, "pk", expected.pk, params.pkLen) && Holds(actual, "sk", expected.sk, params.skLen)
    else if mode == "sigGen" then Holds(actual, "signature", expected.signature, params.sigLen)
    else mode == "sigVer" &&
         (expected.testPassed.None? || Obj(actual.values).GetBool("testPassed") == expected.testPassed)
  }

  /** Which field a failed case is reported for, and how: of the two keys the public one comes first. */
  ghost predicate FailsOn(r: CaseResult, actual: SubmittedCase, expected: AnswerCase, mode: string,
                          params: ParameterSet)
  {
    if mode == "keyGen" then
      if !Holds(actual, "pk", expected.pk, params.pkLen) then Blames(r, actual, "pk", params.pkLen)
      else Blames(r, actual, "sk", params.skLen)
    else if mode == "sigGen" then Blames(r, actual, "signature", params.sigLen)
    else if mode == "sigVer" then
      && r.field == Some("testPassed")
      && r.status == (if Obj(actual.values).GetBool("testPassed").None? then Malformed else Incorrect)
    else r.field == None && r.status == Malformed
  }

  /** The whole verdict on a submission for a key case. */
  ghost predicate IsVerdict(r: CaseResult, actual: SubmittedCase, expected: AnswerCase, mode: string,
                            params: ParameterSet)
  {
    && r.tcId == expected.tcId
    && (Matches(actual, expected, mode, params) ==> r.status == Correct && r.field == None)
    && (!Matches(actual, expected, mode, params) ==>
          r.status != Correct && r.status != Missing && FailsOn(r, actual, expected, mode, params))
  }

  lemma KeyGenCompared(expected: AnswerCase, actual: SubmittedCase, params: ParameterSet)
    ensures IsVerdict(CompareCase(expected, actual, "keyGen", params), actual, expected, "keyGen", params)
  {
    var pk, sk := Wanted("pk", expected.pk, params.pkLen), Wanted("sk", expected.sk, params.skLen);
    FirstFieldChecked(expected.tcId, actual, [pk, sk]);
    FirstFieldChecked(expected.tcId, actual, [sk]);
    assert [pk, sk][1..] == [sk] && [sk][1..] == [];
  }

  lemma SigGenCompared(expected: AnswerCase, actual: SubmittedCase, params: ParameterSet)
    ensures IsVerdict(CompareCase(expected, actual, "sigGen", params), actual, expected, "sigGen", params)
  {
    var signature := Wanted("signature", expected.signature, params.sigLen);
    FirstFieldChecked(expected.tcId, actual, [signature]);
    assert [signature][1..] == [];
  }

  /** A compared case is correct exactly when it matches, and otherwise the verdict is about the first field that does
      not hold the reference bytes, about the boolean, or about the mode. */
  lemma CompareMeansMatch(expected: AnswerCase, actual: SubmittedCase, mode: string, params: ParameterSet)
    ensures IsVerdict(CompareCase(expected, actual, mode, params), actual, expected, mode, params)
  {
    if mode == "keyGen" {
      KeyGenCompared(expected, actual, params);
    } else if mode == "sigGen" {
      SigGenCompared(expected, actual, params);
    }
  }

  /** The reason given where no hex is compared: a right answer has none. */
  lemma OtherReasons(expected: AnswerCase, actual: SubmittedCase, mode: string, params: ParameterSet)
    ensures var r := CompareCase(expected, actual, mode, params);
            && (r.status == Correct ==> r.reason.None?)
            && (mode == "sigVer" && r.status == Incorrect ==>
                  expected.testPassed.Some? && r.reason == Some(ExpectedTestPassed(expected.testPassed.value)))
            && (mode == "sigVer" && r.status == Malformed ==> r.reason == Some(ExpectedBoolean))
            && (mode !in ["keyGen", "sigGen", "sigVer"] ==> r.reason == Some(UnsupportedMode(mode)))
  {
    if mode == "keyGen" || mode == "sigGen" {
      var wanted := HexFields(expected, mode, params);
      CheckFieldsFindsFirst(expected.tcId, actual, wanted);
    }
  }

  // ---------------------------------------------------------------- the first entry for an id

  predicate IsFirst(cases: seq<SubmittedCase>, j: nat, tcId: I64)
  {
    && j < |cases|
    && cases[j].tcId == tcId
    && forall k :: 0 <= k < j ==> cases[k].tcId != tcId
  }

  predicate Absent(cases: seq<SubmittedCase>, tcId: I64)
  {
    forall j :: 0 <= j < |cases| ==> cases[j].tcId != tcId
  }

  lemma {:induction false} FirstWithFinds(cases: seq<SubmittedCase>, tcId: I64) returns (j: nat)
    ensures FirstWith(cases, tcId).None? <==> Absent(cases, tcId)
    ensures FirstWith(cases, tcId).Some? ==> IsFirst(cases, j, tcId) && FirstWith(cases, tcId) == Some(cases[j])
  {
    j := 0;
    if cases != [] && cases[0].tcId != tcId {
      var k := FirstWithFinds(cases[1..], tcId);
      j := k + 1;
      assert cases == [cases[0]] + cases[1..];
    }
  }

  lemma {:induction false} FirstWithJoined(a: seq<SubmittedCase>, b: seq<SubmittedCase>, tcId: I64)
    ensures FirstWith(a + b, tcId) == if FirstWith(a, tcId).Some? then FirstWith(a, tcId) else FirstWith(b, tcId)
  {
    if a == [] {
      assert a + b == b;
    } else {
      assert (a + b)[1..] == a[1..] + b;
      FirstWithJoined(a[1..], b, tcId);
    }
  }

  // ---------------------------------------------------------------- the whole report

  lemma {:induction false} CountsAddUp(cases: seq<CaseResult>)
    ensures Count(cases, Correct) + Count(cases, Incorrect) + Count(cases, Malformed) + Count(cases, Missing) == |cases|
  {
    if cases != [] {
      CountsAddUp(cases[..|cases| - 1]);
    }
  }

  lemma {:induction false} CountIsAll(cases: seq<CaseResult>, status: CaseStatus)
    ensures Count(cases, status) <= |cases|
    ensures Count(cases, status) == |cases| <==> forall i :: 0 <= i < |cases| ==> cases[i].status == status
  {
    if cases != [] {
      var init := cases[..|cases| - 1];
      CountIsAll(init, status);
      assert cases == init + [cases[|cases| - 1]];
      assert Count(cases, status) == |cases| ==> Count(init, status) == |init|;
      assert (forall i :: 0 <= i < |cases| ==> cases[i].status == status) ==>
             forall i :: 0 <= i < |init| ==> init[i].status == status;
    }
  }

  function With(cases: seq<CaseResult>, status: CaseStatus): (r: set<int>)
  {
    set i | 0 <= i < |cases| && cases[i].status == status
  }

  lemma WithStep(cases: seq<CaseResult>, status: CaseStatus)
    requires cases != []
    ensures var n := |cases| - 1;
            && n !in With(cases[..n], status)
            && With(cases, status) == if cases[n].status == status then With(cases[..n], status) + {n}
                                      else With(cases[..n], status)
  {
  }

  /** A count is the number of results with that status. */
  lemma {:induction false} CountIsNumber(cases: seq<CaseResult>, status: CaseStatus)
    ensures Count(cases, status) == |With(cases, status)|
  {
    if cases == [] {
      assert With(cases, status) == {};
    } else {
      CountIsNumber(cases[..|cases| - 1], status);
      WithStep(cases, status);
    }
  }

  /** The first entry for the id of `expected` answers it. */
  ghost predicate Answered(submitted: seq<SubmittedCase>, expected: AnswerCase, mode: string, params: ParameterSet)
  {
    exists j: nat :: IsFirst(submitted, j, expected.tcId) && Matches(submitted[j], expected, mode, params)
  }

  lemma FirstIsUnique(cases: seq<SubmittedCase>, j: nat, k: nat, tcId: I64)
    requires IsFirst(cases, j, tcId) && IsFirst(cases, k, tcId)
    ensures j == k
  {
  }

  lemma GradeMeansAnswered(submitted: seq<SubmittedCase>, expected: AnswerCase, mode: string, params: ParameterSet)
    ensures var r := Grade(FirstWith(submitted, expected.tcId), expected, mode, params);
            && r.tcId == expected.tcId
            && (r.status == Correct <==> Answered(submitted, expected, mode, params))
            && (r.status == Missing <==> Absent(submitted, expected.tcId))
            && (forall j: nat :: IsFirst(submitted, j, expected.tcId) ==>
                  IsVerdict(r, submitted[j], expected, mode, params))
  {
    var j := FirstWithFinds(submitted, expected.tcId);
    forall k: nat | IsFirst(submitted, k, expected.tcId)
      ensures k == j
    {
      FirstIsUnique(submitted, j, k, expected.tcId);
    }
    var found := FirstWith(submitted, expected.tcId);
    if found.Some? {
      CompareMeansMatch(expected, submitted[j], mode, params);
    }
  }

  /** One result a key case, in key order; every count the number of its results; and each verdict by what the first
      flattened entry for the id holds. */
  lemma ReportMeansGraded(value: Value, key: AnswerKey)
    requires Validate(value, key).Ok?
    ensures Lookup(key.parameterSet).Some? && Collected(value).Some?
    ensures var r, submitted := Validate(value, key).value, Collected(value).value;
            var params := Lookup(key.parameterSet).value;
            && r.total == |r.cases| == |key.cases|
            && r.correct + r.incorrect + r.malformed + r.missing == r.total
            && (forall i :: 0 <= i < |key.cases| ==>
                  && r.cases[i].tcId == key.cases[i].tcId
                  && (r.cases[i].status == Correct <==> Answered(submitted, key.cases[i], key.mode, params))
                  && (r.cases[i].status == Missing <==> Absent(submitted, key.cases[i].tcId)))
    ensures var r, submitted := Validate(value, key).value, Collected(value).value;
            forall i, j: nat :: 0 <= i < |key.cases| && IsFirst(submitted, j, key.cases[i].tcId) ==>
              IsVerdict(r.cases[i], submitted[j], key.cases[i], key.mode, Lookup(key.parameterSet).value)
  {
    var r, submitted, params := Validate(value, key).value, Collected(value).value, Lookup(key.parameterSet).value;
    CountsAddUp(r.cases);
    forall i | 0 <= i < |key.cases|
      ensures r.cases[i].tcId == key.cases[i].tcId
      ensures r.cases[i].status == Correct <==> Answered(submitted, key.cases[i], key.mode, params)
      ensures r.cases[i].status == Missing <==> Absent(submitted, key.cases[i].tcId)
      ensures forall j: nat :: IsFirst(submitted, j, key.cases[i].tcId) ==>
                IsVerdict(r.cases[i], submitted[j], key.cases[i], key.mode, params)
    {
      GradeMeansAnswered(submitted, key.cases[i], key.mode, params);
    }
  }

  /** The four counts and the header of a report. */
  lemma ReportCounts(value: Value, key: AnswerKey)
    requires Validate(value, key).Ok?
    ensures var r := Validate(value, key).value;
            && r.vsId == key.vsId && r.mode == key.mode && r.parameterSet == key.parameterSet
            && r.correct == |set i | 0 <= i < |r.cases| && r.cases[i].status == Correct|
            && r.incorrect == |set i | 0 <= i < |r.cases| && r.cases[i].status == Incorrect|
            && r.malformed == |set i | 0 <= i < |r.cases| && r.cases[i].status == Malformed|
            && r.missing == |set i | 0 <= i < |r.cases| && r.cases[i].status == Missing|
  {
    var cases := Validate(value, key).value.cases;
    CountIsNumber(cases, Correct);
    CountIsNumber(cases, Incorrect);
    CountIsNumber(cases, Malformed);
    CountIsNumber(cases, Missing);
  }

  // ---------------------------------------------------------------- refusals

  /** The submission names a mode, and it is not the key's. */
  predicate WrongMode(value: Value, key: AnswerKey)
  {
    value.Obj? && "mode" in value.fields && value.fields["mode"].Str? && value.fields["mode"].s != key.mode
  }

  /** The submission names a vector set as a 64-bit integer, and it is not the key's. */
  predicate WrongId(value: Value, key: AnswerKey)
  {
    && value.Obj? && "vsId" in value.fields && value.fields["vsId"].Int?
    && -0x8000_0000_0000_0000 <= value.fields["vsId"].n < 0x8000_0000_0000_0000
    && value.fields["vsId"].n != key.vsId
  }

  predicate HasGroups(value: Value)
  {
    value.Obj? && "testGroups" in value.fields && value.fields["testGroups"].Arr?
  }

  /** A submission is graded exactly when the key's parameter set exists, its mode and vector set are right or left out,
      and it has test groups; otherwise the first of these that fails is reported. */
  lemma GradedOrRefused(value: Value, key: AnswerKey)
    ensures var r, known := Validate(value, key), Lookup(key.parameterSet).Some?;
            && (r.Ok? <==> known && !WrongMode(value, key) && !WrongId(value, key) && HasGroups(value))
            && (!known ==> r == Err(UnknownParameterSet(key.parameterSet)))
            && (known && WrongMode(value, key) ==> r == Err(ModeMismatch(value.fields["mode"].s, key.mode)))
            && (known && !WrongMode(value, key) && WrongId(value, key) ==>
                  r == Err(VsIdMismatch(value.fields["vsId"].n, key.vsId)))
            && (known && !WrongMode(value, key) && !WrongId(value, key) && !HasGroups(value) ==>
                  r == Err(MissingTestGroups))
  {
  }

  /** Lengths of an ML-DSA parameter set with matrix dimensions `k` and `l`, `etaBits` bits for a secret coefficient,
      `gammaBits` bits for a masked one, `omega` hints, and a commitment hash of `hash` bytes. */
  predicate HasDimensions(params: ParameterSet, k: nat, l: nat, etaBits: nat, gammaBits: nat, omega: nat, hash: nat)
  {
    && params.pkLen == 32 + 32 * k * 10
    && params.skLen == 128 + 32 * ((k + l) * etaBits + 13 * k)
    && params.sigLen == hash + 32 * l * gammaBits + omega + k
  }

  /** Three names are known, in any capitalisation, with the lengths that the encodings of the standard come to. */
  lemma KnownParameterSets(name: string)
    ensures Lookup(name).Some? <==>
            EqIgnoreCase(name, "ML-DSA-44") || EqIgnoreCase(name, "ML-DSA-65") || EqIgnoreCase(name, "ML-DSA-87")
    ensures EqIgnoreCase(name, "ML-DSA-44") ==> HasDimensions(Lookup(name).value, 4, 4, 3, 18, 80, 32)
    ensures EqIgnoreCase(name, "ML-DSA-65") ==> HasDimensions(Lookup(name).value, 6, 5, 4, 20, 55, 48)
    ensures EqIgnoreCase(name, "ML-DSA-87") ==> HasDimensions(Lookup(name).value, 8, 7, 3, 20, 75, 64)
  {
    assert Lower("ML-DSA-44")[7] == '4' && Lower("ML-DSA-65")[7] == '6' && Lower("ML-DSA-87")[7] == '8';
  }

  /** `all_correct`: there is something to answer, and the first entry for every key case answers it. */
  lemma AllCorrectMeansAllAnswered(value: Value, key: AnswerKey)
    requires Validate(value, key).Ok?
    ensures Lookup(key.parameterSet).Some? && Collected(value).Some?
    ensures Validate(value, key).value.AllCorrect() <==>
            && key.cases != []
            && forall i :: 0 <= i < |key.cases| ==>
                 Answered(Collected(value).value, key.cases[i], key.mode, Lookup(key.parameterSet).value)
  {
    ReportMeansGraded(value, key);
    CountIsAll(Validate(value, key).value.cases, Correct);
  }

  // ---------------------------------------------------------------- what cannot change a report

  predicate SameEnvelope(a: Value, b: Value)
  {
    a.GetStr("mode") == b.GetStr("mode") && a.GetI64("vsId") == b.GetI64("vsId")
  }

  predicate InKey(key: AnswerKey, tcId: I64)
  {
    exists i :: 0 <= i < |key.cases| && key.cases[i].tcId == tcId
  }

  ghost predicate SameFirsts(a: seq<SubmittedCase>, b: seq<SubmittedCase>, key: AnswerKey)
  {
    forall tcId: I64 :: InKey(key, tcId) ==> FirstWith(a, tcId) == FirstWith(b, tcId)
  }

  /** Beyond the envelope, a report depends on the first entry for each key id and on nothing else. */
  lemma OnlyFirstEntriesCount(a: Value, b: Value, key: AnswerKey)
    requires SameEnvelope(a, b) && Collected(a).Some? && Collected(b).Some?
    requires SameFirsts(Collected(a).value, Collected(b).value, key)
    ensures Validate(a, key) == Validate(b, key)
  {
    if Lookup(key.parameterSet).Some? {
      var params := Lookup(key.parameterSet).value;
      forall i | 0 <= i < |key.cases|
        ensures FirstWith(Collected(a).value, key.cases[i].tcId) == FirstWith(Collected(b).value, key.cases[i].tcId)
      {
        assert InKey(key, key.cases[i].tcId);
      }
      assert GradeAll(Collected(a).value, key, params) == GradeAll(Collected(b).value, key, params);
    }
  }

  function Insert<T>(s: seq<T>, i: nat, x: T): (r: seq<T>)
    requires i <= |s|
  {
    s[..i] + [x] + s[i..]
  }

  function WithGroups(value: Value, groups: seq<Value>): (r: Value)
    requires value.Obj?
  {
    Obj(value.fields["testGroups" := Arr(groups)])
  }

  function WithTests(group: Value, tests: seq<Value>): (r: Value)
    requires group.Obj?
  {
    Obj(group.fields["tests" := Arr(tests)])
  }

  lemma WithGroupsShape(value: Value, groups: seq<Value>)
    requires value.Obj?
    ensures SameEnvelope(WithGroups(value, groups), value)
    ensures Collected(WithGroups(value, groups)) == Some(Flatten(groups))
  {
  }

  lemma SkippingNothing(groups: seq<Value>, i: nat, group: Value)
    requires i <= |groups| && GroupEntries(group) == []
    ensures Flatten(Insert(groups, i, group)) == Flatten(groups)
  {
    FlatMapAround(GroupEntries, groups[..i], group, groups[i..]);
    FlatMapJoined(GroupEntries, groups[..i], groups[i..]);
    assert groups[..i] + groups[i..] == groups;
  }

  /** A group without a `tests` array, wherever it stands, changes nothing. */
  lemma ShapelessGroupIsIgnored(value: Value, key: AnswerKey, groups: seq<Value>, i: nat, group: Value)
    requires value.GetArr("testGroups") == Some(groups) && i <= |groups|
    requires group.GetArr("tests").None?
    ensures Validate(WithGroups(value, Insert(groups, i, group)), key) == Validate(value, key)
  {
    var longer := WithGroups(value, Insert(groups, i, group));
    SkippingNothing(groups, i, group);
    WithGroupsShape(value, Insert(groups, i, group));
    OnlyFirstEntriesCount(longer, value, key);
  }

  /** A test entry nobody looks at: no integer id, an id the key lacks, or an id already seen before it. */
  predicate Overlooked(test: Value, before: seq<SubmittedCase>, key: AnswerKey)
  {
    var e := EntryOf(test);
    e == [] || !InKey(key, e[0].tcId) || FirstWith(before, e[0].tcId).Some?
  }

  lemma OverlookedEntry(before: seq<SubmittedCase>, test: Value, after: seq<SubmittedCase>, key: AnswerKey)
    requires Overlooked(test, before, key)
    ensures SameFirsts(before + EntryOf(test) + after, before + after, key)
  {
    var e := EntryOf(test);
    forall tcId: I64 | InKey(key, tcId)
      ensures FirstWith(before + e + after, tcId) == FirstWith(before + after, tcId)
    {
      FirstWithJoined(before + e, after, tcId);
      FirstWithJoined(before, e, tcId);
      FirstWithJoined(before, after, tcId);
    }
  }

  /** The entries before position `i` of group `g`, and those from there on. */
  function Before(groups: seq<Value>, g: nat, tests: seq<Value>, i: nat): (r: seq<SubmittedCase>)
    requires g < |groups| && i <= |tests|
  {
    Flatten(groups[..g]) + EntriesOf(tests[..i])
  }

  function After(groups: seq<Value>, g: nat, tests: seq<Value>, i: nat): (r: seq<SubmittedCase>)
    requires g < |groups| && i <= |tests|
  {
    EntriesOf(tests[i..]) + Flatten(groups[g + 1..])
  }

  lemma SplitAt(groups: seq<Value>, g: nat, tests: seq<Value>, i: nat)
    requires g < |groups| && groups[g].GetArr("tests") == Some(tests) && i <= |tests|
    ensures Flatten(groups) == Before(groups, g, tests, i) + After(groups, g, tests, i)
  {
    assert groups[g := groups[g]] == groups;
    GroupReplaced(groups, g, groups[g]);
    assert tests == tests[..i] + tests[i..];
    FlatMapJoined(EntryOf, tests[..i], tests[i..]);
  }

  lemma SplitAround(groups: seq<Value>, g: nat, tests: seq<Value>, i: nat, test: Value)
    requires g < |groups| && groups[g].GetArr("tests") == Some(tests) && i <= |tests|
    ensures Flatten(groups[g := WithTests(groups[g], Insert(tests, i, test))]) ==
            Before(groups, g, tests, i) + EntryOf(test) + After(groups, g, tests, i)
  {
    var group := WithTests(groups[g], Insert(tests, i, test));
    WithTestsEntries(groups[g], tests, i, test);
    GroupReplaced(groups, g, group);
  }

  lemma WithTestsEntries(group: Value, tests: seq<Value>, i: nat, test: Value)
    requires group.Obj? && i <= |tests|
    ensures GroupEntries(WithTests(group, Insert(tests, i, test))) ==
            EntriesOf(tests[..i]) + EntryOf(test) + EntriesOf(tests[i..])
  {
    FlatMapAround(EntryOf, tests[..i], test, tests[i..]);
  }

  lemma GroupReplaced(groups: seq<Value>, g: nat, group: Value)
    requires g < |groups|
    ensures Flatten(groups[g := group]) == Flatten(groups[..g]) + GroupEntries(group) + Flatten(groups[g + 1..])
  {
    assert groups[g := group] == groups[..g] + [group] + groups[g + 1..];
    FlatMapAround(GroupEntries, groups[..g], group, groups[g + 1..]);
  }

  /** Adding an overlooked test entry anywhere changes nothing. */
  lemma OverlookedTestIsIgnored(value: Value, key: AnswerKey, groups: seq<Value>, g: nat, tests: seq<Value>, i: nat,
                                test: Value)
    requires value.GetArr("testGroups") == Some(groups) && g < |groups|
    requires groups[g].GetArr("tests") == Some(tests) && i <= |tests|
    requires Overlooked(test, Before(groups, g, tests, i), key)
    ensures Validate(WithGroups(value, groups[g := WithTests(groups[g], Insert(tests, i, test))]), key) ==
            Validate(value, key)
  {
    var more := groups[g := WithTests(groups[g], Insert(tests, i, test))];
    var longer := WithGroups(value, more);
    SplitAt(groups, g, tests, i);
    SplitAround(groups, g, tests, i, test);
    OverlookedEntry(Before(groups, g, tests, i), test, After(groups, g, tests, i), key);
    WithGroupsShape(value, more);
    OnlyFirstEntriesCount(longer, value, key);
  }

  ghost predicate DistinctIds(cases: seq<SubmittedCase>)
  {
    forall i, j :: 0 <= i < j < |cases| ==> cases[i].tcId != cases[j].tcId
  }

  /** The test carries an id: it is an object whose `tcId` is an integer of 64 bits. */
  predicate HasId(test: Value)
  {
    && test.Obj? && "tcId" in test.fields && test.fields["tcId"].Int?
    && -0x8000_0000_0000_0000 <= test.fields["tcId"].n < 0x8000_0000_0000_0000
  }

  /** A test with an id contributes itself under that id, and any other contributes nothing. */
  lemma EntryIsItself(test: Value)
    ensures HasId(test) ==> EntryOf(test) == [SubmittedCase(test.fields["tcId"].n, test.fields)]
    ensures !HasId(test) ==> EntryOf(test) == []
  {
  }

  /** Adding a test without an id anywhere changes nothing. */
  lemma TestWithoutIdIsIgnored(value: Value, key: AnswerKey, groups: seq<Value>, g: nat, tests: seq<Value>, i: nat,
                               test: Value)
    requires value.GetArr("testGroups") == Some(groups) && g < |groups|
    requires groups[g].GetArr("tests") == Some(tests) && i <= |tests|
    requires !HasId(test)
    ensures Validate(WithGroups(value, groups[g := WithTests(groups[g], Insert(tests, i, test))]), key) ==
            Validate(value, key)
  {
    EntryIsItself(test);
    OverlookedTestIsIgnored(value, key, groups, g, tests, i, test);
  }

  lemma FoundInLarger(x: seq<SubmittedCase>, y: seq<SubmittedCase>, tcId: I64)
    requires forall e :: e in x ==> e in y
    ensures FirstWith(x, tcId).Some? ==> FirstWith(y, tcId).Some?
  {
    var i := FirstWithFinds(x, tcId);
    var j := FirstWithFinds(y, tcId);
    if FirstWith(x, tcId).Some? {
      assert x[i] in y;
      var k :| 0 <= k < |y| && y[k] == x[i];
      assert !Absent(y, tcId);
    }
  }

  lemma SameWhenDistinct(x: seq<SubmittedCase>, y: seq<SubmittedCase>, tcId: I64)
    requires DistinctIds(x) && forall e :: e in x <==> e in y
    ensures FirstWith(x, tcId) == FirstWith(y, tcId)
  {
    var i := FirstWithFinds(x, tcId);
    var j := FirstWithFinds(y, tcId);
    FoundInLarger(x, y, tcId);
    FoundInLarger(y, x, tcId);
    if FirstWith(y, tcId).Some? {
      assert y[j] in x;
      var k: nat :| k < |x| && x[k] == y[j];
      assert IsFirst(x, k, tcId);
      FirstIsUnique(x, i, k, tcId);
    }
  }

  /** Regrouping or reordering entries with distinct ids changes nothing. */
  lemma RegroupingChangesNothing(a: Value, b: Value, key: AnswerKey)
    requires SameEnvelope(a, b) && Collected(a).Some? && Collected(b).Some?
    requires DistinctIds(Collected(a).value)
    requires forall e :: e in Collected(a).value <==> e in Collected(b).value
    ensures Validate(a, key) == Validate(b, key)
  {
    var x, y := Collected(a).value, Collected(b).value;
    forall tcId: I64 | InKey(key, tcId)
      ensures FirstWith(x, tcId) == FirstWith(y, tcId)
    {
      SameWhenDistinct(x, y, tcId);
    }
    OnlyFirstEntriesCount(a, b, key);
  }
}
