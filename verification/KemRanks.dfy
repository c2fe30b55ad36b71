/** What the ranks of the preference judge mean (services/worker/src/kem.rs:37-75), in terms of how a group is
    spelled: classical below everything, and the parameter sizes in a name in their order. */
module KemRanks {
  import opened Text
  import opened Kem

  /** The spelling `m` occurs in the name, in any capitalisation. */
  ghost predicate Mentions(name: string, m: string)
  {
    exists p, q :: Lower(name) == p + m + q
  }

  lemma ContainsMentions(name: string, m: string)
    requires Contains(Lower(name), m)
    ensures Mentions(name, m)
  {
    var s := Lower(name);
    var i :| 0 <= i <= |s| && m <= s[i..];
    var p, q := s[..i], s[i + |m|..];
    assert m == s[i..][..|m|] == s[i..i + |m|];
    InThree(s, i, i + |m|);
    assert s == p + m + q;
  }

  lemma InThree(s: string, i: nat, j: nat)
    requires i <= j <= |s|
    ensures s == s[..i] + s[i..j] + s[j..]
  {
  }

  lemma MentionsContains(name: string, m: string)
    requires Mentions(name, m)
    ensures Contains(Lower(name), m)
  {
    var p, q :| Lower(name) == p + m + q;
    assert Lower(name)[|p|..] == m + q;
  }

  lemma ContainsIsMentions(name: string, m: string)
    ensures Contains(Lower(name), m) <==> Mentions(name, m)
  {
    if Contains(Lower(name), m) { ContainsMentions(name, m); }
    if Mentions(name, m) { MentionsContains(name, m); }
  }

  /** One of the names of the classical curves, in any capitalisation. */
  predicate IsCurve(name: string)
  {
    var g := Lower(name);
    || g == "x25519" || g == "x448"
    || g == "secp256r1" || g == "secp384r1" || g == "secp521r1"
    || g == "prime256v1" || g == "prime384v1" || g == "prime521v1"
    || g == "p-256" || g == "p-384" || g == "p-521"
  }

  lemma CurvesAreClassical(name: string)
    ensures IsClassical(name) <==> IsCurve(name)
  {
  }

  ghost predicate HighMark(name: string) { Mentions(name, "1024") || Mentions(name, "mceliece460896") }

  ghost predicate MidMark(name: string) { Mentions(name, "768") || Mentions(name, "976") }

  ghost predicate LowMark(name: string) { Mentions(name, "512") || Mentions(name, "640") }

  /** A curve is weakest; of the marks in a name the strongest decides; an unmarked name counts as the middle. */
  lemma RankBySpelling(name: string)
    ensures Rank(name) == if IsCurve(name) then 0
                          else if HighMark(name) then 5
                          else if MidMark(name) then 3
                          else if LowMark(name) then 1
                          else 3
  {
    assert Lower(Lower(name)) == Lower(name);
    CurvesAreClassical(name);
    ContainsIsMentions(name, "1024");
    ContainsIsMentions(name, "mceliece460896");
    ContainsIsMentions(name, "768");
    ContainsIsMentions(name, "976");
    ContainsIsMentions(name, "512");
    ContainsIsMentions(name, "640");
  }

  // ---------------------------------------------------------------- at the judge

  /** Two groups are judged by their ranks: the second is a finding exactly when it is stronger. */
  lemma PairFindings(a: string, b: string)
    ensures Findings([a, b]) == if Rank(a) < Rank(b) then [b] else []
  {
    var order := [a, b];
    assert order[..2] == order && order[..1] == [a] && order[..0] == [];
    FindingsStep(order, 0);
    FindingsStep(order, 1);
    assert Misplaced(order, 1) <==> Rank(a) < Rank(b) by {
      if Rank(a) < Rank(b) { assert Rank(order[0]) < Rank(order[1]); }
    }
  }

  ghost predicate StrictlyWeaker(a: string, b: string)
  {
    Rank(a) < Rank(b) && Findings([a, b]) == [b] && Findings([b, a]) == []
  }

  /** A curve, however it is capitalised, is strictly weaker than any name that is not one. */
  lemma CurveIsWeakest(curve: string, name: string)
    requires IsCurve(curve) && !IsCurve(name)
    ensures StrictlyWeaker(curve, name)
  {
    RankBySpelling(curve);
    RankBySpelling(name);
    PairFindings(curve, name);
    PairFindings(name, curve);
  }

  /** Names with marks of different strength only are ordered by them. */
  lemma MarksOrder(low: string, mid: string, high: string)
    requires !IsCurve(low) && LowMark(low) && !MidMark(low) && !HighMark(low)
    requires !IsCurve(mid) && MidMark(mid) && !HighMark(mid)
    requires !IsCurve(high) && HighMark(high)
    ensures StrictlyWeaker(low, mid) && StrictlyWeaker(mid, high) && StrictlyWeaker(low, high)
  {
    RankBySpelling(low);
    RankBySpelling(mid);
    RankBySpelling(high);
    PairFindings(low, mid);
    PairFindings(mid, low);
    PairFindings(mid, high);
    PairFindings(high, mid);
    PairFindings(low, high);
    PairFindings(high, low);
  }

  /** The name around a mark, `p` before and `q` after, is no curve and adds no stronger mark. */
  ghost predicate Plain(p: string, m: string, q: string)
  {
    && !IsCurve(p + m + q)
    && (m != "1024" && m != "mceliece460896" ==> !HighMark(p + m + q))
    && (m == "512" || m == "640" ==> !MidMark(p + m + q))
  }

  lemma MarkIsMentioned(p: string, m: string, q: string)
    requires Lower(m) == m
    ensures Mentions(p + m + q, m)
  {
    assert Lower(p + m + q) == Lower(p) + m + Lower(q);
  }

  lemma MarksAreLower()
    ensures Lower("512") == "512" && Lower("768") == "768" && Lower("1024") == "1024"
    ensures Lower("640") == "640" && Lower("976") == "976" && Lower("mceliece460896") == "mceliece460896"
  {
  }

  /** In one family of names the parameter sizes rank as they should, and the judge goes by them. */
  lemma SizesOrder(p: string, q: string)
    requires Plain(p, "512", q) && Plain(p, "768", q) && Plain(p, "1024", q)
    ensures StrictlyWeaker(p + "512" + q, p + "768" + q)
    ensures StrictlyWeaker(p + "768" + q, p + "1024" + q)
    ensures StrictlyWeaker(p + "512" + q, p + "1024" + q)
  {
    MarksAreLower();
    MarkIsMentioned(p, "512", q);
    MarkIsMentioned(p, "768", q);
    MarkIsMentioned(p, "1024", q);
    MarksOrder(p + "512" + q, p + "768" + q, p + "1024" + q);
  }

  /** The same for the other family of sizes. */
  lemma FrodoSizesOrder(p: string, q: string)
    requires Plain(p, "640", q) && Plain(p, "976", q) && Plain(p, "mceliece460896", q)
    ensures StrictlyWeaker(p + "640" + q, p + "976" + q)
    ensures StrictlyWeaker(p + "976" + q, p + "mceliece460896" + q)
  {
    MarksAreLower();
    MarkIsMentioned(p, "640", q);
    MarkIsMentioned(p, "976", q);
    MarkIsMentioned(p, "mceliece460896", q);
    MarksOrder(p + "640" + q, p + "976" + q, p + "mceliece460896" + q);
  }

  // ---------------------------------------------------------------- a family

  lemma MentionedChar(name: string, m: string, i: nat)
    requires Mentions(name, m) && i < |m|
    ensures m[i] in Lower(name)
  {
    var p, q :| Lower(name) == p + m + q;
    assert Lower(name)[|p| + i] == m[i];
  }

  /** A mark with a character the name lacks does not stand in it. */
  lemma NotThere(name: string, m: string, i: nat)
    requires i < |m| && m[i] !in Lower(name)
    ensures !Mentions(name, m)
  {
    if Mentions(name, m) {
      MentionedChar(name, m, i);
    }
  }

  lemma MlKem512Plain()
    ensures Plain("mlkem", "512", "")
  {
    var name := "mlkem512";
    assert "mlkem" + "512" + "" == name && Lower(name) == name;
    NotThere(name, "1024", 1);
    NotThere(name, "mceliece460896", 1);
    NotThere(name, "768", 0);
    NotThere(name, "976", 0);
  }

  lemma MlKem768Plain()
    ensures Plain("mlkem", "768", "")
  {
    var name := "mlkem768";
    assert "mlkem" + "768" + "" == name && Lower(name) == name;
    NotThere(name, "1024", 1);
    NotThere(name, "mceliece460896", 1);
  }

  lemma MlKem1024Plain()
    ensures Plain("mlkem", "1024", "")
  {
    var name := "mlkem1024";
    assert "mlkem" + "1024" + "" == name && Lower(name) == name;
  }

  lemma X25519IsCurve()
    ensures IsCurve("X25519")
  {
    assert Lower("X25519") == "x25519";
  }

  /** ML-KEM-512 is weaker than ML-KEM-768, and that weaker than ML-KEM-1024. */
  lemma MlKemOrder()
    ensures StrictlyWeaker("mlkem" + "512" + "", "mlkem" + "768" + "")
    ensures StrictlyWeaker("mlkem" + "768" + "", "mlkem" + "1024" + "")
  {
    MlKem512Plain();
    MlKem768Plain();
    MlKem1024Plain();
    SizesOrder("mlkem", "");
  }

  /** X25519 is weaker than the smallest of them. */
  lemma X25519BelowMlKem()
    ensures StrictlyWeaker("X25519", "mlkem" + "512" + "")
  {
    X25519IsCurve();
    MlKem512Plain();
    CurveIsWeakest("X25519", "mlkem" + "512" + "");
  }
}
