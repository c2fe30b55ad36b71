/** The preference-order probe of services/worker/src/kem.rs: recovering a server's group order by
    shrinking the offer, and judging the recovered order in one pass. */
module Kem {
  import opened Wrappers
  import opened Text

  // ---------------------------------------------------------------- security ranks

  const CLASSICAL := ["x25519", "x448", "secp256r1", "secp384r1", "secp521r1", "prime256v1", "prime384v1",
                      "prime521v1", "p-256", "p-384", "p-521"]

  predicate IsClassical(group: string)
  {
    Lower(group) in CLASSICAL
  }

  /** The coarse post-quantum level of a group, or nothing for a classical one. */
  function PqLevel(group: string): (level: Option<nat>)
  {
    var g := Lower(group);
    if IsClassical(g) then None
    else if Contains(g, "1024") || Contains(g, "mceliece460896") then Some(5)
    else if Contains(g, "768") || Contains(g, "976") then Some(3)
    else if Contains(g, "512") || Contains(g, "640") then Some(1)
    else Some(3)
  }

  /** Security as one number: classical is weakest, then the post-quantum level. */
  function Rank(group: string): (r: nat)
  {
    match PqLevel(group)
    case None => 0
    case Some(level) => level
  }

  /** Ranks do not depend on how a group is capitalised. */
  lemma RankIgnoresCase(a: string, b: string)
    requires EqIgnoreCase(a, b)
    ensures Rank(a) == Rank(b)
  {
  }

  lemma LevelsArePositive(group: string)
    ensures PqLevel(group).Some? ==> PqLevel(group).value > 0
    ensures PqLevel(group) == None <==> Rank(group) == 0
  {
  }

  // ---------------------------------------------------------------- judging an order

  /** Group `i` sits behind something weaker than itself. */
  ghost predicate Misplaced(order: seq<string>, i: nat)
    requires i < |order|
  {
    exists j :: 0 <= j < i && Rank(order[j]) < Rank(order[i])
  }

  /** The misplaced groups, in order. */
  ghost function Findings(order: seq<string>): (r: seq<string>)
  {
    if order == [] then []
    else
      var n := |order| - 1;
      Findings(order[..n]) + if Misplaced(order, n) then [order[n]] else []
  }

  ghost predicate NonIncreasing(order: seq<string>)
  {
    forall i, j :: 0 <= i < j < |order| ==> Rank(order[j]) <= Rank(order[i])
  }

  lemma FindingsStep(order: seq<string>, i: nat)
    requires i < |order|
    ensures Findings(order[..i + 1]) == Findings(order[..i]) + if Misplaced(order, i) then [order[i]] else []
  {
    var prefix := order[..i + 1];
    assert prefix[..i] == order[..i];
    assert Misplaced(prefix, i) <==> Misplaced(order, i) by {
      if Misplaced(order, i) {
        var j :| 0 <= j < i && Rank(order[j]) < Rank(order[i]);
        assert Rank(prefix[j]) < Rank(prefix[i]);
      }
    }
  }

  /** Something among the first `n` groups is weaker than `level`. */
  ghost predicate Weaker(order: seq<string>, n: nat, level: nat)
    requires n <= |order|
  {
    exists j :: 0 <= j < n && Rank(order[j]) < level
  }

  lemma WeakerStep(order: seq<string>, n: nat, level: nat)
    requires n < |order|
    ensures Weaker(order, n + 1, level) <==> Weaker(order, n, level) || Rank(order[n]) < level
  {
    if Weaker(order, n, level) {
      var j :| 0 <= j < n && Rank(order[j]) < level;
    }
  }

  /** What the accumulators of the scan answer for a group of the given level. */
  predicate Behind(seenClassical: bool, best: Option<nat>, level: nat)
  {
    seenClassical || (best.Some? && level > best.value)
  }

  /** The accumulators answer rightly for every level after `n` groups. */
  ghost predicate Agrees(order: seq<string>, n: nat, seenClassical: bool, best: Option<nat>)
    requires n <= |order|
  {
    && (best.Some? ==> best.value > 0)
    && forall level: nat {:trigger Weaker(order, n, level)} ::
         level > 0 ==> (Behind(seenClassical, best, level) <==> Weaker(order, n, level))
  }

  lemma ClassicalStep(order: seq<string>, n: nat, seenClassical: bool, best: Option<nat>)
    requires n < |order| && Agrees(order, n, seenClassical, best) && Rank(order[n]) == 0
    ensures Agrees(order, n + 1, true, best)
  {
    var m := n + 1;
    forall level: nat | level > 0
      ensures Behind(true, best, level) <==> Weaker(order, m, level)
    {
      WeakerStep(order, n, level);
    }
  }

  function Lowest(best: Option<nat>, level: nat): Option<nat>
  {
    match best
    case None => Some(level)
    case Some(b) => Some(if b < level then b else level)
  }

  lemma PqStep(order: seq<string>, n: nat, seenClassical: bool, best: Option<nat>)
    requires n < |order| && Agrees(order, n, seenClassical, best) && Rank(order[n]) > 0
    ensures Agrees(order, n + 1, seenClassical, Lowest(best, Rank(order[n])))
  {
    var m, best' := n + 1, Lowest(best, Rank(order[n]));
    forall level: nat | level > 0
      ensures Behind(seenClassical, best', level) <==> Weaker(order, m, level)
    {
      WeakerStep(order, n, level);
      assert Behind(seenClassical, best, level) <==> Weaker(order, n, level);
    }
  }

  lemma BehindIsMisplaced(order: seq<string>, n: nat, seenClassical: bool, best: Option<nat>)
    requires n < |order| && Agrees(order, n, seenClassical, best) && Rank(order[n]) > 0
    ensures Behind(seenClassical, best, Rank(order[n])) <==> Misplaced(order, n)
  {
    assert Weaker(order, n, Rank(order[n])) <==> Misplaced(order, n);
  }

  lemma ClassicalInPlace(order: seq<string>, n: nat)
    requires n < |order| && Rank(order[n]) == 0
    ensures !Misplaced(order, n)
  {
  }

  /** The one-pass scan with its two accumulators finds exactly the misplaced groups. */
  method EvaluateOrder(order: seq<string>) returns (findings: seq<string>)
    ensures findings == Findings(order)
  {
    findings := [];
    var seenClassical := false;
    var bestPqSoFar: Option<nat> := None;
    for i := 0 to |order|
      invariant findings == Findings(order[..i])
      invariant Agrees(order, i, seenClassical, bestPqSoFar)
    {
      FindingsStep(order, i);
      LevelsArePositive(order[i]);
      match PqLevel(order[i])
      case None =>
        ClassicalInPlace(order, i);
        ClassicalStep(order, i, seenClassical, bestPqSoFar);
        seenClassical := true;
      case Some(level) =>
        BehindIsMisplaced(order, i, seenClassical, bestPqSoFar);
        PqStep(order, i, seenClassical, bestPqSoFar);
        var behindClassical := seenClassical;
        var behindWeakerPq := bestPqSoFar.Some? && level > bestPqSoFar.value;
        if behindClassical || behindWeakerPq {
          findings := findings + [order[i]];
        }
        bestPqSoFar := Lowest(bestPqSoFar, level);
    }
    assert order[..|order|] == order;
  }

  /** Judging a truncated order never invents a finding. */
  lemma {:induction false} FindingsOfPrefix(order: seq<string>, n: nat)
    requires n <= |order|
    ensures Findings(order[..n]) <= Findings(order)
  {
    if n == |order| {
      assert order[..n] == order;
    } else {
      var init := order[..|order| - 1];
      FindingsOfPrefix(init, n);
      assert init[..n] == order[..n];
    }
  }

  lemma NonIncreasingStep(order: seq<string>)
    requires order != []
    ensures var n := |order| - 1;
            NonIncreasing(order) <==> NonIncreasing(order[..n]) && !Misplaced(order, n)
  {
    var n := |order| - 1;
    if NonIncreasing(order[..n]) && !Misplaced(order, n) {
      forall i, j | 0 <= i < j < |order|
        ensures Rank(order[j]) <= Rank(order[i])
      {
        if j < n { assert Rank(order[..n][j]) <= Rank(order[..n][i]); }
      }
    }
  }

  /** No finding means exactly that security never rises along the list. */
  lemma {:induction false} NoFindingsIffNonIncreasing(order: seq<string>)
    ensures Findings(order) == [] <==> NonIncreasing(order)
  {
    if order != [] {
      NoFindingsIffNonIncreasing(order[..|order| - 1]);
      NonIncreasingStep(order);
    }
  }

  // ---------------------------------------------------------------- recovering an order

  /** What a server answers to an offer: no handshake, a handshake with no group reported, or a group. */
  datatype Reply = Refused | NoGroup | Chose(group: string)

  type Server = seq<string> -> Reply

  function Without(offer: seq<string>, group: string): (r: seq<string>)
    ensures |r| <= |offer|
    ensures forall g :: g in r <==> g in offer && !EqIgnoreCase(g, group)
  {
    if offer == [] then []
    else
      var rest := Without(offer[1..], group);
      if EqIgnoreCase(offer[0], group) then rest else [offer[0]] + rest
  }

  /** The loop's final values: what was recorded, what is left of the offer, how many probes were made. */
  datatype Outcome = Outcome(order: seq<string>, remaining: seq<string>, probes: nat)

  /** The loop from an offer on. */
  function Recover(server: Server, remaining: seq<string>): (r: Outcome)
    decreases |remaining|
  {
    if remaining == [] then Outcome([], [], 0)
    else
      match server(remaining)
      case Refused => Outcome([], remaining, 1)
      case NoGroup => Outcome([], remaining, 1)
      case Chose(group) =>
        var rest := Without(remaining, group);
        if |rest| == |remaining| then Outcome([group], rest, 1)
        else
          var tail := Recover(server, rest);
          Outcome([group] + tail.order, tail.remaining, 1 + tail.probes)
  }

  method RecoverOrder(server: Server, offered: seq<string>) returns (r: Outcome)
    ensures r == Recover(server, offered)
  {
    var remaining := offered;
    var order: seq<string> := [];
    var probes := 0;
    while remaining != []
      invariant Recover(server, offered) ==
                var tail := Recover(server, remaining);
                Outcome(order + tail.order, tail.remaining, probes + tail.probes)
      decreases |remaining|
    {
      probes := probes + 1;
      var reply := server(remaining);
      if !reply.Chose? {
        return Outcome(order, remaining, probes);
      }
      order := order + [reply.group];
      var before := |remaining|;
      remaining := Without(remaining, reply.group);
      if |remaining| == before {
        return Outcome(order, remaining, probes);
      }
    }
    return Outcome(order, [], probes);
  }

  /** Element by element, `retain` drops the names equal to the group and keeps the others in place. */
  lemma {:induction false} WithoutJoined(a: seq<string>, b: seq<string>, group: string)
    ensures Without(a + b, group) == Without(a, group) + Without(b, group)
  {
    if a == [] {
      assert a + b == b;
    } else {
      assert (a + b)[1..] == a[1..] + b;
      WithoutJoined(a[1..], b, group);
    }
  }

  lemma WithoutOne(name: string, group: string)
    ensures Without([name], group) == if EqIgnoreCase(name, group) then [] else [name]
  {
  }

  lemma {:induction false} NotOfferedKeepsAll(offer: seq<string>, group: string)
    requires forall x :: x in offer ==> !EqIgnoreCase(x, group)
    ensures Without(offer, group) == offer
  {
    if offer != [] {
      NotOfferedKeepsAll(offer[1..], group);
    }
  }

  /** The first round: no group ends the loop with nothing recorded; a group that was not offered is recorded and ends
      it; an offered group is recorded and the loop goes on without it. */
  lemma FirstRound(server: Server, offered: seq<string>)
    requires offered != []
    ensures Recover(server, []) == Outcome([], [], 0)
    ensures var r, reply := Recover(server, offered), server(offered);
            && (!reply.Chose? ==> r == Outcome([], offered, 1))
            && (reply.Chose? && (forall x :: x in offered ==> !EqIgnoreCase(x, reply.group)) ==>
                  r == Outcome([reply.group], offered, 1))
            && (reply.Chose? && (exists x :: x in offered && EqIgnoreCase(x, reply.group)) ==>
                  var rest := Recover(server, Without(offered, reply.group));
                  r == Outcome([reply.group] + rest.order, rest.remaining, 1 + rest.probes))
  {
    if server(offered).Chose? {
      var group := server(offered).group;
      if forall x :: x in offered ==> !EqIgnoreCase(x, group) {
        NotOfferedKeepsAll(offered, group);
      } else {
        var x :| x in offered && EqIgnoreCase(x, group);
        assert x !in Without(offered, group);
        if |Without(offered, group)| == |offered| {
          WithoutNothing(offered, group);
        }
      }
    }
  }

  // ---------------------------------------------------------------- against any server

  /** `g` is in `offer`, whatever its capitalisation. */
  predicate Offers(offer: seq<string>, g: string)
  {
    exists x :: x in offer && EqIgnoreCase(x, g)
  }

  ghost predicate DistinctIgnoringCase(s: seq<string>)
  {
    forall i, j :: 0 <= i < j < |s| ==> !EqIgnoreCase(s[i], s[j])
  }

  /** All recorded groups but possibly the last were offered, and they are pairwise distinct; the offer
      is split into what was recorded and what remains. */
  ghost predicate Accounted(offered: seq<string>, order: seq<string>, remaining: seq<string>)
  {
    && (forall i :: 0 <= i < |order| - 1 ==> Offers(offered, order[i]))
    && (order != [] ==> DistinctIgnoringCase(order[..|order| - 1]))
    && (forall g :: g in remaining <==> g in offered && !Offers(order, g))
  }

  lemma {:induction false} RecoverCounts(server: Server, offered: seq<string>)
    ensures var r := Recover(server, offered);
            && |r.order| <= r.probes <= |r.order| + 1 && r.probes <= |offered|
            && |r.order| + |r.remaining| <= |offered| + 1
    decreases |offered|
  {
    if offered != [] && server(offered).Chose? {
      var rest := Without(offered, server(offered).group);
      if |rest| < |offered| {
        RecoverCounts(server, rest);
      }
    }
  }

  lemma {:induction false} RecoverAccounts(server: Server, offered: seq<string>)
    ensures Accounted(offered, Recover(server, offered).order, Recover(server, offered).remaining)
    decreases |offered|
  {
    if offered != [] && server(offered).Chose? {
      var group := server(offered).group;
      var rest := Without(offered, group);
      if |rest| == |offered| {
        RecordedUnoffered(offered, group);
      } else {
        var tail := Recover(server, rest);
        RecoverAccounts(server, rest);
        WithoutSomething(offered, group);
        RecordedStep(offered, group, rest, tail.order, tail.remaining);
      }
    }
  }

  /** Whatever the server answers, the loop ends: one probe per recorded group plus at most one, never
      more probes or groups than were offered, and every offered group accounted for. */
  lemma RecoverBounds(server: Server, offered: seq<string>)
    ensures var r := Recover(server, offered);
            && |r.order| <= r.probes <= |r.order| + 1 && r.probes <= |offered|
            && |r.order| + |r.remaining| <= |offered| + 1
            && Accounted(offered, r.order, r.remaining)
  {
    RecoverCounts(server, offered);
    RecoverAccounts(server, offered);
  }

  lemma {:induction false} WithoutNothing(offer: seq<string>, group: string)
    requires |Without(offer, group)| == |offer|
    ensures Without(offer, group) == offer
  {
    if offer != [] {
      WithoutNothing(offer[1..], group);
    }
  }

  /** An answer that was not offered is recorded, removes nothing, and ends the loop. */
  lemma RecordedUnoffered(offered: seq<string>, group: string)
    requires |Without(offered, group)| == |offered|
    ensures Without(offered, group) == offered
    ensures forall g :: g in offered ==> !Offers([group], g)
  {
    WithoutNothing(offered, group);
    forall g | g in offered
      ensures !Offers([group], g)
    {
      assert g in Without(offered, group);
    }
  }

  lemma {:induction false} WithoutSomething(offer: seq<string>, group: string)
    requires |Without(offer, group)| < |offer|
    ensures Offers(offer, group)
  {
    if EqIgnoreCase(offer[0], group) {
      assert offer[0] in offer;
    } else {
      WithoutSomething(offer[1..], group);
    }
  }

  lemma RecordedStep(offered: seq<string>, group: string, rest: seq<string>, tail: seq<string>, remaining: seq<string>)
    requires rest == Without(offered, group) && Offers(offered, group)
    requires Accounted(rest, tail, remaining)
    ensures Accounted(offered, [group] + tail, remaining)
  {
    var order := [group] + tail;
    forall i | 0 <= i < |order| - 1
      ensures Offers(offered, order[i])
      ensures i > 0 ==> !EqIgnoreCase(group, order[i])
    {
      if i > 0 {
        var x :| x in rest && EqIgnoreCase(x, tail[i - 1]);
      }
    }
    var init := order[..|order| - 1];
    if tail != [] {
      assert init == [group] + tail[..|tail| - 1];
    }
    forall g
      ensures Offers(order, g) <==> EqIgnoreCase(group, g) || Offers(tail, g)
    {
      if EqIgnoreCase(group, g) { assert group in order; }
      if Offers(tail, g) {
        var x :| x in tail && EqIgnoreCase(x, g);
        assert x in order;
      }
    }
  }

  // ---------------------------------------------------------------- against an honest server

  /** The members of `prefs` that are offered, in the order of `prefs`. */
  function Filter(prefs: seq<string>, offer: seq<string>): (r: seq<string>)
  {
    if prefs == [] then []
    else if Offers(offer, prefs[0]) then [prefs[0]] + Filter(prefs[1..], offer)
    else Filter(prefs[1..], offer)
  }

  /** The members of `offer` that the server lacks, in the order offered. */
  function Lacking(offer: seq<string>, prefs: seq<string>): (r: seq<string>)
  {
    if offer == [] then []
    else if Offers(prefs, offer[0]) then Lacking(offer[1..], prefs)
    else [offer[0]] + Lacking(offer[1..], prefs)
  }

  /** The server picks its most preferred offered group and reports it in some capitalisation. */
  ghost predicate Honest(server: Server, prefs: seq<string>)
  {
    forall offer :: HonestReply(server(offer), Filter(prefs, offer))
  }

  predicate HonestReply(reply: Reply, candidates: seq<string>)
  {
    if candidates == [] then !reply.Chose?
    else reply.Chose? && EqIgnoreCase(reply.group, candidates[0])
  }

  ghost predicate SameIgnoringCase(a: seq<string>, b: seq<string>)
  {
    |a| == |b| && forall i :: 0 <= i < |a| ==> EqIgnoreCase(a[i], b[i])
  }

  lemma {:induction false} FilterMembers(prefs: seq<string>, offer: seq<string>)
    ensures forall p :: p in Filter(prefs, offer) ==> p in prefs && Offers(offer, p)
    ensures Filter(prefs, offer) == [] ==> forall p :: p in prefs ==> !Offers(offer, p)
  {
    if prefs != [] {
      FilterMembers(prefs[1..], offer);
    }
  }

  /** Element by element, the filter keeps what is offered, in place. */
  lemma {:induction false} FilterJoined(a: seq<string>, b: seq<string>, offer: seq<string>)
    ensures Filter(a + b, offer) == Filter(a, offer) + Filter(b, offer)
  {
    if a == [] {
      assert a + b == b;
    } else {
      assert (a + b)[1..] == a[1..] + b;
      FilterJoined(a[1..], b, offer);
    }
  }

  lemma FilterOne(g: string, offer: seq<string>)
    ensures Filter([g], offer) == if exists x :: x in offer && EqIgnoreCase(x, g) then [g] else []
  {
    assert Filter([g][1..], offer) == [];
  }

  /** What is lacking is what the server has in no capitalisation, in place. */
  lemma {:induction false} LackingJoined(a: seq<string>, b: seq<string>, prefs: seq<string>)
    ensures Lacking(a + b, prefs) == Lacking(a, prefs) + Lacking(b, prefs)
  {
    if a == [] {
      assert a + b == b;
    } else {
      assert (a + b)[1..] == a[1..] + b;
      LackingJoined(a[1..], b, prefs);
    }
  }

  lemma LackingOne(g: string, prefs: seq<string>)
    ensures Lacking([g], prefs) == if exists x :: x in prefs && EqIgnoreCase(x, g) then [] else [g]
  {
    assert Lacking([g][1..], prefs) == [];
  }

  /** `prefs[i]` is the first preference that is on offer. */
  predicate FirstOffered(prefs: seq<string>, offer: seq<string>, i: nat)
  {
    i < |prefs| && Offers(offer, prefs[i]) && forall j :: 0 <= j < i ==> !Offers(offer, prefs[j])
  }

  lemma {:induction false} FilterHead(prefs: seq<string>, offer: seq<string>) returns (i: nat)
    ensures Filter(prefs, offer) == [] <==> forall j :: 0 <= j < |prefs| ==> !Offers(offer, prefs[j])
    ensures Filter(prefs, offer) != [] ==> FirstOffered(prefs, offer, i) && Filter(prefs, offer)[0] == prefs[i]
  {
    i := 0;
    if prefs != [] && !Offers(offer, prefs[0]) {
      var k := FilterHead(prefs[1..], offer);
      i := k + 1;
      assert prefs == [prefs[0]] + prefs[1..];
    }
  }

  lemma FirstOfferedOnce(prefs: seq<string>, offer: seq<string>, i: nat, k: nat)
    requires FirstOffered(prefs, offer, i) && FirstOffered(prefs, offer, k)
    ensures i == k
  {
  }

  /** An honest server answers any offer with its first preference that is on offer, and with no group if there is
      none. */
  lemma HonestPicksFirst(server: Server, prefs: seq<string>, offer: seq<string>, i: nat)
    requires Honest(server, prefs)
    ensures FirstOffered(prefs, offer, i) ==> server(offer).Chose? && EqIgnoreCase(server(offer).group, prefs[i])
    ensures (forall j :: 0 <= j < |prefs| ==> !Offers(offer, prefs[j])) ==> !server(offer).Chose?
  {
    assert HonestReply(server(offer), Filter(prefs, offer));
    var k := FilterHead(prefs, offer);
    if FirstOffered(prefs, offer, i) {
      FirstOfferedOnce(prefs, offer, i, k);
    }
  }

  /** Two offers that agree on `prefs` are filtered alike. */
  lemma {:induction false} FilterAgrees(prefs: seq<string>, offer: seq<string>, offer': seq<string>)
    requires forall p :: p in prefs ==> (Offers(offer, p) <==> Offers(offer', p))
    ensures Filter(prefs, offer) == Filter(prefs, offer')
  {
    if prefs != [] {
      assert prefs[0] in prefs;
      FilterAgrees(prefs[1..], offer, offer');
    }
  }

  lemma WithoutOffers(offer: seq<string>, group: string, p: string)
    ensures Offers(Without(offer, group), p) <==> Offers(offer, p) && !EqIgnoreCase(group, p)
  {
    if Offers(offer, p) && !EqIgnoreCase(group, p) {
      var x :| x in offer && EqIgnoreCase(x, p);
      assert x in Without(offer, group);
    }
  }

  /** Removing the chosen group from the offer removes exactly the head of the filtered list. */
  lemma {:induction false} FilterAdvances(prefs: seq<string>, offer: seq<string>, group: string)
    requires DistinctIgnoringCase(prefs)
    requires Filter(prefs, offer) != [] && EqIgnoreCase(group, Filter(prefs, offer)[0])
    ensures Filter(prefs, Without(offer, group)) == Filter(prefs, offer)[1..]
  {
    var p, tail := prefs[0], prefs[1..];
    WithoutOffers(offer, group, p);
    if Offers(offer, p) {
      forall q | q in tail
        ensures Offers(Without(offer, group), q) <==> Offers(offer, q)
      {
        WithoutOffers(offer, group, q);
        var k :| 0 <= k < |tail| && tail[k] == q;
        assert prefs[k + 1] == q && !EqIgnoreCase(prefs[0], prefs[k + 1]);
      }
      FilterAgrees(tail, Without(offer, group), offer);
    } else {
      FilterAdvances(tail, offer, group);
    }
  }

  lemma {:induction false} LackingWithout(offer: seq<string>, prefs: seq<string>, group: string)
    requires Offers(prefs, group)
    ensures Lacking(Without(offer, group), prefs) == Lacking(offer, prefs)
  {
    if offer != [] {
      LackingWithout(offer[1..], prefs, group);
      if EqIgnoreCase(offer[0], group) {
        var x :| x in prefs && EqIgnoreCase(x, group);
        assert Offers(prefs, offer[0]);
      } else {
        assert Without(offer, group) == [offer[0]] + Without(offer[1..], group);
      }
    }
  }

  lemma {:induction false} LackingAll(offer: seq<string>, prefs: seq<string>)
    requires forall p :: p in prefs ==> !Offers(offer, p)
    ensures Lacking(offer, prefs) == offer
  {
    if offer != [] {
      assert !Offers(prefs, offer[0]) by {
        if Offers(prefs, offer[0]) {
          var x :| x in prefs && EqIgnoreCase(x, offer[0]);
          assert offer[0] in offer && EqIgnoreCase(offer[0], x);
          assert false;
        }
      }
      forall p | p in prefs
        ensures !Offers(offer[1..], p)
      {
      }
      LackingAll(offer[1..], prefs);
    }
  }

  /** Exact recovery: the recorded order is the server's list cut down to what was offered, and what
      remains is what the server lacks. */
  lemma {:induction false} RecoversPreferences(server: Server, prefs: seq<string>, offered: seq<string>)
    requires DistinctIgnoringCase(prefs) && Honest(server, prefs)
    ensures SameIgnoringCase(Recover(server, offered).order, Filter(prefs, offered))
    ensures Recover(server, offered).remaining == Lacking(offered, prefs)
    decreases |offered|
  {
    FilterMembers(prefs, offered);
    var wanted := Filter(prefs, offered);
    assert HonestReply(server(offered), wanted);
    if wanted == [] {
      LackingAll(offered, prefs);
    } else {
      var group := server(offered).group;
      var rest := Without(offered, group);
      var p := wanted[0];
      assert p in prefs && Offers(offered, p);
      var x :| x in offered && EqIgnoreCase(x, p);
      assert x !in rest;
      if |rest| == |offered| {
        WithoutNothing(offered, group);
        assert false;
      }
      FilterAdvances(prefs, offered, group);
      assert Offers(prefs, group);
      LackingWithout(offered, prefs, group);
      RecoversPreferences(server, prefs, rest);
    }
  }

  // ---------------------------------------------------------------- judging an honest server

  lemma SameRanks(a: seq<string>, b: seq<string>)
    requires SameIgnoringCase(a, b)
    ensures NonIncreasing(a) <==> NonIncreasing(b)
  {
    forall i | 0 <= i < |a|
      ensures Rank(a[i]) == Rank(b[i])
    {
      RankIgnoresCase(a[i], b[i]);
    }
  }

  lemma {:induction false} FilterNonIncreasing(prefs: seq<string>, offer: seq<string>)
    requires NonIncreasing(prefs)
    ensures NonIncreasing(Filter(prefs, offer))
  {
    if prefs != [] {
      var rest := Filter(prefs[1..], offer);
      FilterNonIncreasing(prefs[1..], offer);
      FilterMembers(prefs[1..], offer);
      forall i | 0 <= i < |rest|
        ensures Rank(rest[i]) <= Rank(prefs[0])
      {
        assert rest[i] in prefs[1..];
        var k :| 0 <= k < |prefs[1..]| && prefs[1..][k] == rest[i];
        assert prefs[k + 1] == rest[i];
      }
    }
  }

  lemma {:induction false} FilterAll(prefs: seq<string>, offer: seq<string>)
    requires forall p :: p in prefs ==> p in offer
    ensures Filter(prefs, offer) == prefs
  {
    if prefs != [] {
      assert prefs[0] in offer && EqIgnoreCase(prefs[0], prefs[0]);
      assert prefs == [prefs[0]] + prefs[1..];
      FilterAll(prefs[1..], offer);
    }
  }

  lemma JudgedByFilter(server: Server, prefs: seq<string>, offer: seq<string>)
    requires DistinctIgnoringCase(prefs) && Honest(server, prefs)
    ensures Findings(Recover(server, offer).order) == [] <==> NonIncreasing(Filter(prefs, offer))
  {
    RecoversPreferences(server, prefs, offer);
    NoFindingsIffNonIncreasing(Recover(server, offer).order);
    SameRanks(Recover(server, offer).order, Filter(prefs, offer));
  }

  /** A server gets no finding for any offer exactly when its own list never rises in security. */
  lemma CleanIffNonIncreasing(server: Server, prefs: seq<string>)
    requires DistinctIgnoringCase(prefs) && Honest(server, prefs)
    ensures NonIncreasing(prefs) <==> forall offer :: Findings(Recover(server, offer).order) == []
  {
    forall offer
      ensures NonIncreasing(prefs) ==> Findings(Recover(server, offer).order) == []
    {
      JudgedByFilter(server, prefs, offer);
      if NonIncreasing(prefs) { FilterNonIncreasing(prefs, offer); }
    }
    JudgedByFilter(server, prefs, prefs);
    FilterAll(prefs, prefs);
  }
}
