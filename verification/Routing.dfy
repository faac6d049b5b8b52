/** Which candidates may serve a request, and in which order they are tried. */
module Routing {
  import opened Options

  datatype Tier = Fast | Balanced | Strong

  datatype Candidate = Candidate(
    id: string,
    provider: string,
    model: string,
    baseUrl: string,
    credentialRef: string,
    tier: Tier,
    contextWindow: int,
    supportsTools: bool,
    supportsVision: bool)

  /** What routing reads off a request. `serializedLength` is the length of the
    * messages as JSON; the last message may be from the user or from anyone else. */
  datatype Body = Body(
    declaresTools: bool,
    hasImage: bool,
    serializedLength: nat,
    latestUserLength: nat,
    latestUserHasFence: bool,
    messageCount: nat,
    latestFromUser: bool)

  /** The virtual model asked for, as far as routing tells them apart. */
  datatype Mode = Quality | Economy | Session | Plain

  datatype Reason = Tools | Vision | Context

  datatype Pin = ToolLoop | SessionMode

  /** Why a candidate was passed over; `Coded` is a gateway error with its own code. */
  datatype Failure = CredentialUnavailable | UpstreamUnavailable | Http(status: nat) | Coded(code: string)

  datatype Attempt = Attempt(candidate: string, why: Failure)

  const TIERS := [Fast, Balanced, Strong]

  function EstimateTokens(body: Body): nat {
    (body.serializedLength + 3) / 4
  }

  function ComplexityScore(body: Body): nat {
    var tokens := EstimateTokens(body);
    (if body.declaresTools then 1 else 0)
    + (if body.latestUserLength >= 1500 || body.latestUserHasFence then 1 else 0)
    + (if tokens >= 8000 then 2 else if tokens >= 2000 then 1 else 0)
    + (if body.hasImage then 2 else 0)
    + (if body.messageCount >= 20 then 1 else 0)
  }

  function DetectedTier(score: nat): Tier {
    if score <= 1 then Fast else if score <= 3 then Balanced else Strong
  }

  function RequestedTier(mode: Mode, body: Body): Tier {
    match mode
    case Quality => Strong
    case Economy => Fast
    case _ => DetectedTier(ComplexityScore(body))
  }

  function Count(facts: seq<bool>): nat {
    if facts == [] then 0 else (if facts[0] then 1 else 0) + Count(facts[1..])
  }

  /** What makes a request a little harder, and what makes it a lot harder. */
  function OnePoint(body: Body): seq<bool> {
    var tokens := (body.serializedLength + 3) / 4;
    [body.declaresTools, body.latestUserLength >= 1500 || body.latestUserHasFence,
     2000 <= tokens < 8000, body.messageCount >= 20]
  }

  function TwoPoints(body: Body): seq<bool> {
    [(body.serializedLength + 3) / 4 >= 8000, body.hasImage]
  }

  /** `auto:quality` asks for the strong tier and `auto:economy` for the fast one. Any other mode
    * asks for the fast tier with at most one small difficulty, for the balanced one with two or
    * three small ones or a great one and at most one small one, and for the strong one beyond. */
  ghost predicate Asks(mode: Mode, body: Body, tier: Tier) {
    var small, great := Count(OnePoint(body)), Count(TwoPoints(body));
    match mode
    case Quality => tier == Strong
    case Economy => tier == Fast
    case _ =>
      tier == if great == 0 && small <= 1 then Fast
              else if (great == 0 && small <= 3) || (great == 1 && small <= 1) then Balanced
              else Strong
  }

  lemma {:induction false} CountFirst(fact: bool, rest: seq<bool>)
    ensures Count([fact] + rest) == (if fact then 1 else 0) + Count(rest)
  {
    assert ([fact] + rest)[1..] == rest;
  }

  lemma {:induction false} CountTwo(a: bool, b: bool)
    ensures Count([a, b]) == (if a then 1 else 0) + (if b then 1 else 0)
  {
    CountFirst(b, []);
    CountFirst(a, [b]);
    assert [a] + [b] == [a, b] && [b] + [] == [b];
  }

  lemma {:induction false} CountFour(a: bool, b: bool, c: bool, d: bool)
    ensures Count([a, b, c, d]) == (if a then 1 else 0) + (if b then 1 else 0) + (if c then 1 else 0) + (if d then 1 else 0)
  {
    CountTwo(c, d);
    CountFirst(b, [c, d]);
    CountFirst(a, [b, c, d]);
    assert [b] + [c, d] == [b, c, d] && [a] + [b, c, d] == [a, b, c, d];
  }

  lemma {:induction false} RequestedTierIs(mode: Mode, body: Body)
    ensures Asks(mode, body, RequestedTier(mode, body))
  {
    var one, two := OnePoint(body), TwoPoints(body);
    CountFour(one[0], one[1], one[2], one[3]);
    CountTwo(two[0], two[1]);
  }

  // ---------------------------------------------------------------- eligibility

  /** The candidate can take the request: it has what the request needs, and the estimated
    * tokens fit into nine tenths of its context window. */
  ghost predicate Takes(c: Candidate, body: Body) {
    && (body.declaresTools ==> c.supportsTools)
    && (body.hasImage ==> c.supportsVision)
    && (body.serializedLength + 3) / 4 <= 9 * c.contextWindow / 10
  }

  function Rank(reason: Reason): nat {
    match reason case Tools => 0 case Vision => 1 case Context => 2
  }

  /** The list names what the candidate lacks for the request, each once and in this order:
    * tools, vision, context. */
  ghost predicate NamesWhatIsMissing(reasons: seq<Reason>, c: Candidate, body: Body) {
    && (Tools in reasons <==> body.declaresTools && !c.supportsTools)
    && (Vision in reasons <==> body.hasImage && !c.supportsVision)
    && (Context in reasons <==> (body.serializedLength + 3) / 4 > 9 * c.contextWindow / 10)
    && forall i, j :: 0 <= i < j < |reasons| ==> Rank(reasons[i]) < Rank(reasons[j])
  }

  lemma {:induction false} ReasonsName(c: Candidate, body: Body)
    ensures NamesWhatIsMissing(Reasons(c, body), c, body)
    ensures Reasons(c, body) == [] <==> Takes(c, body)
  {
  }

  /** Exactly the candidates that cannot take the request are listed, with what they lack. */
  ghost predicate ListsTheRest(filtered: map<string, seq<Reason>>, cs: seq<Candidate>, body: Body) {
    && (forall k :: 0 <= k < |cs| ==>
         (cs[k].id in filtered <==> !Takes(cs[k], body)) &&
         (cs[k].id in filtered ==> NamesWhatIsMissing(filtered[cs[k].id], cs[k], body)))
    && forall id <- filtered :: exists k :: 0 <= k < |cs| && cs[k].id == id
  }

  /** `eligible` has exactly the candidates that can take the request, in their order. */
  ghost predicate TakersInOrder(eligible: seq<Candidate>, cs: seq<Candidate>, body: Body) {
    && (forall k :: 0 <= k < |cs| && Takes(cs[k], body) ==> cs[k] in eligible)
    && exists ks: seq<nat> :: Picks(eligible, cs, body, ks)
  }

  ghost predicate Picks(eligible: seq<Candidate>, cs: seq<Candidate>, body: Body, ks: seq<nat>) {
    && |ks| == |eligible|
    && (forall a :: 0 <= a < |ks| ==> ks[a] < |cs| && eligible[a] == cs[ks[a]] && Takes(eligible[a], body))
    && forall a, b :: 0 <= a < b < |ks| ==> ks[a] < ks[b]
  }

  lemma {:induction false} EligiblePicks(cs: seq<Candidate>, body: Body) returns (ks: seq<nat>)
    ensures Picks(Eligible(cs, body), cs, body, ks)
  {
    if cs == [] {
      ks := [];
    } else {
      var n := |cs| - 1;
      ks := EligiblePicks(cs[..n], body);
      ReasonsName(cs[n], body);
      PickMore(Eligible(cs[..n], body), cs, body, ks);
      if Takes(cs[n], body) { ks := ks + [n]; }
    }
  }

  lemma {:induction false} PickMore(eligible: seq<Candidate>, cs: seq<Candidate>, body: Body, ks: seq<nat>)
    requires cs != [] && Picks(eligible, cs[..|cs| - 1], body, ks)
    ensures Picks(eligible, cs, body, ks)
    ensures Takes(cs[|cs| - 1], body) ==> Picks(eligible + [cs[|cs| - 1]], cs, body, ks + [|cs| - 1])
  {
    var n := |cs| - 1;
    forall a | 0 <= a < |ks| ensures ks[a] < n && eligible[a] == cs[ks[a]] && Takes(eligible[a], body) {
      assert cs[..n][ks[a]] == cs[ks[a]];
    }
  }

  lemma {:induction false} EligibleTakes(cs: seq<Candidate>, body: Body)
    ensures TakersInOrder(Eligible(cs, body), cs, body)
  {
    var ks := EligiblePicks(cs, body);
    EligibleKeeps(cs, body);
    forall c ensures Reasons(c, body) == [] <==> Takes(c, body) { ReasonsName(c, body); }
  }

  function Reasons(c: Candidate, body: Body): seq<Reason> {
    (if body.declaresTools && !c.supportsTools then [Tools] else [])
    + (if body.hasImage && !c.supportsVision then [Vision] else [])
    + (if EstimateTokens(body) > 9 * c.contextWindow / 10 then [Context] else [])
  }

  function Eligible(cs: seq<Candidate>, body: Body): seq<Candidate> {
    if cs == [] then []
    else
      var c := cs[|cs| - 1];
      Eligible(cs[..|cs| - 1], body) + if Reasons(c, body) == [] then [c] else []
  }

  ghost predicate UniqueIds(cs: seq<Candidate>) {
    forall i, j :: 0 <= i < j < |cs| ==> cs[i].id != cs[j].id
  }

  /** What `config.py` hands to the router. */
  ghost predicate Accepted(cs: seq<Candidate>) {
    cs != [] && UniqueIds(cs) && forall c <- cs :: c.id != "" && c.contextWindow > 0
  }

  method MissingFor(c: Candidate, body: Body) returns (reasons: seq<Reason>)
    ensures reasons == Reasons(c, body)
  {
    reasons := [];
    if body.declaresTools && !c.supportsTools { reasons := reasons + [Tools]; }
    if body.hasImage && !c.supportsVision { reasons := reasons + [Vision]; }
    if EstimateTokens(body) > 9 * c.contextWindow / 10 { reasons := reasons + [Context]; }
  }

  /** The eligible candidates in configuration order; every other one, and only
    * those, is listed with what it lacks. */
  method EligibleCandidates(cs: seq<Candidate>, body: Body)
    returns (eligible: seq<Candidate>, filtered: map<string, seq<Reason>>)
    requires UniqueIds(cs)
    ensures eligible == Eligible(cs, body)
    ensures TakersInOrder(eligible, cs, body) && ListsTheRest(filtered, cs, body)
  {
    eligible, filtered := [], map[];
    for i := 0 to |cs|
      invariant eligible == Eligible(cs[..i], body)
      invariant ListsUpTo(filtered, cs, i, body)
      invariant forall id <- filtered :: exists k :: 0 <= k < i && cs[k].id == id
    {
      assert cs[..i + 1][..i] == cs[..i];
      var c := cs[i];
      var reasons := MissingFor(c, body);
      if reasons != [] {
        OneMoreFiltered(filtered, cs, i, body);
        filtered := filtered[c.id := reasons];
      } else {
        OneMoreListed(filtered, filtered, cs, i, body);
        eligible := eligible + [c];
      }
    }
    assert cs[..|cs|] == cs;
    EligibleTakes(cs, body);
    ListedAreTheRest(filtered, cs, body);
  }

  lemma {:induction false} ListedAreTheRest(filtered: map<string, seq<Reason>>, cs: seq<Candidate>, body: Body)
    requires ListsUpTo(filtered, cs, |cs|, body)
    requires forall id <- filtered :: exists k :: 0 <= k < |cs| && cs[k].id == id
    ensures ListsTheRest(filtered, cs, body)
  {
    forall k | 0 <= k < |cs|
      ensures (cs[k].id in filtered <==> !Takes(cs[k], body)) &&
        (cs[k].id in filtered ==> NamesWhatIsMissing(filtered[cs[k].id], cs[k], body))
    {
      ReasonsName(cs[k], body);
      assert Lists(filtered, cs[k], body);
    }
  }

  ghost predicate Lists(filtered: map<string, seq<Reason>>, c: Candidate, body: Body) {
    if Reasons(c, body) == [] then c.id !in filtered else c.id in filtered && filtered[c.id] == Reasons(c, body)
  }

  /** The first `n` candidates are listed as they should be, the others not at all. */
  ghost predicate ListsUpTo(filtered: map<string, seq<Reason>>, cs: seq<Candidate>, n: nat, body: Body) {
    && n <= |cs|
    && (forall k :: 0 <= k < n ==> Lists(filtered, cs[k], body))
    && (forall k :: n <= k < |cs| ==> cs[k].id !in filtered)
  }

  ghost predicate SameBut(before: map<string, seq<Reason>>, after: map<string, seq<Reason>>, id: string) {
    forall other :: other != id ==>
      (other in after <==> other in before) && (other in after ==> after[other] == before[other])
  }

  lemma StillListed(before: map<string, seq<Reason>>, after: map<string, seq<Reason>>, id: string, c: Candidate, body: Body)
    requires SameBut(before, after, id) && c.id != id
    ensures Lists(before, c, body) <==> Lists(after, c, body)
  {
  }

  lemma OneMoreListed(
    before: map<string, seq<Reason>>, after: map<string, seq<Reason>>, cs: seq<Candidate>, i: nat, body: Body)
    requires UniqueIds(cs) && i < |cs| && ListsUpTo(before, cs, i, body)
    requires SameBut(before, after, cs[i].id) && Lists(after, cs[i], body)
    ensures ListsUpTo(after, cs, i + 1, body)
  {
    forall k | 0 <= k < i ensures Lists(after, cs[k], body) {
      StillListed(before, after, cs[i].id, cs[k], body);
    }
  }

  lemma OneMoreFiltered(before: map<string, seq<Reason>>, cs: seq<Candidate>, i: nat, body: Body)
    requires UniqueIds(cs) && i < |cs| && ListsUpTo(before, cs, i, body) && Reasons(cs[i], body) != []
    ensures
      var after := before[cs[i].id := Reasons(cs[i], body)];
      ListsUpTo(after, cs, i + 1, body)
  {
    OneMoreListed(before, before[cs[i].id := Reasons(cs[i], body)], cs, i, body);
  }

  lemma {:induction false} EligibleKeeps(cs: seq<Candidate>, body: Body)
    ensures forall c :: c in Eligible(cs, body) <==> c in cs && Reasons(c, body) == []
    ensures UniqueIds(cs) ==> UniqueIds(Eligible(cs, body))
  {
    if cs != [] {
      var before := cs[..|cs| - 1];
      EligibleKeeps(before, body);
      assert cs == before + [cs[|cs| - 1]];
      assert forall c <- Eligible(before, body) :: c in before;
      if UniqueIds(cs) {
        assert forall c <- before :: c.id != cs[|cs| - 1].id;
      }
    }
  }

  // ---------------------------------------------------------------- order

  function TierIndex(tier: Tier): nat {
    match tier case Fast => 0 case Balanced => 1 case Strong => 2
  }

  /** The requested tier, then the stronger ones upwards, then the weaker ones downwards. */
  function FallbackOrder(requested: Tier): seq<Tier> {
    var index := TierIndex(requested);
    [TIERS[index]] + TIERS[index + 1..] + Reversed(TIERS[..index])
  }

  function Reversed(s: seq<Tier>): seq<Tier> {
    if s == [] then [] else Reversed(s[1..]) + [s[0]]
  }

  function OfTier(cs: seq<Candidate>, tier: Tier): seq<Candidate> {
    if cs == [] then []
    else (if cs[0].tier == tier then [cs[0]] else []) + OfTier(cs[1..], tier)
  }

  function OfTiers(cs: seq<Candidate>, tiers: seq<Tier>): seq<Candidate> {
    if tiers == [] then [] else OfTier(cs, tiers[0]) + OfTiers(cs, tiers[1..])
  }

  function Ordered(cs: seq<Candidate>, requested: Tier): seq<Candidate> {
    OfTiers(cs, FallbackOrder(requested))
  }

  /** How far down the list a tier comes for a request: upwards first, then downwards. */
  function Distance(requested: Tier, tier: Tier): nat {
    var want, have := TierIndex(requested), TierIndex(tier);
    if have >= want then have - want else 3 + (want - have)
  }

  lemma FallbackOrders(requested: Tier)
    ensures FallbackOrder(requested) ==
      match requested
      case Fast => [Fast, Balanced, Strong]
      case Balanced => [Balanced, Strong, Fast]
      case Strong => [Strong, Balanced, Fast]
  {
    assert TIERS[..0] == [] && TIERS[..1] == [Fast] && TIERS[..2] == [Fast, Balanced];
    assert [Fast, Balanced][1..] == [Balanced];
    assert Reversed([Fast]) == [Fast] && Reversed([Balanced]) == [Balanced];
    assert Reversed([Fast, Balanced]) == [Balanced, Fast];
  }

  lemma Regroup<T>(a: seq<T>, b: seq<T>, c: seq<T>)
    ensures a + (b + c) == a + b + c
  {
  }

  lemma {:induction false} OfTierConcat(a: seq<Candidate>, b: seq<Candidate>, tier: Tier)
    ensures OfTier(a + b, tier) == OfTier(a, tier) + OfTier(b, tier)
  {
    if a == [] {
      assert a + b == b;
    } else {
      assert (a + b)[0] == a[0] && (a + b)[1..] == a[1..] + b;
      OfTierConcat(a[1..], b, tier);
      Regroup(if a[0].tier == tier then [a[0]] else [], OfTier(a[1..], tier), OfTier(b, tier));
    }
  }

  lemma {:induction false} OfTierTwice(cs: seq<Candidate>, tier: Tier, other: Tier)
    ensures OfTier(OfTier(cs, tier), other) == if tier == other then OfTier(cs, tier) else []
  {
    if cs != [] {
      OfTierTwice(cs[1..], tier, other);
      OfTierConcat(if cs[0].tier == tier then [cs[0]] else [], OfTier(cs[1..], tier), other);
    }
  }

  lemma OrderedIs(cs: seq<Candidate>, requested: Tier)
    ensures var t := FallbackOrder(requested);
      |t| == 3 && Ordered(cs, requested) == OfTier(cs, t[0]) + OfTier(cs, t[1]) + OfTier(cs, t[2])
  {
    FallbackOrders(requested);
    var t := FallbackOrder(requested);
    assert t[1..][1..] == t[2..] && t[2..][1..] == [];
    assert OfTiers(cs, []) == [];
    assert OfTiers(cs, t[2..]) == OfTier(cs, t[2]);
    assert OfTiers(cs, t[1..]) == OfTier(cs, t[1]) + OfTier(cs, t[2]);
  }

  /** The order is a reordering of whole tiers: within a tier nothing is added,
    * lost, doubled or moved. */
  lemma OrderedKeepsTiers(cs: seq<Candidate>, requested: Tier, tier: Tier)
    ensures OfTier(Ordered(cs, requested), tier) == OfTier(cs, tier)
  {
    FallbackOrders(requested);
    OrderedIs(cs, requested);
    var t := FallbackOrder(requested);
    var a, b, c := OfTier(cs, t[0]), OfTier(cs, t[1]), OfTier(cs, t[2]);
    OfTierConcat(a + b, c, tier);
    OfTierConcat(a, b, tier);
    OfTierTwice(cs, t[0], tier);
    OfTierTwice(cs, t[1], tier);
    OfTierTwice(cs, t[2], tier);
    var x, y, z := OfTier(a, tier), OfTier(b, tier), OfTier(c, tier);
    assert OfTier(Ordered(cs, requested), tier) == x + y + z;
    assert (x == [] && y == [] && z == OfTier(cs, tier)) || (x == [] && z == [] && y == OfTier(cs, tier))
      || (y == [] && z == [] && x == OfTier(cs, tier));
  }

  lemma {:induction false} OfTierAt(cs: seq<Candidate>, tier: Tier, i: nat)
    requires i < |OfTier(cs, tier)|
    ensures OfTier(cs, tier)[i].tier == tier
  {
    if cs[0].tier != tier { OfTierAt(cs[1..], tier, i); }
    else if i > 0 { OfTierAt(cs[1..], tier, i - 1); }
  }

  lemma OrderedAt(cs: seq<Candidate>, requested: Tier, i: nat) returns (part: nat)
    requires i < |Ordered(cs, requested)|
    ensures part < 3 && |FallbackOrder(requested)| == 3
    ensures Ordered(cs, requested)[i].tier == FallbackOrder(requested)[part]
    ensures var t := FallbackOrder(requested);
      part == if i < |OfTier(cs, t[0])| then 0 else if i < |OfTier(cs, t[0])| + |OfTier(cs, t[1])| then 1 else 2
  {
    OrderedIs(cs, requested);
    var t := FallbackOrder(requested);
    var a, b := |OfTier(cs, t[0])|, |OfTier(cs, t[1])|;
    if i < a {
      part := 0;
      OfTierAt(cs, t[0], i);
    } else if i < a + b {
      part := 1;
      OfTierAt(cs, t[1], i - a);
    } else {
      part := 2;
      OfTierAt(cs, t[2], i - a - b);
    }
  }

  lemma DistanceGrows(requested: Tier, k: nat, l: nat)
    requires k <= l < 3
    ensures |FallbackOrder(requested)| == 3
    ensures Distance(requested, FallbackOrder(requested)[k]) <= Distance(requested, FallbackOrder(requested)[l])
  {
    FallbackOrders(requested);
  }

  /** The order never goes back to a tier nearer to the request. */
  lemma OrderedIsSorted(cs: seq<Candidate>, requested: Tier, i: nat, j: nat)
    requires i < j < |Ordered(cs, requested)|
    ensures Distance(requested, Ordered(cs, requested)[i].tier) <= Distance(requested, Ordered(cs, requested)[j].tier)
  {
    var k := OrderedAt(cs, requested, i);
    var l := OrderedAt(cs, requested, j);
    DistanceGrows(requested, k, l);
  }

  lemma OfTierFirst(cs: seq<Candidate>, tier: Tier)
    requires cs != []
    ensures multiset(OfTier(cs, tier)) ==
      if cs[0].tier == tier then multiset{cs[0]} + multiset(OfTier(cs[1..], tier)) else multiset(OfTier(cs[1..], tier))
  {
  }

  lemma OneMore<T>(a: multiset<T>, b: multiset<T>, c: multiset<T>, x: T)
    ensures (multiset{x} + a) + b + c == multiset{x} + (a + b + c)
    ensures a + (multiset{x} + b) + c == multiset{x} + (a + b + c)
    ensures a + b + (multiset{x} + c) == multiset{x} + (a + b + c)
  {
  }

  lemma FirstOf<T>(s: seq<T>)
    requires s != []
    ensures multiset(s) == multiset{s[0]} + multiset(s[1..])
  {
    assert s == [s[0]] + s[1..];
  }

  lemma {:induction false} TiersPartition(cs: seq<Candidate>, x: Tier, y: Tier, z: Tier)
    requires forall c <- cs :: c.tier == x || c.tier == y || c.tier == z
    requires x != y && y != z && x != z
    ensures multiset(OfTier(cs, x)) + multiset(OfTier(cs, y)) + multiset(OfTier(cs, z)) == multiset(cs)
  {
    if cs != [] {
      var rest := cs[1..];
      TiersPartition(rest, x, y, z);
      FirstOf(cs);
      OfTierFirst(cs, x);
      OfTierFirst(cs, y);
      OfTierFirst(cs, z);
      OneMore(multiset(OfTier(rest, x)), multiset(OfTier(rest, y)), multiset(OfTier(rest, z)), cs[0]);
    }
  }

  lemma OrderedIsPermutation(cs: seq<Candidate>, requested: Tier)
    ensures multiset(Ordered(cs, requested)) == multiset(cs)
  {
    FallbackOrders(requested);
    OrderedIs(cs, requested);
    var t := FallbackOrder(requested);
    TiersPartition(cs, t[0], t[1], t[2]);
  }

  /** The first choice: the first in configuration order of the lowest eligible tier
    * at or above the request, or else of the highest below it. */
  lemma FirstChoiceIsBest(cs: seq<Candidate>, requested: Tier)
    requires cs != []
    ensures Ordered(cs, requested) != []
    ensures var best := Ordered(cs, requested)[0];
      && best in cs && OfTier(cs, best.tier) != [] && best == OfTier(cs, best.tier)[0]
      && forall c <- cs :: Distance(requested, best.tier) <= Distance(requested, c.tier)
  {
    var o := Ordered(cs, requested);
    OrderedIsPermutation(cs, requested);
    assert cs[0] in multiset(cs) && cs[0] in multiset(o);
    assert o[0] in multiset(o) && o[0] in cs;
    OrderedKeepsTiers(cs, requested, o[0].tier);
    assert OfTier(o, o[0].tier)[0] == o[0];
    forall c <- cs ensures Distance(requested, o[0].tier) <= Distance(requested, c.tier) {
      assert c in multiset(cs) && c in multiset(o);
      var j :| 0 <= j < |o| && o[j] == c;
      if j > 0 { OrderedIsSorted(cs, requested, 0, j); }
    }
  }

  /** `auto:quality` gets the strongest eligible tier and `auto:economy` the weakest. */
  lemma QualityAndEconomy(cs: seq<Candidate>, body: Body, c: Candidate)
    requires cs != [] && c in cs
    ensures Ordered(cs, RequestedTier(Quality, body)) != []
    ensures Ordered(cs, RequestedTier(Economy, body)) != []
    ensures TierIndex(c.tier) <= TierIndex(Ordered(cs, RequestedTier(Quality, body))[0].tier)
    ensures TierIndex(Ordered(cs, RequestedTier(Economy, body))[0].tier) <= TierIndex(c.tier)
  {
    FirstChoiceIsBest(cs, Strong);
    FirstChoiceIsBest(cs, Fast);
  }

  // ---------------------------------------------------------------- pinning

  function WithoutId(cs: seq<Candidate>, id: string): seq<Candidate> {
    if cs == [] then [] else (if cs[0].id == id then [] else [cs[0]]) + WithoutId(cs[1..], id)
  }

  function FirstWithId(cs: seq<Candidate>, id: string): Option<Candidate> {
    if cs == [] then None else if cs[0].id == id then Some(cs[0]) else FirstWithId(cs[1..], id)
  }

  /** What `route` decides: the candidates to try and why the first was pinned. */
  datatype Choice = NoneEligible | Chosen(order: seq<Candidate>, pinned: Option<Pin>)

  function Choose(cs: seq<Candidate>, body: Body, mode: Mode, settled: Option<string>): Choice {
    var eligible := Eligible(cs, body);
    if eligible == [] then NoneEligible
    else
      var ordered := Ordered(eligible, RequestedTier(mode, body));
      var toolLoop := !body.latestFromUser;
      if settled.Some? && (toolLoop || mode.Session?) then
        match FirstWithId(eligible, settled.value)
        case Some(c) => Chosen([c] + WithoutId(ordered, c.id), Some(if toolLoop then ToolLoop else SessionMode))
        case None => Chosen(ordered, None)
      else Chosen(ordered, None)
  }

  lemma {:induction false} FirstWithIdIs(cs: seq<Candidate>, id: string)
    ensures match FirstWithId(cs, id)
      case None => forall c <- cs :: c.id != id
      case Some(c) => c in cs && c.id == id
  {
    if cs != [] { FirstWithIdIs(cs[1..], id); }
  }

  lemma {:induction false} WithoutIdIs(cs: seq<Candidate>, c: Candidate)
    requires c in cs && UniqueIds(cs)
    ensures multiset(WithoutId(cs, c.id)) + multiset{c} == multiset(cs)
  {
    var rest := cs[1..];
    assert cs == [cs[0]] + rest;
    assert UniqueIds(rest);
    if cs[0] == c {
      WithoutAbsent(rest, c.id);
      assert WithoutId(cs, c.id) == rest;
    } else {
      assert c in rest;
      assert cs[0].id != c.id;
      WithoutIdIs(rest, c);
      assert WithoutId(cs, c.id) == [cs[0]] + WithoutId(rest, c.id);
    }
  }

  lemma {:induction false} WithoutAbsent(cs: seq<Candidate>, id: string)
    requires forall c <- cs :: c.id != id
    ensures WithoutId(cs, id) == cs
  {
    if cs != [] { WithoutAbsent(cs[1..], id); }
  }

  lemma {:induction false} CountOne(cs: seq<Candidate>, c: Candidate)
    requires UniqueIds(cs)
    ensures multiset(cs)[c] <= 1
  {
    if cs != [] {
      CountOne(cs[1..], c);
      assert cs == [cs[0]] + cs[1..];
      if cs[0] == c { assert c !in cs[1..]; }
    }
  }

  lemma CountTwice(cs: seq<Candidate>, i: nat, j: nat)
    requires i < j < |cs| && cs[i] == cs[j]
    ensures multiset(cs)[cs[i]] >= 2
  {
    assert cs == cs[..j] + cs[j..];
    assert cs[i] in cs[..j] && cs[j] in cs[j..];
  }

  lemma UniqueByMultiset(a: seq<Candidate>, b: seq<Candidate>)
    requires UniqueIds(a) && multiset(a) == multiset(b)
    ensures UniqueIds(b)
  {
    forall i, j | 0 <= i < j < |b| ensures b[i].id != b[j].id {
      assert b[i] in multiset(a) && b[j] in multiset(a);
      var x :| 0 <= x < |a| && a[x] == b[i];
      var y :| 0 <= y < |a| && a[y] == b[j];
      if x == y {
        CountTwice(b, i, j);
        CountOne(a, b[i]);
      }
    }
  }

  lemma PinnedOrder(eligible: seq<Candidate>, ordered: seq<Candidate>, c: Candidate)
    requires UniqueIds(eligible) && multiset(ordered) == multiset(eligible) && c in eligible
    ensures multiset([c] + WithoutId(ordered, c.id)) == multiset(eligible)
    ensures UniqueIds([c] + WithoutId(ordered, c.id))
  {
    UniqueByMultiset(eligible, ordered);
    assert c in multiset(ordered);
    WithoutIdIs(ordered, c);
    assert multiset([c] + WithoutId(ordered, c.id)) == multiset{c} + multiset(WithoutId(ordered, c.id));
    UniqueByMultiset(eligible, [c] + WithoutId(ordered, c.id));
  }

  /** One candidate of the order comes first, and the others keep theirs. */
  ghost predicate MovesToFront(ordered: seq<Candidate>, order: seq<Candidate>) {
    exists k :: 0 <= k < |ordered| && order == [ordered[k]] + (ordered[..k] + ordered[k + 1..])
  }

  lemma {:induction false} WithoutIdAt(cs: seq<Candidate>, k: nat)
    requires UniqueIds(cs) && k < |cs|
    ensures WithoutId(cs, cs[k].id) == cs[..k] + cs[k + 1..]
  {
    var rest := cs[1..];
    assert UniqueIds(rest);
    if k == 0 {
      WithoutAbsent(rest, cs[0].id);
    } else {
      assert cs[k] == rest[k - 1];
      WithoutIdAt(rest, k - 1);
      AllBut(cs, k);
    }
  }

  lemma {:induction false} AllBut<T>(s: seq<T>, k: nat)
    requires 0 < k < |s|
    ensures s[..k] + s[k + 1..] == [s[0]] + (s[1..][..k - 1] + s[1..][k..])
  {
  }

  lemma {:induction false} PinMovesToFront(ordered: seq<Candidate>, c: Candidate)
    requires UniqueIds(ordered) && c in ordered
    ensures MovesToFront(ordered, [c] + WithoutId(ordered, c.id))
  {
    var k :| 0 <= k < |ordered| && ordered[k] == c;
    WithoutIdAt(ordered, k);
  }

  /** The pin applies: the session has settled on a candidate that can take this request, and
    * the request is in the middle of a tool loop or asks for the session's candidate. */
  ghost predicate PinApplies(cs: seq<Candidate>, body: Body, mode: Mode, settled: Option<string>) {
    settled.Some? && (!body.latestFromUser || mode.Session?) && exists c <- cs :: c.id == settled.value && Takes(c, body)
  }

  /** Every accepted configuration, request and pin: there is a choice exactly when
    * some candidate can take the request, and it tries each of those exactly once. A pin
    * comes first exactly when it applies, and moves nobody else. */
  lemma {:induction false} ChoiceIsComplete(cs: seq<Candidate>, body: Body, mode: Mode, settled: Option<string>)
    requires UniqueIds(cs)
    ensures
      var choice := Choose(cs, body, mode, settled);
      match choice
      case NoneEligible => forall c <- cs :: !Takes(c, body)
      case Chosen(order, pinned) =>
        && multiset(order) == multiset(Eligible(cs, body)) && order != [] && UniqueIds(order)
        && (forall c :: c in order <==> c in cs && Takes(c, body))
        && (pinned.Some? <==> PinApplies(cs, body, mode, settled))
        && (pinned.Some? ==> order[0].id == settled.value && MovesToFront(Ordered(Eligible(cs, body), RequestedTier(mode, body)), order))
        && (pinned.Some? ==> pinned.value == if body.latestFromUser then SessionMode else ToolLoop)
        && (pinned.None? ==> order == Ordered(Eligible(cs, body), RequestedTier(mode, body)))
  {
    var eligible := Eligible(cs, body);
    EligibleKeeps(cs, body);
    forall c ensures Reasons(c, body) == [] <==> Takes(c, body) { ReasonsName(c, body); }
    if eligible == [] {
      forall c <- cs ensures !Takes(c, body) { assert c !in eligible; }
    } else {
      ChosenIs(cs, eligible, body, mode, settled, Ordered(eligible, RequestedTier(mode, body)));
    }
  }

  lemma {:induction false} SameMembers(a: seq<Candidate>, b: seq<Candidate>)
    requires multiset(a) == multiset(b)
    ensures forall c :: c in a <==> c in b
  {
    forall c ensures c in a <==> c in b { assert c in multiset(a) <==> c in multiset(b); }
  }

  lemma {:induction false} ChosenIs(
    cs: seq<Candidate>, eligible: seq<Candidate>, body: Body, mode: Mode, settled: Option<string>, ordered: seq<Candidate>)
    requires eligible == Eligible(cs, body) && eligible != [] && UniqueIds(eligible)
    requires ordered == Ordered(eligible, RequestedTier(mode, body))
    requires forall c :: c in eligible <==> c in cs && Takes(c, body)
    ensures
      var choice := Choose(cs, body, mode, settled);
      && choice.Chosen? && multiset(choice.order) == multiset(eligible) && choice.order != [] && UniqueIds(choice.order)
      && (forall c :: c in choice.order <==> c in cs && Takes(c, body))
      && (choice.pinned.Some? <==> PinApplies(cs, body, mode, settled))
      && (choice.pinned.Some? ==> choice.order[0].id == settled.value && MovesToFront(ordered, choice.order))
      && (choice.pinned.Some? ==> choice.pinned.value == if body.latestFromUser then SessionMode else ToolLoop)
      && (choice.pinned.None? ==> choice.order == ordered)
  {
    OrderedIsPermutation(eligible, RequestedTier(mode, body));
    UniqueByMultiset(eligible, ordered);
    SameMembers(ordered, eligible);
    assert eligible[0] in ordered;
    var choice := Choose(cs, body, mode, settled);
    if settled.Some? && (!body.latestFromUser || mode.Session?) {
      FirstWithIdIs(eligible, settled.value);
      var found := FirstWithId(eligible, settled.value);
      if found.Some? {
        assert choice.order == [found.value] + WithoutId(ordered, found.value.id);
        PinnedIs(eligible, ordered, found.value, choice.order);
      }
    }
  }

  lemma {:induction false} PinnedIs(eligible: seq<Candidate>, ordered: seq<Candidate>, c: Candidate, order: seq<Candidate>)
    requires UniqueIds(eligible) && multiset(ordered) == multiset(eligible) && UniqueIds(ordered)
    requires c in eligible && c in ordered && order == [c] + WithoutId(ordered, c.id)
    ensures multiset(order) == multiset(eligible) && UniqueIds(order) && order != [] && order[0] == c
    ensures MovesToFront(ordered, order) && forall d :: d in order <==> d in eligible
  {
    PinnedOrder(eligible, ordered, c);
    SameMembers(order, eligible);
    PinMovesToFront(ordered, c);
  }

  /** An applying pin comes first. */
  lemma {:induction false} PinComesFirst(cs: seq<Candidate>, body: Body, mode: Mode, id: string)
    requires UniqueIds(cs) && PinApplies(cs, body, mode, Some(id))
    ensures Choose(cs, body, mode, Some(id)).Chosen?
    ensures Choose(cs, body, mode, Some(id)).order != []
    ensures Choose(cs, body, mode, Some(id)).order[0].id == id
  {
    ChoiceIsComplete(cs, body, mode, Some(id));
  }
}
