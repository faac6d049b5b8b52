/** From the `auto_router` block of a configuration file to the candidates the router
  * is built on. */
module Config {
  import opened Options
  import opened Routing
  import opened Text

  /** A parsed mapping: the value under each key a candidate may have, and the number
    * of other keys. */
  datatype Entries = Entries(
    id: Option<Yaml>,
    provider: Option<Yaml>,
    model: Option<Yaml>,
    baseUrl: Option<Yaml>,
    credentialRef: Option<Yaml>,
    tier: Option<Yaml>,
    contextWindow: Option<Yaml>,
    supportsTools: Option<Yaml>,
    supportsVision: Option<Yaml>,
    unknown: nat)

  datatype Yaml =
    | Null
    | Boolean(flag: bool)
    | Integer(number: int)
    | Words(text: string)
    | List(items: seq<Yaml>)
    | Block(entries: Entries)

  /** The two checks that look inside a string. */
  datatype Checks = Checks(baseUrlOk: string -> bool, credentialRefOk: string -> bool)

  datatype Loaded = Ready(candidates: seq<Candidate>) | Refused(at: nat)

  // ---------------------------------------------------------------- one candidate

  /** The string under a key: present, a string, and not blank once stripped. */
  function RequiredString(entry: Option<Yaml>): (r: Option<string>)
    ensures r.Some? ==> r.value != "" && Strip(r.value, IsSpace) == r.value
    ensures r.None? <==> entry.None? || !entry.value.Words? || forall c <- entry.value.text :: IsSpace(c)
  {
    if entry.None? || !entry.value.Words? then None
    else
      var value := Strip(entry.value.text, IsSpace);
      NothingToStrip(value, IsSpace);
      if value == "" then None else Some(value)
  }

  function TierOf(name: string): Option<Tier> {
    if name == "fast" then Some(Fast)
    else if name == "balanced" then Some(Balanced)
    else if name == "strong" then Some(Strong)
    else None
  }

  /** A block that says, with the right types, everything a candidate needs, and
    * nothing else. */
  predicate Usable(item: Yaml, checks: Checks) {
    && item.Block?
    && var e := item.entries;
    && e.unknown == 0
    && RequiredString(e.id).Some? && RequiredString(e.provider).Some? && RequiredString(e.model).Some?
    && RequiredString(e.baseUrl).Some? && checks.baseUrlOk(RequiredString(e.baseUrl).value)
    && RequiredString(e.credentialRef).Some? && checks.credentialRefOk(RequiredString(e.credentialRef).value)
    && RequiredString(e.tier).Some? && TierOf(RequiredString(e.tier).value).Some?
    && e.contextWindow.Some? && e.contextWindow.value.Integer? && e.contextWindow.value.number > 0
    && e.supportsTools.Some? && e.supportsTools.value.Boolean?
    && e.supportsVision.Some? && e.supportsVision.value.Boolean?
  }

  predicate Says(item: Yaml, c: Candidate) {
    && item.Block?
    && var e := item.entries;
    && RequiredString(e.id) == Some(c.id)
    && RequiredString(e.provider) == Some(c.provider)
    && RequiredString(e.model) == Some(c.model)
    && RequiredString(e.baseUrl) == Some(c.baseUrl)
    && RequiredString(e.credentialRef) == Some(c.credentialRef)
    && RequiredString(e.tier).Some? && TierOf(RequiredString(e.tier).value) == Some(c.tier)
    && e.contextWindow == Some(Integer(c.contextWindow))
    && e.supportsTools == Some(Boolean(c.supportsTools))
    && e.supportsVision == Some(Boolean(c.supportsVision))
  }

  /** What an item says, if it is usable. */
  function Reading(item: Yaml, checks: Checks): (r: Option<Candidate>)
    ensures r.Some? <==> Usable(item, checks)
    ensures r.Some? ==> Says(item, r.value) && r.value.id != "" && r.value.contextWindow > 0
  {
    if !Usable(item, checks) then None
    else
      var e := item.entries;
      Some(Candidate(
        RequiredString(e.id).value, RequiredString(e.provider).value, RequiredString(e.model).value,
        RequiredString(e.baseUrl).value, RequiredString(e.credentialRef).value,
        TierOf(RequiredString(e.tier).value).value, e.contextWindow.value.number,
        e.supportsTools.value.flag, e.supportsVision.value.flag))
  }

  /** The key is there, with a string, and `value` is that string without the white space at its
    * ends, and not empty. */
  ghost predicate Gives(entry: Option<Yaml>, value: string) {
    entry.Some? && entry.value.Words? && value != "" && StrippedTo(entry.value.text, IsSpace, value)
  }

  function TierName(tier: Tier): string {
    match tier case Fast => "fast" case Balanced => "balanced" case Strong => "strong"
  }

  /** The item is a mapping with exactly the nine keys of a candidate, and says just this one:
    * five non-empty strings, two of which pass their checks, the name of its tier, a positive
    * context window and two flags. */
  ghost predicate Describes(item: Yaml, checks: Checks, c: Candidate) {
    && item.Block? && item.entries.unknown == 0
    && var e := item.entries;
    && Gives(e.id, c.id) && Gives(e.provider, c.provider) && Gives(e.model, c.model)
    && Gives(e.baseUrl, c.baseUrl) && checks.baseUrlOk(c.baseUrl)
    && Gives(e.credentialRef, c.credentialRef) && checks.credentialRefOk(c.credentialRef)
    && Gives(e.tier, TierName(c.tier))
    && e.contextWindow == Some(Integer(c.contextWindow)) && c.contextWindow > 0
    && e.supportsTools == Some(Boolean(c.supportsTools)) && e.supportsVision == Some(Boolean(c.supportsVision))
  }

  lemma {:induction false} GivesIs(entry: Option<Yaml>, value: string)
    ensures Gives(entry, value) <==> RequiredString(entry) == Some(value)
  {
    if entry.Some? && entry.value.Words? {
      StripIs(entry.value.text, IsSpace, value);
    }
  }

  lemma {:induction false} TierNamed(name: string, tier: Tier)
    ensures TierOf(name) == Some(tier) <==> name == TierName(tier)
  {
    assert "fast"[0] == 'f' && "balanced"[0] == 'b' && "strong"[0] == 's';
  }

  lemma {:induction false} SaysIs(item: Yaml, c: Candidate)
    requires item.Block?
    ensures Says(item, c) <==>
      var e := item.entries;
      && Gives(e.id, c.id) && Gives(e.provider, c.provider) && Gives(e.model, c.model)
      && Gives(e.baseUrl, c.baseUrl) && Gives(e.credentialRef, c.credentialRef)
      && Gives(e.tier, TierName(c.tier))
      && e.contextWindow == Some(Integer(c.contextWindow))
      && e.supportsTools == Some(Boolean(c.supportsTools)) && e.supportsVision == Some(Boolean(c.supportsVision))
  {
    var e := item.entries;
    GivesIs(e.id, c.id);
    GivesIs(e.provider, c.provider);
    GivesIs(e.model, c.model);
    GivesIs(e.baseUrl, c.baseUrl);
    GivesIs(e.credentialRef, c.credentialRef);
    TierSaid(e.tier, c.tier);
  }

  lemma {:induction false} TierSaid(entry: Option<Yaml>, tier: Tier)
    ensures Gives(entry, TierName(tier)) <==>
      RequiredString(entry).Some? && TierOf(RequiredString(entry).value) == Some(tier)
  {
    GivesIs(entry, TierName(tier));
    if RequiredString(entry).Some? { TierNamed(RequiredString(entry).value, tier); }
  }

  lemma {:induction false} UsableAndSays(item: Yaml, checks: Checks, c: Candidate)
    requires item.Block? && Says(item, c)
    ensures Usable(item, checks) <==>
      item.entries.unknown == 0 && checks.baseUrlOk(c.baseUrl) && checks.credentialRefOk(c.credentialRef) && c.contextWindow > 0
  {
  }

  lemma {:induction false} SaysOne(item: Yaml, c: Candidate, d: Candidate)
    requires Says(item, c) && Says(item, d)
    ensures c == d
  {
  }

  /** An item reads as a candidate exactly if it describes it. */
  lemma {:induction false} ReadsWhatItDescribes(item: Yaml, checks: Checks, c: Candidate)
    ensures Reading(item, checks) == Some(c) <==> Describes(item, checks, c)
  {
    var reading := Reading(item, checks);
    if item.Block? {
      SaysIs(item, c);
      if Says(item, c) {
        UsableAndSays(item, checks, c);
        if reading.Some? { SaysOne(item, c, reading.value); }
      }
    }
  }

  function Readings(items: seq<Yaml>, checks: Checks): (rs: seq<Option<Candidate>>)
    ensures |rs| == |items|
  {
    if items == [] then []
    else Readings(items[..|items| - 1], checks) + [Reading(items[|items| - 1], checks)]
  }

  lemma {:induction false} ReadingAt(items: seq<Yaml>, checks: Checks, n: nat)
    requires n < |items|
    ensures Readings(items, checks)[n] == Reading(items[n], checks)
  {
    if n < |items| - 1 {
      ReadingAt(items[..|items| - 1], checks, n);
    }
  }

  /** One item of the list, checked in the order the loader checks it. */
  method BuildCandidate(item: Yaml, checks: Checks, seen: set<string>) returns (r: Option<Candidate>)
    ensures r == var reading := Reading(item, checks);
      if reading.Some? && reading.value.id !in seen then reading else None
  {
    // An empty item reads as an empty mapping, which has no id.
    if !item.Block? || item.entries.unknown > 0 { return None; }
    var e := item.entries;
    var id := RequiredString(e.id);
    if id.None? || id.value in seen { return None; }
    var tier := RequiredString(e.tier);
    if tier.None? || TierOf(tier.value).None? { return None; }
    if e.contextWindow.None? || !e.contextWindow.value.Integer? || e.contextWindow.value.number <= 0 { return None; }
    if e.supportsTools.None? || e.supportsVision.None? { return None; }
    var baseUrl := RequiredString(e.baseUrl);
    if baseUrl.None? || !checks.baseUrlOk(baseUrl.value) { return None; }
    var credentialRef := RequiredString(e.credentialRef);
    if credentialRef.None? || !checks.credentialRefOk(credentialRef.value) { return None; }
    var provider, model := RequiredString(e.provider), RequiredString(e.model);
    if provider.None? || model.None? { return None; }
    if !e.supportsTools.value.Boolean? || !e.supportsVision.value.Boolean? { return None; }
    r := Some(Candidate(
      id.value, provider.value, model.value, baseUrl.value, credentialRef.value, TierOf(tier.value).value,
      e.contextWindow.value.number, e.supportsTools.value.flag, e.supportsVision.value.flag));
  }

  // ---------------------------------------------------------------- the list

  /** The reading at `n` can be taken after the ones before it. */
  ghost predicate Fits(readings: seq<Option<Candidate>>, n: nat)
    requires n < |readings|
  {
    readings[n].Some? && forall i :: 0 <= i < n && readings[i].Some? ==> readings[i].value.id != readings[n].value.id
  }

  /** The candidates are the first readings, each of which fits. */
  ghost predicate Taken(readings: seq<Option<Candidate>>, cs: seq<Candidate>) {
    |cs| <= |readings| && forall i :: 0 <= i < |cs| ==> readings[i] == Some(cs[i]) && Fits(readings, i)
  }

  lemma TakenHasUniqueIds(readings: seq<Option<Candidate>>, cs: seq<Candidate>)
    requires Taken(readings, cs)
    ensures UniqueIds(cs)
  {
    forall i, j | 0 <= i < j < |cs| ensures cs[i].id != cs[j].id {
      assert readings[i] == Some(cs[i]) && Fits(readings, j);
    }
  }

  function Ids(cs: seq<Candidate>): set<string> {
    if cs == [] then {} else Ids(cs[..|cs| - 1]) + {cs[|cs| - 1].id}
  }

  lemma {:induction false} IdsAreListed(cs: seq<Candidate>, id: string)
    ensures id in Ids(cs) <==> exists i :: 0 <= i < |cs| && cs[i].id == id
  {
    if cs != [] {
      var rest := cs[..|cs| - 1];
      IdsAreListed(rest, id);
      if cs[|cs| - 1].id != id && exists i :: 0 <= i < |cs| && cs[i].id == id {
        var i :| 0 <= i < |cs| && cs[i].id == id;
        assert rest[i].id == id;
      }
    }
  }

  lemma FitsIffUnseen(readings: seq<Option<Candidate>>, cs: seq<Candidate>)
    requires Taken(readings, cs) && |cs| < |readings|
    ensures Fits(readings, |cs|) <==> readings[|cs|].Some? && readings[|cs|].value.id !in Ids(cs)
  {
    if readings[|cs|].Some? {
      IdsAreListed(cs, readings[|cs|].value.id);
      assert forall i :: 0 <= i < |cs| ==> readings[i] == Some(cs[i]);
    }
  }

  lemma TakeNext(readings: seq<Option<Candidate>>, cs: seq<Candidate>, c: Candidate)
    requires Taken(readings, cs) && |cs| < |readings|
    requires Fits(readings, |cs|) && readings[|cs|] == Some(c)
    ensures Taken(readings, cs + [c]) && Ids(cs + [c]) == Ids(cs) + {c.id}
  {
    assert (cs + [c])[..|cs|] == cs;
  }

  /** The loader takes a list exactly when it is not empty and every item fits after
    * those before it; the candidates are then what the items say, in their order, and
    * the router may be built on them. Otherwise it stops at the first that does not
    * fit. */
  method BuildCandidates(raw: Yaml, checks: Checks) returns (r: Loaded)
    ensures r.Ready? ==>
      && raw.List? && |r.candidates| == |raw.items|
      && Taken(Readings(raw.items, checks), r.candidates) && Accepted(r.candidates)
    ensures r.Refused? && raw.List? && raw.items != [] ==>
      && r.at < |raw.items| && !Fits(Readings(raw.items, checks), r.at)
      && forall i :: 0 <= i < r.at ==> Fits(Readings(raw.items, checks), i)
    ensures !raw.List? || raw.items == [] ==> r == Refused(0)
  {
    if !raw.List? || raw.items == [] { return Refused(0); }
    ghost var readings := Readings(raw.items, checks);
    var candidates: seq<Candidate>, seen: set<string> := [], {};
    for n := 0 to |raw.items|
      invariant |candidates| == n && Taken(readings, candidates)
      invariant seen == Ids(candidates)
      invariant forall c <- candidates :: c.id != "" && c.contextWindow > 0
    {
      var c := BuildCandidate(raw.items[n], checks, seen);
      ReadingAt(raw.items, checks, n);
      FitsIffUnseen(readings, candidates);
      if c.None? { return Refused(n); }
      TakeNext(readings, candidates, c.value);
      seen := seen + {c.value.id};
      candidates := candidates + [c.value];
    }
    TakenHasUniqueIds(readings, candidates);
    r := Ready(candidates);
  }

  // ---------------------------------------------------------------- the whole block

  datatype Target = Target(baseUrl: string, model: string, credentialRef: string)

  datatype Settings = Settings(upstream: Target, candidates: seq<Candidate>)

  const DEFAULT_CONTEXT_WINDOW := 128000

  /** The one candidate a fixed upstream stands for. */
  function Legacy(upstream: Target): Candidate {
    Candidate(
      "legacy-upstream", "openai-compatible", upstream.model, upstream.baseUrl, upstream.credentialRef,
      Balanced, DEFAULT_CONTEXT_WINDOW, true, true)
  }

  /** A balanced candidate that can do everything, at the fixed target. */
  ghost predicate StandsFor(c: Candidate, target: Target) {
    && c.baseUrl == target.baseUrl && c.model == target.model && c.credentialRef == target.credentialRef
    && c.id == "legacy-upstream" && c.provider == "openai-compatible" && c.tier == Balanced
    && c.contextWindow == 128000 && c.supportsTools && c.supportsVision
  }

  function ResolvedCandidates(s: Settings): seq<Candidate> {
    if s.candidates != [] then s.candidates else [Legacy(s.upstream)]
  }

  /** A list that `BuildCandidates` takes. */
  ghost predicate Takeable(raw: Yaml, checks: Checks) {
    raw.List? && raw.items != [] && forall i :: 0 <= i < |raw.items| ==> Fits(Readings(raw.items, checks), i)
  }

  /** What is under the router's key: its three keys, and how many others. */
  datatype Root =
    | NotAMapping
    | Root(gateway: Option<Yaml>, upstream: Option<Yaml>, candidates: Option<Yaml>, unknown: nat)

  /** Whether the gateway block is accepted, and the fixed target an upstream block
    * stands for unless it is refused; a block may be missing. */
  datatype Blocks = Blocks(gatewayOk: Option<Yaml> -> bool, upstream: Option<Yaml> -> Option<Target>)

  /** A block that is a mapping, or missing, or null. */
  predicate MayBeBlock(block: Option<Yaml>) {
    block.None? || block.value.Null? || block.value.Block?
  }

  /** What the loader refuses. */
  ghost predicate Refusable(root: Root, blocks: Blocks, checks: Checks) {
    || root.NotAMapping? || root.unknown > 0
    || (root.gateway.Some? && !root.gateway.value.Null? && !root.gateway.value.Block?)
    || (root.upstream.Some? && !root.upstream.value.Null? && !root.upstream.value.Block?)
    || blocks.upstream(root.upstream).None? || !blocks.gatewayOk(root.gateway)
    || (root.candidates.Some? && (root.upstream.Some? || !Takeable(root.candidates.value, checks)))
  }

  /** From the root on: refused exactly for what is refusable; and what is loaded are the
    * candidates listed, or the fixed upstream as the only one. */
  method LoadCandidates(root: Root, blocks: Blocks, checks: Checks) returns (r: Option<Settings>)
    ensures r.None? <==> Refusable(root, blocks, checks)
    ensures r.Some? ==> Accepted(ResolvedCandidates(r.value))
    ensures r.Some? && root.candidates.Some? ==>
      && root.upstream.None? && |r.value.candidates| == |root.candidates.value.items|
      && Taken(Readings(root.candidates.value.items, checks), ResolvedCandidates(r.value))
    ensures r.Some? && root.candidates.None? ==>
      && |ResolvedCandidates(r.value)| == 1
      && StandsFor(ResolvedCandidates(r.value)[0], blocks.upstream(root.upstream).value)
  {
    if root.NotAMapping? || root.unknown > 0 { return None; }
    if !MayBeBlock(root.gateway) || !MayBeBlock(root.upstream) { return None; }
    var upstream := blocks.upstream(root.upstream);
    if upstream.None? { return None; }
    if root.candidates.Some? && root.upstream.Some? { return None; }
    var list := if root.upstream.Some? then [Legacy(upstream.value)] else [];
    if root.candidates.Some? {
      var loaded := BuildCandidates(root.candidates.value, checks);
      if loaded.Refused? { return None; }
      list := loaded.candidates;
    }
    if !blocks.gatewayOk(root.gateway) { return None; }
    r := Some(Settings(upstream.value, list));
  }
}
