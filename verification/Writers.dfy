/** What the two other writers of the configuration make of a document. */
module Writers {
  import opened Options
  import opened YamlLines
  import opened Documents

  const ALIASES := Other("model_aliases")
  const AUTO := Other("auto")
  const ROUTER := Other("auto_router")
  const UPSTREAM := Other("upstream")
  const CANDIDATES := Other("candidates")
  const PROVIDER := "hermes-auto"

  /** What is to be written: nothing, nothing because the shape is not one to write into,
    * or a new document. */
  datatype Draft = Same | Unfit | New(doc: Value)

  /** The mapping under a name; one that is not there or null counts as empty. */
  function MappingAt(doc: Value, name: Name): Option<map<Name, Value>> {
    if !doc.Object? then None
    else if name !in doc.fields || doc.fields[name].Null? then Some(map[])
    else if doc.fields[name].Object? then Some(doc.fields[name].fields)
    else None
  }

  /** The alias `/model auto` resolves to. */
  function Target(baseUrl: string): Value {
    Object(map[Other("model") := Atom("auto"), Other("provider") := Atom(PROVIDER), Other("base_url") := Atom(baseUrl)])
  }

  /** `enable_model_alias` up to its writing. */
  function AddAlias(doc: Value, baseUrl: string): Draft {
    match MappingAt(doc, ALIASES)
    case None => Unfit
    case Some(aliases) =>
      if AUTO in aliases && aliases[AUTO] == Target(baseUrl) then Same
      else New(Object(doc.fields[ALIASES := Object(aliases[AUTO := Target(baseUrl)])]))
  }

  /** `_write_candidate_config` up to its writing. */
  function SetCandidates(doc: Value, candidates: Value): Draft {
    match MappingAt(doc, ROUTER)
    case None => Unfit
    case Some(root) =>
      New(Object(doc.fields[ROUTER := Object((root - {UPSTREAM})[CANDIDATES := candidates])]))
  }

  // ---------------------------------------------------------------- what the drafts are

  /** The value under a name within the mapping under another. */
  function Inside(doc: Value, name: Name, inner: Name): Option<Value> {
    if doc.Object? && name in doc.fields && doc.fields[name].Object? && inner in doc.fields[name].fields
    then Some(doc.fields[name].fields[inner]) else None
  }

  /** The alias `auto` stands for the model `auto` of this project's provider at the URL, and
    * says nothing else. */
  predicate HasAlias(doc: Value, baseUrl: string) {
    var alias := Inside(doc, Other("model_aliases"), Other("auto"));
    && alias.Some? && alias.value.Object?
    && alias.value.fields.Keys == {Other("model"), Other("provider"), Other("base_url")}
    && alias.value.fields[Other("model")] == Atom("auto")
    && alias.value.fields[Other("provider")] == Atom("hermes-auto")
    && alias.value.fields[Other("base_url")] == Atom(baseUrl)
  }

  /** There is a mapping under the name, or room for one. */
  predicate Writable(doc: Value, name: Name) {
    doc.Object? && (name in doc.fields ==> doc.fields[name].Null? || doc.fields[name].Object?)
  }

  /** The two documents differ under this name at most. */
  ghost predicate OnlyUnder(name: Name, was: Value, now: Value) {
    && was.Object? && now.Object?
    && forall other :: other != name ==>
         (other in now.fields <==> other in was.fields)
         && (other in was.fields ==> now.fields[other] == was.fields[other])
  }

  /** The mappings under a name differ under these names at most. */
  ghost predicate OnlyWithin(name: Name, inside: set<Name>, was: Value, now: Value) {
    forall other :: other !in inside ==> Inside(now, name, other) == Inside(was, name, other)
  }

  /** The candidates are in the router's block, and no fixed upstream is. */
  predicate HasCandidates(doc: Value, candidates: Value) {
    && Inside(doc, Other("auto_router"), Other("candidates")) == Some(candidates)
    && Inside(doc, Other("auto_router"), Other("upstream")) == None
  }

  ghost predicate OnlyCandidatesDiffer(was: Value, now: Value) {
    && OnlyUnder(Other("auto_router"), was, now)
    && OnlyWithin(Other("auto_router"), {Other("upstream"), Other("candidates")}, was, now)
  }

  lemma {:induction false} TargetIs(target: Value, baseUrl: string)
    ensures target == Target(baseUrl) <==>
      && target.Object? && target.fields.Keys == {Other("model"), Other("provider"), Other("base_url")}
      && target.fields[Other("model")] == Atom("auto")
      && target.fields[Other("provider")] == Atom("hermes-auto")
      && target.fields[Other("base_url")] == Atom(baseUrl)
  {
    assert "model"[0] == 'm' && "provider"[0] == 'p' && "base_url"[0] == 'b';
    var fields := Target(baseUrl).fields;
    assert fields.Keys == {Other("model"), Other("provider"), Other("base_url")};
    if target.Object? && target.fields.Keys == fields.Keys
      && target.fields[Other("model")] == Atom("auto") && target.fields[Other("provider")] == Atom("hermes-auto")
      && target.fields[Other("base_url")] == Atom(baseUrl) {
      assert target.fields == fields;
    }
  }

  /** The alias writer refuses exactly where there is no room for it, leaves a document that
    * has the alias alone, and otherwise drafts the document that has it and differs in
    * nothing else. */
  lemma {:induction false} AddAliasIs(doc: Value, baseUrl: string)
    ensures
      match AddAlias(doc, baseUrl)
      case Same => Writable(doc, Other("model_aliases")) && HasAlias(doc, baseUrl)
      case Unfit => !Writable(doc, Other("model_aliases"))
      case New(now) =>
        && Writable(doc, Other("model_aliases")) && !HasAlias(doc, baseUrl) && HasAlias(now, baseUrl)
        && OnlyUnder(Other("model_aliases"), doc, now) && OnlyWithin(Other("model_aliases"), {Other("auto")}, doc, now)
        && (NamesControl(now) <==> NamesControl(doc)) && AddAlias(now, baseUrl) == Same
  {
    var found := Inside(doc, ALIASES, AUTO);
    if found.Some? { TargetIs(found.value, baseUrl); }
    TargetIs(Target(baseUrl), baseUrl);
  }

  /** The candidate writer refuses exactly where there is no room, and otherwise drafts the
    * document that has the candidates and no fixed upstream and differs in nothing else. */
  lemma {:induction false} SetCandidatesIs(doc: Value, candidates: Value)
    ensures
      match SetCandidates(doc, candidates)
      case Same => false
      case Unfit => !Writable(doc, Other("auto_router"))
      case New(now) =>
        && Writable(doc, Other("auto_router"))
        && HasCandidates(now, candidates) && OnlyCandidatesDiffer(doc, now)
  {
    assert "upstream"[0] == 'u' && "candidates"[0] == 'c';
  }
}
