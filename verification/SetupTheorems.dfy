/** How the edits of the configuration end where no file operation fails, for any YAML, by what
  * is in the file. */
module SetupTheorems {
  import opened Options
  import opened Documents
  import opened Writers
  import opened Files
  import opened Setup

  /** The document and the text an edit starts from: those of the file, or nothing if there is
    * no file. */
  ghost predicate Starts(content: Option<Content>, yaml: Yaml, doc: Value, text: string) {
    match content
    case None => doc == Object(map[]) && text == ""
    case Some(Undecodable(_)) => false
    case Some(Utf8(t)) => text == Newlines(t) && yaml.load(text) == Loaded(doc)
  }

  /** The configuration as it was, and nothing saved. */
  ghost predicate Leaves(e: Edit, outcome: Outcome, content: Option<Content>) {
    e == Edit(outcome, content, None)
  }

  /** A new text in its place, and the old one saved if there was a file. */
  ghost predicate Writes(e: Edit, outcome: Outcome, content: Option<Content>, text: string, written: string) {
    e == Edit(outcome, Some(Utf8(written)), if content.Some? then Some(text) else None)
  }

  /** An edit put back after it was written: the text it started from, or no file. */
  ghost predicate TakesBack(e: Edit, content: Option<Content>, text: string) {
    && e.outcome == Refused
    && e.config == (if text == "" then None else Some(Utf8(text)))
    && e.saved == if content.Some? then Some(text) else None
  }

  /** No edit touches a file it cannot load: it raises if the bytes are not text or loading
    * raises, and refuses if YAML objects. */
  lemma {:induction false} UnreadableStays(content: Content, yaml: Yaml, w: Writer)
    ensures content.Undecodable? || yaml.load(Newlines(content.text)).Raises? ==>
      Leaves(Enable(Some(content), yaml), RaisedBefore, Some(content))
      && Leaves(Rewritten(Some(content), yaml, w), RaisedBefore, Some(content))
    ensures content.Utf8? && yaml.load(Newlines(content.text)).NotYaml? ==>
      Leaves(Enable(Some(content), yaml), Refused, Some(content))
      && Leaves(Rewritten(Some(content), yaml, w), Refused, Some(content))
  {
  }

  /** The edited text loads as a document that names the plugin and is, without it, what the
    * original was. */
  ghost predicate AddsTheName(yaml: Yaml, from: Value, edited: string) {
    && yaml.load(Newlines(edited)).Loaded? && NamesControl(yaml.load(Newlines(edited)).doc)
    && yaml.encode(from).Some? && yaml.encode(yaml.load(Newlines(edited)).doc).Some?
    && Trimmed(yaml.encode(yaml.load(Newlines(edited)).doc).value) == yaml.encode(from).value
  }

  /** Loading the edited text raises, or JSON cannot take the original or what was loaded. */
  ghost predicate CheckRaises(yaml: Yaml, from: Value, edited: string) {
    || yaml.load(Newlines(edited)).Raises?
    || yaml.encode(from).None?
    || (yaml.load(Newlines(edited)).Loaded? && yaml.encode(yaml.load(Newlines(edited)).doc).None?)
  }

  /** Enabling the plugin: nothing to do if it is named, nothing done if there is no place for
    * it; and otherwise the edited text stays if it adds the name, or if its check raises, and
    * goes again in all other cases, leaving an empty file where there was none. */
  lemma {:induction false} PluginEnds(content: Option<Content>, yaml: Yaml, doc: Value, text: string)
    requires Starts(content, yaml, doc, text)
    ensures var e, edited := Enable(content, yaml), yaml.plan(text, doc);
      if content.Some? && NamesControl(doc) then Leaves(e, Done, content)
      else if edited.None? then Leaves(e, Refused, content)
      else if CheckRaises(yaml, doc, edited.value) then Writes(e, RaisedAfter, content, text, edited.value)
      else if AddsTheName(yaml, doc, edited.value) then Writes(e, Done, content, text, edited.value)
      else Writes(e, Refused, content, text, text)
  {
  }

  /** The document with the alias, and with nothing else different. */
  ghost predicate WithAlias(doc: Value, baseUrl: string, now: Value) {
    HasAlias(now, baseUrl) && OnlyUnder(ALIASES, doc, now) && OnlyWithin(ALIASES, {AUTO}, doc, now)
  }

  /** What is written of a new document and becomes of it: nothing if it cannot be dumped; and
    * otherwise it stays if its check passes, or raises, and goes again if it fails. */
  ghost predicate WritesOut(
    e: Edit, content: Option<Content>, text: string, dumped: Option<string>, passes: bool, raises: bool)
  {
    if dumped.None? then Leaves(e, RaisedBefore, content)
    else if raises then Writes(e, RaisedAfter, content, text, dumped.value)
    else if passes then Writes(e, Done, content, text, dumped.value)
    else TakesBack(e, content, text)
  }

  lemma {:induction false} RewriteEnds(content: Option<Content>, yaml: Yaml, w: Writer, doc: Value, text: string)
    requires Starts(content, yaml, doc, text)
    ensures var e := Rewritten(content, yaml, w);
      match w.change(doc)
      case AsItIs => Leaves(e, Done, content)
      case Refuses => Leaves(e, Refused, content)
      case Breaks => Leaves(e, RaisedBefore, content)
      case Put(now, rendered) =>
        var verdict := w.check(now, Newlines(rendered));
        WritesOut(e, content, text, Some(rendered), verdict.Passes?, verdict.Throws?)
  {
  }

  /** Adding the alias: nothing to do if it is there, nothing done if there is no room for it, and
    * otherwise the document with the alias is written and has to read back as itself. */
  lemma {:induction false} AliasEnds(
    content: Option<Content>, yaml: Yaml, dump: Value -> Option<string>, baseUrl: string, doc: Value, text: string)
    returns (now: Value)
    requires Starts(content, yaml, doc, text)
    ensures var e := Rewritten(content, yaml, AliasWriter(yaml, dump, baseUrl));
      if !Writable(doc, ALIASES) then Leaves(e, Refused, content)
      else if HasAlias(doc, baseUrl) then Leaves(e, Done, content)
      else
        var read := if dump(now).Some? then yaml.load(Newlines(dump(now).value)) else Raises;
        WithAlias(doc, baseUrl, now) && WritesOut(e, content, text, dump(now), read == Loaded(now), read.Raises?)
  {
    AddAliasIs(doc, baseUrl);
    RewriteEnds(content, yaml, AliasWriter(yaml, dump, baseUrl), doc, text);
    now := if AddAlias(doc, baseUrl).New? then AddAlias(doc, baseUrl).doc else doc;
  }

  /** Writing the candidates: nothing done if there is no room for them, and otherwise the document
    * with them is written and has to satisfy the loader. */
  lemma {:induction false} CandidatesEnd(
    content: Option<Content>, yaml: Yaml, dump: Value -> Option<string>, candidates: Value, configOk: string -> Verdict,
    doc: Value, text: string)
    returns (now: Value)
    requires Starts(content, yaml, doc, text)
    ensures var e := Rewritten(content, yaml, CandidateWriter(dump, candidates, configOk));
      if !Writable(doc, ROUTER) then Leaves(e, Refused, content)
      else
        var verdict := if dump(now).Some? then configOk(Newlines(dump(now).value)) else Throws;
        && HasCandidates(now, candidates) && OnlyCandidatesDiffer(doc, now)
        && WritesOut(e, content, text, dump(now), verdict.Passes?, verdict.Throws?)
  {
    SetCandidatesIs(doc, candidates);
    RewriteEnds(content, yaml, CandidateWriter(dump, candidates, configOk), doc, text);
    now := if SetCandidates(doc, candidates).New? then SetCandidates(doc, candidates).doc else doc;
  }
}
