/** Enabling the plugin in a block-style configuration: from the bytes of the file to how
  * the command's edit ends. */
module EnableTheorems {
  import opened Options
  import opened YamlLines
  import opened ConfigEdit
  import opened EditTheorems
  import opened Documents
  import opened EditFinds
  import opened EditOutcome
  import opened EditDates
  import opened YamlText
  import opened Files
  import Setup

  function PlanFor(text: string, doc: Value): Option<string> {
    if doc.Object? then PlanText(text, ShapeOfValue(doc)) else None
  }

  /** YAML on the subset, JSON, and the edit. */
  const BLOCK_YAML := Setup.Yaml(LoadText, Encoded, PlanFor)

  // ---------------------------------------------------------------- no carriage returns

  predicate NoReturn(s: string) {
    '\r' !in s
  }

  lemma {:induction false} NoReturnInRaws(ls: seq<Line>)
    ensures NoReturn(Concat(Raws(ls)))
  {
    if ls != [] {
      NoReturnInRaws(ls[1..]);
      NoReturnInRaw(ls[0]);
    }
  }

  lemma {:induction false} NoReturnInRaw(l: Line)
    ensures NoReturn(RawOf(l))
  {
    SpacesIs(l.indent);
    PlainName();
    assert NoReturn("- ") && NoReturn("enabled:") && NoReturn(CONTROL_NAME);
  }

  lemma {:induction false} NoReturnInParts(pieces: seq<string>, at: nat)
    requires at <= |pieces| && NoReturn(Concat(pieces))
    ensures NoReturn(Concat(pieces[..at])) && NoReturn(Concat(pieces[at..]))
  {
    assert pieces == pieces[..at] + pieces[at..];
    ConcatJoin(pieces[..at], pieces[at..]);
  }

  /** The edited text reads back as it was written. */
  lemma {:induction false} PlanHasNoReturn(text: string, shape: Shape)
    requires NoReturn(text) && PlanText(text, shape).Some?
    ensures NoReturn(PlanText(text, shape).value)
  {
    if shape.NoPlugins? {
      NoReturnInRaws(NewList());
      LexComment();
      assert NoReturn("\n") && NoReturn("\nplugins:\n") && Printable(ADDED_COMMENT);
    } else {
      var pieces := Split(text);
      var place := PlaceWithin(LinesOf(pieces), shape);
      SplitIsWell(text);
      NoReturnInParts(pieces, place.at);
      NoReturnInRaws(place.more);
    }
  }

  // ---------------------------------------------------------------- how the edit ends

  /** The file, or its absence, as a document of the subset. */
  ghost predicate Starts(content: Option<Files.Content>, text: string, d: Value) {
    && Once(DocOf(text).lines) && d.Object?
    && match content
       case None => text == "" && d == Setup.EMPTY
       case Some(Utf8(t)) => text == Newlines(t) && LoadText(text) == Loaded(d)
       case Some(Undecodable(_)) => false
  }

  lemma {:induction false} NothingIsEmpty()
    ensures DocOf("") == Document([], Newline) && LoadText("") == Loaded(Setup.EMPTY) && Once([])
    ensures !NamesControl(Setup.EMPTY)
  {
    assert Entries([], 0) == Some([]);
    assert FieldsOf([]) == Some(map[]);
  }

  lemma {:induction false} StartIsLoaded(content: Option<Files.Content>, text: string, d: Value)
    requires Starts(content, text, d)
    ensures LoadText(text) == Loaded(d) && NoReturn(text)
  {
    NothingIsEmpty();
    if content.Some? { NewlinesKeepIff(content.value.text); }
  }

  /** What the check says about the edited text. */
  lemma {:induction false} CheckedIs(text: string, d: Value)
    requires Once(DocOf(text).lines) && LoadText(text) == Loaded(d) && NoReturn(text)
    requires d.Object? && !NamesControl(d) && PlanFor(text, d).Some?
    ensures Setup.CheckEdit(BLOCK_YAML, d, PlanFor(text, d).value) ==
      if HasDateKey(d) then Setup.Throws else if WillAdd(DocOf(text), d) then Setup.Passes else Setup.Fails
  {
    var edited := PlanFor(text, d).value;
    PlanReads(text, ShapeOfValue(d));
    PlanHasNoReturn(text, ShapeOfValue(d));
    NewlinesKeepIff(edited);
    LoadedAgain(DocOf(text), d);
    assert BLOCK_YAML.load(Newlines(edited)) == LoadText(edited);
  }

  /** Where there is nothing to put in, the edit would not have gone through either. */
  lemma {:induction false} UnplannedWillNotAdd(text: string, d: Value)
    requires Once(DocOf(text).lines) && LoadText(text) == Loaded(d) && d.Object? && !NamesControl(d)
    requires PlanFor(text, d).None?
    ensures !WillAdd(DocOf(text), d)
  {
    PlanReads(text, ShapeOfValue(d));
    AcceptedIff(DocOf(text), d);
  }

  /** How an edit that finds something to put in ends. */
  ghost predicate EndsAs(e: Setup.Edit, content: Option<Files.Content>, text: string, d: Value)
    requires d.Object? && PlanFor(text, d).Some?
  {
    && (e.outcome.RaisedAfter? <==> HasDateKey(d))
    && (e.outcome.Done? <==> !HasDateKey(d) && WillAdd(DocOf(text), d))
    && (e.outcome.Refused? <==> !HasDateKey(d) && !WillAdd(DocOf(text), d))
    && e.config == Some(Utf8(if e.outcome.Refused? then text else PlanFor(text, d).value))
    && e.saved == if content.Some? then Some(text) else None
  }

  lemma {:induction false} FromHere(content: Option<Files.Content>, text: string, d: Value)
    requires Once(DocOf(text).lines) && LoadText(text) == Loaded(d) && NoReturn(text)
    requires d.Object? && !NamesControl(d) && PlanFor(text, d).Some?
    ensures EndsAs(Setup.EnableFrom(content, BLOCK_YAML, d, text), content, text, d)
  {
    CheckedIs(text, d);
    assert BLOCK_YAML.plan(text, d) == PlanFor(text, d);
  }

  /** How enabling the plugin ends, for every file of the subset and where no operation
    * fails. It is done without a write if the name is there. Otherwise it raises, with
    * the edited text in place, exactly if there is something to put in and a date is a
    * key; it is done, with the edited text in place, exactly if none is and the file
    * looks as `WillAdd` says; and else it is refused, with the file as it was or - if
    * there was something to put in - with its text. */
  lemma {:induction false} EnableEnds(content: Option<Files.Content>, text: string, d: Value)
    requires Starts(content, text, d)
    ensures
      var e := Setup.Enable(content, BLOCK_YAML);
      if content.Some? && NamesControl(d) then e == Setup.Untouched(Setup.Done, content)
      else if PlanFor(text, d).None? then e == Setup.Untouched(Setup.Refused, content) && !WillAdd(DocOf(text), d)
      else EndsAs(e, content, text, d)
  {
    StartIsLoaded(content, text, d);
    NothingIsEmpty();
    EnableIsFrom(content, text, d);
    if !NamesControl(d) {
      if PlanFor(text, d).None? {
        UnplannedWillNotAdd(text, d);
      } else {
        FromHere(content, text, d);
      }
    }
  }

  lemma {:induction false} EnableIsFrom(content: Option<Files.Content>, text: string, d: Value)
    requires Starts(content, text, d) && LoadText(text) == Loaded(d)
    ensures Setup.Enable(content, BLOCK_YAML) ==
      if content.Some? && NamesControl(d) then Setup.Untouched(Setup.Done, content)
      else Setup.EnableFrom(content, BLOCK_YAML, d, text)
  {
    assert content.Some? ==> Setup.LoadOf(content, BLOCK_YAML) == Setup.Document(d, text);
  }
}
