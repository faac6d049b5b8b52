/** For every block-style file and by what the file says: whether the edited text passes
  * the check. */
module EditOutcome {
  import opened Options
  import opened YamlLines
  import opened ConfigEdit
  import opened EditMeaning
  import opened EditTheorems
  import opened Documents
  import opened EditValues
  import opened EditFinds

  /** Neither `plugins` nor, under it, `enabled` is a key twice. */
  ghost predicate Once(lines: seq<Line>) {
    && Meaning(lines).Some?
    && forall e <- Entries(lines, 0).value :: e.name == Plugins && Block(e).Some? ==> Unique(Block(e).value, Enabled)
  }

  /** What the parsed document says about `plugins`. */
  function ShapeOfValue(v: Value): Shape
    requires v.Object?
  {
    if Plugins !in v.fields then NoPlugins
    else if !v.fields[Plugins].Object? then NotAMap
    else if EnabledOf(v).None? then NoList
    else AList
  }

  // ---------------------------------------------------------------- both shapes agree

  lemma {:induction false} PluginsNamedIff(ms: seq<Section>, ps: Pairs, fields: map<Name, Value>)
    requires ps == SectionPairs(ms) && Dict(ps) == Some(fields)
    ensures HasPlugins(ms) <==> Plugins in fields
  {
    SectionNamesAt(ms);
    DictKeys(ps, Plugins);
    if Plugins in fields {
      var i :| 0 <= i < |ps| && ps[i].0 == Plugins;
      assert ms[i] in ms && NamesPlugins(ms[i]);
    }
    if s :| s in ms && NamesPlugins(s) {
      var i :| 0 <= i < |ms| && ms[i] == s;
      assert ps[i].0 == Plugins;
    }
  }

  /** The section of that name. */
  lemma {:induction false} SectionNamed(lines: seq<Line>, ms: seq<Section>, ps: Pairs, fields: map<Name, Value>)
    returns (j: nat)
    requires Meaning(lines) == Some(ms) && ps == SectionPairs(ms) && Dict(ps) == Some(fields) && Plugins in fields
    ensures j < |ms| && NamesPlugins(ms[j]) && SectionPair(ms[j]) == (Plugins, Some(fields[Plugins]))
    ensures forall s <- ms :: s.PluginsMap? ==> s == ms[j]
  {
    var es := Entries(lines, 0).value;
    SectionPairsAre(es);
    NamedOnceIff(es, Plugins);
    SectionNamesAt(ms);
    j := PairNamed(ps, fields);
    SectionPairAt(ms, j);
    OneMap(ms, ps, j);
  }

  lemma {:induction false} PairNamed(ps: Pairs, fields: map<Name, Value>) returns (j: nat)
    requires Dict(ps) == Some(fields) && Plugins in fields && NamedOnce(ps, Plugins)
    ensures j < |ps| && ps[j] == (Plugins, Some(fields[Plugins]))
  {
    DictKeys(ps, Plugins);
    j :| 0 <= j < |ps| && ps[j].0 == Plugins;
    DictLast(ps, j);
  }

  lemma {:induction false} OneMap(ms: seq<Section>, ps: Pairs, j: nat)
    requires |ps| == |ms| && forall i :: 0 <= i < |ms| ==> ps[i].0 == NameOfSection(ms[i])
    requires j < |ps| && ps[j].0 == Plugins && NamedOnce(ps, Plugins)
    ensures forall s <- ms :: s.PluginsMap? ==> s == ms[j]
  {
    forall s | s in ms && s.PluginsMap? ensures s == ms[j] {
      var i :| 0 <= i < |ms| && ms[i] == s;
      assert ps[i].0 == NameOfSection(ms[i]) == Plugins;
    }
  }

  /** A section whose value is a mapping is one that is looked into. */
  lemma {:induction false} MappingIsMap(lines: seq<Line>, ms: seq<Section>, j: nat)
    requires Once(lines) && Meaning(lines) == Some(ms) && j < |ms| && NamesPlugins(ms[j])
    requires SectionPair(ms[j]).1.Some?
    ensures SectionPair(ms[j]).1.value.Object? <==> ms[j].PluginsMap?
  {
    var es := Entries(lines, 0).value;
    SectionsAt(es);
    var e := es[j];
    assert ms[j] == SectionOf(e) && e in es;
    SectionPairIs(e);
    assert e.name == Plugins;
    if Block(e).Some? {
      BlockIsNoList(e);
    }
  }

  /** A readable `enabled` entry holds a list exactly if the edit takes it for one. */
  lemma {:induction false} ListValueIff(e: Entry)
    requires ValueOf(e).Some?
    ensures ValueOf(e).value.Array? <==> IsList(e)
  {
    if e.inline.None? && e.body != [] {
      assert e.body[0] in e.body;
    }
  }

  lemma {:induction false} ListedIff(children: seq<Child>, ps: Pairs, plugins: map<Name, Value>)
    requires ps == ChildPairs(children) && Dict(ps) == Some(plugins) && NamedOnce(ps, Enabled)
    requires exists es :: children == ChildrenOf(es)
    ensures ListsSome(children) <==> Enabled in plugins && plugins[Enabled].Array?
    ensures NamesEnabled(children) <==> Enabled in plugins
  {
    var es :| children == ChildrenOf(es);
    ChildPairsAre(es);
    PairsAt(es);
    ChildrenAt(es);
    DictKeys(ps, Enabled);
    NamesEnabledIff(es);
    if Enabled in plugins {
      var i :| 0 <= i < |ps| && ps[i].0 == Enabled;
      DictLast(ps, i);
      ListValueIff(es[i]);
      FlatIsList(es[i]);
      ListsOnly(es, ps, i);
    }
  }

  lemma {:induction false} FlatIsList(e: Entry)
    ensures Flat(e) ==> IsList(e) && e.name == Enabled
  {
    if Flat(e) { assert e.body[0] in e.body; }
  }

  lemma {:induction false} ListsOnly(es: seq<Entry>, ps: Pairs, i: nat)
    requires i < |es| && es[i].name == Enabled && ps == PairsOf(es) && NamedOnce(ps, Enabled)
    ensures ListsSome(ChildrenOf(es)) <==> IsList(es[i])
  {
    ChildrenAt(es);
    PairsAt(es);
    var children := ChildrenOf(es);
    FlatIsList(es[i]);
    if ListsSome(children) {
      var k :| 0 <= k < |children|
        && (children[k].EnabledList? || (children[k].entry.name == Enabled && IsList(children[k].entry)));
      FlatIsList(es[k]);
      assert ps[k].0 == es[k].name == Enabled && ps[i].0 == Enabled;
      assert k == i;
    }
    if IsList(es[i]) {
      assert children[i] == ChildOf(es[i]);
    }
  }

  /** The mapping under `plugins`, and what it says about `enabled`. */
  lemma {:induction false} MapThere(lines: seq<Line>, ms: seq<Section>, v: Value) returns (children: seq<Child>)
    requires Once(lines) && Meaning(lines) == Some(ms) && ValueOfLines(lines) == Some(v)
    requires v.Object? && Plugins in v.fields && v.fields[Plugins].Object?
    ensures HasMapOf(ms, children) && forall s <- ms :: s.PluginsMap? ==> s == PluginsMap(children)
    ensures ListsSome(children) <==> EnabledOf(v).Some?
    ensures NamesEnabled(children) <==> Enabled in v.fields[Plugins].fields
  {
    ValueOfMeaning(lines, ms);
    var j := SectionNamed(lines, ms, SectionPairs(ms), v.fields);
    MappingIsMap(lines, ms, j);
    children := ms[j].children;
    var ps := ChildPairs(children);
    SectionIsProper(lines, ms, SectionPairs(ms), j);
    ChildrenOfSection(lines, ms, j);
    assert Dict(ps) == Some(v.fields[Plugins].fields);
    ListedIff(children, ps, v.fields[Plugins].fields);
    assert ms[j] == PluginsMap(children);
  }

  lemma {:induction false} ChildrenOfSection(lines: seq<Line>, ms: seq<Section>, j: nat)
    requires Meaning(lines) == Some(ms) && j < |ms| && ms[j].PluginsMap?
    ensures exists es :: ms[j].children == ChildrenOf(es)
  {
    var es := Entries(lines, 0).value;
    SectionsAt(es);
    assert ms[j] == SectionOf(es[j]);
    assert ms[j].children == ChildrenOf(Block(es[j]).value);
  }

  /** The branch the edit takes by the parsed document is the one it takes by the lines. */
  lemma {:induction false} ShapesAgree(lines: seq<Line>, ms: seq<Section>, v: Value)
    requires Once(lines) && Meaning(lines) == Some(ms) && ValueOfLines(lines) == Some(v)
    ensures v.Object? && ShapeOf(ms) == ShapeOfValue(v)
  {
    ValueOfMeaning(lines, ms);
    PluginsNamedIff(ms, SectionPairs(ms), v.fields);
    if Plugins in v.fields {
      if v.fields[Plugins].Object? {
        var children := MapThere(lines, ms, v);
        assert PluginsMap(children) in ms;
        assert HasMap(ms);
        assert HasList(ms) <==> ListsSome(children);
      } else {
        var j := SectionNamed(lines, ms, SectionPairs(ms), v.fields);
        MappingIsMap(lines, ms, j);
        assert !HasMap(ms);
      }
    }
  }

  // ---------------------------------------------------------------- the section's own list

  /** The `enabled:` line at the section's own indentation makes an entry of its own. */
  lemma {:induction false} OwnEntry(after: seq<Line>, n: nat, children: seq<Child>) returns (k: nat)
    requires Holds(after, children) && FindEnabled(after) == At(n) && after[n].indent == FirstIndent(after)
    ensures
      var es := Entries(Read(after, 0).lead, FirstIndent(after)).value;
      k < |es| && es[k].name == Enabled && es[k].inline == None
  {
    var en, stop, x, c := after[n], Stop(after, n), NewItem(after, n), FirstIndent(after);
    ItemIndentAtLeast(after[n + 1..], en.indent);
    SectionParts(after, n);
    Layout(after, n, x);
    var m, items, rest := Read(after[..n], 0).lead, Read(after[n + 1..stop], 0).lead, Read(after[stop..], 0).lead;
    BlockStarts(m + ([en] + items) + rest, c);
    k := OwnIn(m, en, items, rest, x, c);
  }

  lemma {:induction false} OwnIn(m: seq<Line>, en: Line, items: seq<Line>, rest: seq<Line>, x: Line, c: nat) returns (k: nat)
    requires en.content == Key(Enabled, None) && en.indent == c && (forall l <- items :: Counts(l) && InBody(l, c))
    requires forall l <- m :: Counts(l) && !IsEnabledKey(l)
    requires Starts((m + ([en] + items))[0], c) && Entries(m + ([en] + items) + rest, c).Some?
    requires Counts(x) && InBody(x, c)
    ensures
      var es := Entries(m + ([en] + items) + rest, c).value;
      k < |es| && es[k].name == Enabled && es[k].inline == None
  {
    var top := m + ([en] + items);
    ReadConcat(top, rest, c);
    EndsIn(m, en, items, c);
    InsertedUnder(top, x, rest, c);
    k := |Read(top, c).entries| - 1;
  }

  /** If the first `enabled:` line is the section's own, the list is one under it. */
  lemma {:induction false} OwnIsFlat(before: seq<Line>, after: seq<Line>, n: nat, children: seq<Child>)
    requires NotYet(before, after, children) && ListsSome(children)
    requires FindEnabled(after) == At(n) && after[n].indent == FirstIndent(after)
    ensures Lists(children)
  {
    var es := Entries(Read(after, 0).lead, FirstIndent(after)).value;
    var k := OwnEntry(after, n, children);
    NotYetInside(before, after, children);
    ChildrenAt(es);
    NamedOnceIff(es, Enabled);
    ListsOnly(es, PairsOf(es), k);
    OneDecides(es, k);
    ListValueIff(es[k]);
    ListIsFlat(es[k]);
    assert children[k] == ChildOf(es[k]);
  }

  lemma {:induction false} ListIsFlat(e: Entry)
    requires e.name == Enabled && e.inline == None && ValueOf(e).Some? && ValueOf(e).value.Array?
    ensures Flat(e)
  {
  }

  // ---------------------------------------------------------------- the outcome

  /** What a file has to look like for the edit to go through. */
  predicate WillAdd(doc: Document, v: Value)
    requires v.Object?
  {
    var after := Under(doc.lines);
    match ShapeOfValue(v)
    case NoPlugins => true
    case NotAMap => false
    case NoList => FirstIndent(after) == 2 && Enabled !in v.fields[Plugins].fields
    case AList => OwnEnabledFirst(after) && (doc.ending.Newline? || !EndsInItems(after))
  }

  /** The check accepts this text as `v` with the name. */
  ghost predicate Accepted(lines: seq<Line>, v: Value) {
    exists o :: ValueOfLines(lines) == Some(o) && NamesControl(o) && Trimmed(o) == v
  }

  /** The document, read, and without the name. */
  ghost predicate Unlisted(doc: Document, ms: seq<Section>, v: Value) {
    && Once(doc.lines) && Meaning(doc.lines) == Some(ms) && ValueOfLines(doc.lines) == Some(v)
    && v.Object? && !NamesControl(v)
  }

  lemma {:induction false} NewSectionOutcome(doc: Document, ms: seq<Section>, v: Value)
    requires Unlisted(doc, ms, v) && ShapeOfValue(v).NoPlugins?
    ensures Plan(doc, NoPlugins).Some? && Accepted(Plan(doc, NoPlugins).value.lines, v)
  {
    ShapesAgree(doc.lines, ms, v);
    NewSectionAdds(doc, ms);
    AddedIsAccepted(doc.lines, Plan(doc, NoPlugins).value.lines, ms, v);
  }

  lemma {:induction false} SectionNotYet(doc: Document, ms: seq<Section>, v: Value, children: seq<Child>)
    requires Unlisted(doc, ms, v) && HasMapOf(ms, children)
    ensures PluginsAt(doc.lines) < |doc.lines|
    ensures NotYet(doc.lines[..PluginsAt(doc.lines)], Under(doc.lines), children)
  {
    SectionAt(doc.lines, ms, children);
  }

  lemma {:induction false} NewListOutcome(doc: Document, ms: seq<Section>, v: Value)
    requires Unlisted(doc, ms, v) && ShapeOfValue(v).NoList?
    ensures Plan(doc, NoList).Some?
    ensures if WillAdd(doc, v) then Accepted(Plan(doc, NoList).value.lines, v) else !Finds(Plan(doc, NoList).value.lines)
  {
    var children := MapThere(doc.lines, ms, v);
    SectionNotYet(doc, ms, v, children);
    if WillAdd(doc, v) {
      ShapesAgree(doc.lines, ms, v);
      NewListAdds(doc, ms, children);
      AddedIsAccepted(doc.lines, Plan(doc, NoList).value.lines, ms, v);
    } else {
      NewListFails(doc, children);
    }
  }

  lemma {:induction false} NewListFails(doc: Document, children: seq<Child>)
    requires PluginsAt(doc.lines) < |doc.lines|
    requires NotYet(doc.lines[..PluginsAt(doc.lines)], Under(doc.lines), children)
    requires FirstIndent(Under(doc.lines)) != 2 || NamesEnabled(children)
    ensures Plan(doc, NoList).Some? && !Finds(Plan(doc, NoList).value.lines)
  {
    OneMoreTaken(doc.lines, PluginsAt(doc.lines));
    SectionThereIsNotEmpty(Under(doc.lines), children);
    NewListUnderIsLost(doc.lines[..PluginsAt(doc.lines)], Under(doc.lines), children);
    assert Plan(doc, NoList).value.lines == Around(doc, NewList() + Under(doc.lines));
  }

  lemma {:induction false} SectionThereIsNotEmpty(after: seq<Line>, children: seq<Child>)
    requires Holds(after, children)
    ensures after != []
  {
  }

  /** The file with other lines under its section's line. */
  function Around(doc: Document, inside: seq<Line>): seq<Line> {
    doc.lines[..PluginsAt(doc.lines)] + [PLUGINS_LINE] + inside
  }

  lemma {:induction false} GrownPlan(doc: Document)
    requires PluginsAt(doc.lines) < |doc.lines|
    ensures Plan(doc, AList).Some? <==> FindEnabled(Under(doc.lines)).At?
    ensures
      match FindEnabled(Under(doc.lines))
      case At(n) => Plan(doc, AList).value.lines == Around(doc, WithItem(Under(doc.lines), n, doc.ending))
      case _ => true
  {
    OneMoreTaken(doc.lines, PluginsAt(doc.lines));
  }

  lemma {:induction false} LongerListWorks(doc: Document, ms: seq<Section>, v: Value, children: seq<Child>)
    requires Unlisted(doc, ms, v) && ShapeOfValue(v).AList? && WillAdd(doc, v)
    requires HasMapOf(ms, children) && ListsSome(children)
    ensures Plan(doc, AList).Some? && Accepted(Plan(doc, AList).value.lines, v)
  {
    var before, after := doc.lines[..PluginsAt(doc.lines)], Under(doc.lines);
    ShapesAgree(doc.lines, ms, v);
    SectionNotYet(doc, ms, v, children);
    OwnIsFlat(before, after, FindEnabled(after).n, children);
    LongerListAdds(doc, ms, children);
    AddedIsAccepted(doc.lines, Plan(doc, AList).value.lines, ms, v);
  }

  lemma {:induction false} LongerListOutcome(doc: Document, ms: seq<Section>, v: Value)
    requires Unlisted(doc, ms, v) && ShapeOfValue(v).AList?
    ensures WillAdd(doc, v) ==> Plan(doc, AList).Some? && Accepted(Plan(doc, AList).value.lines, v)
    ensures !WillAdd(doc, v) && Plan(doc, AList).Some? ==> !Finds(Plan(doc, AList).value.lines)
  {
    var children := MapThere(doc.lines, ms, v);
    SectionNotYet(doc, ms, v, children);
    if WillAdd(doc, v) {
      LongerListWorks(doc, ms, v, children);
    } else {
      LongerListFails(doc, children);
    }
  }

  lemma {:induction false} LongerListFails(doc: Document, children: seq<Child>)
    requires PluginsAt(doc.lines) < |doc.lines|
    requires NotYet(doc.lines[..PluginsAt(doc.lines)], Under(doc.lines), children)
    requires !(OwnEnabledFirst(Under(doc.lines)) && (doc.ending.Newline? || !EndsInItems(Under(doc.lines))))
    ensures Plan(doc, AList).Some? ==> !Finds(Plan(doc, AList).value.lines)
  {
    var before, after := doc.lines[..PluginsAt(doc.lines)], Under(doc.lines);
    GrownPlan(doc);
    if FindEnabled(after).At? {
      LongerListLost(before, after, FindEnabled(after).n, doc.ending, children);
    }
  }

  lemma {:induction false} LongerListLost(
    before: seq<Line>, after: seq<Line>, n: nat, ending: Ending, children: seq<Child>)
    requires NotYet(before, after, children) && FindEnabled(after) == At(n)
    requires !(after[n].indent == FirstIndent(after) && (ending.Newline? || Stop(after, n) < |after|))
    ensures !Finds(before + [PLUGINS_LINE] + WithItem(after, n, ending))
  {
    WithItemIs(after, n, ending);
    if ending.Newline? || Stop(after, n) < |after| {
      ItemElsewhereIsLost(before, after, n, children);
    } else {
      RawIsLong(NewItem(after, n));
      GluedItemIsNotFound(before, after, n, children, ending.pad + RawOf(NewItem(after, n)));
    }
  }

  lemma {:induction false} RawIsLong(l: Line)
    requires l.content.Item?
    ensures |RawOf(l)| > |CONTROL_NAME|
  {
  }

  /** The edit passes the check exactly for the files that `WillAdd` describes; where it
    * does not, the name is not even found. */
  lemma {:induction false} AcceptedIff(doc: Document, v: Value)
    requires Once(doc.lines) && ValueOfLines(doc.lines) == Some(v) && !NamesControl(v)
    ensures v.Object?
    ensures
      var edited := Plan(doc, ShapeOfValue(v));
      && (WillAdd(doc, v) ==> edited.Some? && Accepted(edited.value.lines, v))
      && (!WillAdd(doc, v) && edited.Some? ==> !Finds(edited.value.lines))
  {
    var ms := Meaning(doc.lines).value;
    ShapesAgree(doc.lines, ms, v);
    match ShapeOfValue(v) {
      case NoPlugins => NewSectionOutcome(doc, ms, v);
      case NotAMap =>
      case NoList => NewListOutcome(doc, ms, v);
      case AList => LongerListOutcome(doc, ms, v);
    }
  }
}
