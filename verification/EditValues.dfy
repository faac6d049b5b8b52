/** The line edit and the values of the two texts: where it adds the name, the check
  * accepts the result, and where it does not, the name is not found in it. */
module EditValues {
  import opened Options
  import opened YamlLines
  import opened ConfigEdit
  import opened EditMeaning
  import opened EditTheorems
  import opened Documents

  // ---------------------------------------------------------------- values of what was parsed

  function ChildPair(c: Child): (Name, Option<Value>) {
    match c
    case EnabledList(words) => (Enabled, Some(Array(Atoms(words))))
    case OtherChild(e) => (e.name, ValueOf(e))
  }

  function ChildPairs(cs: seq<Child>): Pairs {
    if cs == [] then [] else [ChildPair(cs[0])] + ChildPairs(cs[1..])
  }

  function SectionPair(s: Section): (Name, Option<Value>) {
    match s
    case PluginsMap(children) => (Plugins, AsObject(Dict(ChildPairs(children))))
    case OtherSection(e) => (e.name, ValueOf(e))
  }

  function SectionPairs(ss: seq<Section>): Pairs {
    if ss == [] then [] else [SectionPair(ss[0])] + SectionPairs(ss[1..])
  }

  lemma {:induction false} ChildPairsAt(cs: seq<Child>)
    ensures |ChildPairs(cs)| == |cs| && forall i :: 0 <= i < |cs| ==> ChildPairs(cs)[i] == ChildPair(cs[i])
  {
    if cs != [] { ChildPairsAt(cs[1..]); }
  }

  lemma {:induction false} SectionPairsAt(ss: seq<Section>)
    ensures |SectionPairs(ss)| == |ss| && forall i :: 0 <= i < |ss| ==> SectionPairs(ss)[i] == SectionPair(ss[i])
  {
    if ss != [] { SectionPairsAt(ss[1..]); }
  }

  lemma {:induction false} ChildPairsAre(es: seq<Entry>)
    ensures ChildPairs(ChildrenOf(es)) == PairsOf(es)
  {
    if es != [] {
      ChildPairsAre(es[1..]);
      assert ChildPair(ChildOf(es[0])) == (es[0].name, ValueOf(es[0]));
    }
  }

  /** A mapping does not begin with an item. */
  lemma {:induction false} BlockIsNoList(e: Entry)
    requires Block(e).Some?
    ensures !AllItems(e.body, e.body[0].indent)
    ensures ValueOf(e) == AsObject(FieldsOf(Block(e).value))
  {
    assert e.body[0] in e.body && !e.body[0].content.Item?;
  }

  lemma {:induction false} SectionPairIs(e: Entry)
    ensures SectionPair(SectionOf(e)) == (e.name, ValueOf(e))
  {
    if IsPluginsMap(e) {
      BlockIsNoList(e);
      FieldsAre(Block(e).value);
      ChildPairsAre(Block(e).value);
    }
  }

  lemma {:induction false} SectionPairsAre(es: seq<Entry>)
    ensures SectionPairs(SectionsOf(es)) == PairsOf(es)
  {
    if es != [] {
      SectionPairsAre(es[1..]);
      SectionPairIs(es[0]);
    }
  }

  /** The value of a text is that of what `Meaning` makes of it. */
  lemma {:induction false} ValueOfMeaning(lines: seq<Line>, ms: seq<Section>)
    requires Meaning(lines) == Some(ms)
    ensures ValueOfLines(lines) == AsObject(Dict(SectionPairs(ms)))
  {
    FieldsAre(Entries(lines, 0).value);
    SectionPairsAre(Entries(lines, 0).value);
  }

  // ---------------------------------------------------------------- the name added, in values

  lemma {:induction false} AtomsAppend(words: seq<Word>, w: Word)
    ensures Atoms(words + [w]) == Atoms(words) + [Atom(TextOf(w))]
  {
    if words == [] {
      assert [w][1..] == [];
    } else {
      assert (words + [w])[1..] == words[1..] + [w];
      AtomsAppend(words[1..], w);
    }
  }

  lemma {:induction false} WithoutAppended(items: seq<Value>)
    requires CONTROL !in items
    ensures Without(items + [CONTROL]) == items
  {
    if items == [] {
      assert [CONTROL][1..] == [];
      assert Without([CONTROL]) == [] + Without([]);
    } else {
      assert (items + [CONTROL])[1..] == items[1..] + [CONTROL];
      WithoutAppended(items[1..]);
    }
  }

  /** What is listed, if there is a list. */
  function ItemsOf(v: Value): seq<Value> {
    if EnabledOf(v).Some? then EnabledOf(v).value else []
  }

  /** The check accepts the name at the end of what is listed. */
  lemma {:induction false} AppendedIsAccepted(v: Value)
    requires v.Object? && !NamesControl(v) && HasJust(v, ItemsOf(v))
    ensures
      var o := With(v, ItemsOf(v) + [CONTROL]);
      NamesControl(o) && Trimmed(o) == v
  {
    WithoutAppended(ItemsOf(v));
    PutInIsAccepted(v, ItemsOf(v) + [CONTROL]);
  }

  predicate NamedOnce(ps: Pairs, name: Name) {
    forall i, j :: 0 <= i < j < |ps| ==> ps[i].0 != name || ps[j].0 != name
  }

  lemma {:induction false} NamedOnceIff(es: seq<Entry>, name: Name)
    ensures NamedOnce(PairsOf(es), name) <==> Unique(es, name)
  {
    PairsAt(es);
    if NamedOnce(PairsOf(es), name) {
      forall i, j | 0 <= i < j < |es| ensures es[i].name != name || es[j].name != name {
        assert PairsOf(es)[i].0 == es[i].name && PairsOf(es)[j].0 == es[j].name;
      }
    }
  }

  predicate NoEmptyList(children: seq<Child>) {
    forall c <- children :: c.EnabledList? ==> c.words != []
  }

  lemma {:induction false} ListsAreNotEmpty(es: seq<Entry>)
    ensures NoEmptyList(ChildrenOf(es))
  {
    ChildrenAt(es);
    forall c | c in ChildrenOf(es) && c.EnabledList? ensures c.words != [] {
      var i :| 0 <= i < |ChildrenOf(es)| && ChildrenOf(es)[i] == c;
      assert Flat(es[i]) && c.words == Words(es[i].body);
    }
  }

  /** The section's values with the name added. */
  lemma {:induction false} ChildrenGrow(children: seq<Child>, plugins: map<Name, Value>) returns (items: seq<Value>)
    requires Dict(ChildPairs(children)) == Some(plugins) && NamedOnce(ChildPairs(children), Enabled)
    requires Lists(children) || !NamesEnabled(children)
    requires NoEmptyList(children)
    ensures Dict(ChildPairs(AddName(children))) == Some(plugins[Enabled := Array(items + [CONTROL])])
    ensures JustItems(plugins, items)
  {
    if Lists(children) {
      ListGrows(children, ChildPairs(children), plugins);
      items := plugins[Enabled].items;
    } else {
      ListIsNew(children, plugins);
      items := [];
      assert [] + [CONTROL] == [CONTROL];
    }
  }

  /** A section that lists these, or nothing. */
  predicate JustItems(plugins: map<Name, Value>, items: seq<Value>) {
    if Enabled in plugins then plugins[Enabled] == Array(items) && items != [] else items == []
  }

  lemma {:induction false} DictFront(name: Name, v: Value, ps: Pairs)
    requires Dict(ps).Some?
    ensures Dict([(name, Some(v))] + ps) == Some(map[name := v] + Dict(ps).value)
  {
    assert ([(name, Some(v))] + ps)[1..] == ps;
  }

  lemma {:induction false} ListIsNew(children: seq<Child>, plugins: map<Name, Value>)
    requires Dict(ChildPairs(children)) == Some(plugins) && !Lists(children) && !NamesEnabled(children)
    ensures Dict(ChildPairs(AddName(children))) == Some(plugins[Enabled := Array([CONTROL])]) && Enabled !in plugins
  {
    var first := EnabledList([Control]);
    ChildPairsAt(children);
    DictKeys(ChildPairs(children), Enabled);
    assert ([first] + children)[1..] == children;
    AtomsAppend([], Control);
    assert [] + [Control] == [Control] && Atoms([]) + [CONTROL] == [CONTROL];
    assert ChildPairs([first] + children) == [ChildPair(first)] + ChildPairs(children);
    DictFront(Enabled, Array([CONTROL]), ChildPairs(children));
    assert map[Enabled := Array([CONTROL])] + plugins == plugins[Enabled := Array([CONTROL])];
  }

  lemma {:induction false} ListGrows(children: seq<Child>, ps: Pairs, plugins: map<Name, Value>)
    requires ps == ChildPairs(children) && Dict(ps) == Some(plugins) && NamedOnce(ps, Enabled)
    requires Lists(children) && NoEmptyList(children)
    ensures Enabled in plugins && plugins[Enabled].Array? && plugins[Enabled].items != []
    ensures Dict(ChildPairs(AddName(children))) == Some(plugins[Enabled := Array(plugins[Enabled].items + [CONTROL])])
  {
    var j :| 0 <= j < |children| && children[j].EnabledList?;
    var words := children[j].words;
    ChildPairsAt(children);
    assert ps[j].0 == Enabled && children[j] in children;
    forall i | 0 <= i < |ps| && i != j ensures ps[i].0 != Enabled {}
    forall i | 0 <= i < j ensures !children[i].EnabledList? {
      assert ps[i] == ChildPair(children[i]);
    }
    DictLast(ps, j);
    AddToListAt(children, j);
    AtomsAppend(words, Control);
    var grown := Array(Atoms(words) + [CONTROL]);
    DictUpdate(ps, j, grown);
    ChildPairsAt(AddName(children));
    assert ChildPairs(AddName(children)) == ps[j := (Enabled, Some(grown))];
  }

  /** A document's values with a new section. */
  lemma {:induction false} SectionIsNew(ms: seq<Section>, fields: map<Name, Value>)
    requires Dict(SectionPairs(ms)) == Some(fields) && !HasPlugins(ms)
    ensures Plugins !in fields
    ensures Dict(SectionPairs(AddPlugin(ms))) == Some(fields[Plugins := Object(map[Enabled := Array([CONTROL])])])
  {
    var added := PluginsMap([EnabledList([Control])]);
    var ps := SectionPairs(ms);
    SectionPairsAt(ms);
    forall i | 0 <= i < |ps| ensures ps[i].0 != Plugins {
      assert ms[i] in ms && !NamesPlugins(ms[i]);
    }
    forall s | s in ms ensures !s.PluginsMap? {
      assert !NamesPlugins(s);
    }
    DictKeys(ps, Plugins);
    AddPluginNew(ms);
    ListIsNew([], map[]);
    assert ChildPairs([]) == [];
    assert [EnabledList([Control])] + [] == [EnabledList([Control])];
    DictAppend(ps, Plugins, Object(map[Enabled := Array([CONTROL])]));
    SectionPairsAt(AddPlugin(ms));
    assert SectionPairs(AddPlugin(ms)) == ps + [SectionPair(added)];
  }

  predicate OnlyAt(ps: Pairs, j: nat, name: Name) {
    j < |ps| && ps[j].0 == name && forall i :: 0 <= i < |ps| && i != j ==> ps[i].0 != name
  }

  lemma {:induction false} SectionIs(ps: Pairs, fields: map<Name, Value>, j: nat, inside: Option<map<Name, Value>>)
    requires Dict(ps) == Some(fields) && OnlyAt(ps, j, Plugins) && ps[j].1 == AsObject(inside)
    ensures inside.Some? && Plugins in fields && fields[Plugins] == Object(inside.value)
  {
    DictLast(ps, j);
  }

  /** A document's values with a longer section. */
  lemma {:induction false} SectionGrows(ps: Pairs, fields: map<Name, Value>, j: nat, now: map<Name, Value>)
    requires Dict(ps) == Some(fields) && OnlyAt(ps, j, Plugins)
    ensures Dict(ps[j := (Plugins, Some(Object(now)))]) == Some(fields[Plugins := Object(now)])
  {
    DictUpdate(ps, j, Object(now));
  }

  lemma {:induction false} SectionOnlyAt(ms: seq<Section>, ps: Pairs, j: nat)
    requires ps == SectionPairs(ms) && NamedOnce(ps, Plugins) && j < |ms| && ms[j].PluginsMap?
    ensures OnlyAt(ps, j, Plugins) && |ps| == |ms|
    ensures forall i :: 0 <= i < j ==> !ms[i].PluginsMap?
  {
    SectionNamesAt(ms);
    OnlyMapNamed(ms, ps, j);
  }

  lemma {:induction false} OnlyMapNamed(ms: seq<Section>, ps: Pairs, j: nat)
    requires |ps| == |ms| && forall i :: 0 <= i < |ms| ==> ps[i].0 == NameOfSection(ms[i])
    requires NamedOnce(ps, Plugins) && j < |ms| && ms[j].PluginsMap?
    ensures OnlyAt(ps, j, Plugins)
    ensures forall i :: 0 <= i < j ==> !ms[i].PluginsMap?
  {
    forall i | 0 <= i < j ensures !ms[i].PluginsMap? {
      assert ps[i].0 == NameOfSection(ms[i]);
    }
  }

  function NameOfSection(s: Section): Name {
    if s.PluginsMap? then Plugins else s.entry.name
  }

  lemma {:induction false} SectionNamesAt(ms: seq<Section>)
    ensures |SectionPairs(ms)| == |ms|
    ensures forall i :: 0 <= i < |ms| ==> SectionPairs(ms)[i].0 == NameOfSection(ms[i])
  {
    if ms != [] { SectionNamesAt(ms[1..]); }
  }

  lemma {:induction false} SectionPairAt(ms: seq<Section>, j: nat)
    requires j < |ms|
    ensures |SectionPairs(ms)| == |ms| && SectionPairs(ms)[j] == SectionPair(ms[j])
  {
    if j > 0 { SectionPairAt(ms[1..], j - 1); } else { SectionNamesAt(ms); }
  }

  lemma {:induction false} SectionPairsUpdate(ms: seq<Section>, ps: Pairs, j: nat, children: seq<Child>, now: Option<map<Name, Value>>)
    requires ps == SectionPairs(ms) && j < |ms| && now == Dict(ChildPairs(children))
    ensures |ps| == |ms| && SectionPairs(ms[j := PluginsMap(children)]) == ps[j := (Plugins, AsObject(now))]
  {
    SectionPairsAt(ms);
    SectionPairsAt(ms[j := PluginsMap(children)]);
  }

  lemma {:induction false} SectionPairsGrow(ms: seq<Section>, ps: Pairs, j: nat, now: map<Name, Value>)
    requires ps == SectionPairs(ms) && NamedOnce(ps, Plugins) && j < |ms| && ms[j].PluginsMap?
    requires Dict(ChildPairs(AddName(ms[j].children))) == Some(now)
    ensures |ps| == |ms| && SectionPairs(AddPlugin(ms)) == ps[j := (Plugins, Some(Object(now)))]
  {
    SectionOnlyAt(ms, ps, j);
    AddPluginAt(ms, j);
    SectionPairsUpdate(ms, ps, j, AddName(ms[j].children), Some(now));
  }

  lemma {:induction false} SectionThere(ms: seq<Section>, ps: Pairs, j: nat, fields: map<Name, Value>) returns (plugins: map<Name, Value>)
    requires ps == SectionPairs(ms) && Dict(ps) == Some(fields) && NamedOnce(ps, Plugins)
    requires j < |ms| && ms[j].PluginsMap?
    ensures Dict(ChildPairs(ms[j].children)) == Some(plugins)
    ensures Plugins in fields && fields[Plugins] == Object(plugins)
  {
    var inside := Dict(ChildPairs(ms[j].children));
    SectionOnlyAt(ms, ps, j);
    SectionPairAt(ms, j);
    MapPair(ms[j], ms[j].children, inside);
    SectionIs(ps, fields, j, inside);
    plugins := inside.value;
  }

  /** With the name added, the values are those of before with the name listed. */
  lemma {:induction false} GrownValues(ms: seq<Section>, ps: Pairs, j: nat, v: Value)
    requires ps == SectionPairs(ms) && v.Object? && Dict(ps) == Some(v.fields) && NamedOnce(ps, Plugins)
    requires j < |ms| && ms[j].PluginsMap? && ProperChildren(ms[j].children)
    requires Lists(ms[j].children) || !NamesEnabled(ms[j].children)
    ensures HasJust(v, ItemsOf(v))
    ensures Dict(SectionPairs(AddPlugin(ms))) == Some(With(v, ItemsOf(v) + [CONTROL]).fields)
  {
    var plugins := SectionThere(ms, ps, j, v.fields);
    ChildrenThere(ms[j].children, plugins);
    var items := ChildrenGrow(ms[j].children, plugins);
    ItemsThere(v, plugins, items);
    var now := plugins[Enabled := Array(items + [CONTROL])];
    SectionPairsGrow(ms, ps, j, now);
    SectionOnlyAt(ms, ps, j);
    SectionGrows(ps, v.fields, j, now);
  }

  predicate ProperChildren(children: seq<Child>) {
    NamedOnce(ChildPairs(children), Enabled) && NoEmptyList(children) && children != []
  }

  lemma {:induction false} MapPair(s: Section, children: seq<Child>, inside: Option<map<Name, Value>>)
    requires s == PluginsMap(children) && Dict(ChildPairs(children)) == inside
    ensures SectionPair(s) == (Plugins, AsObject(inside))
  {
  }

  lemma {:induction false} ChildrenThere(children: seq<Child>, plugins: map<Name, Value>)
    requires children != [] && Dict(ChildPairs(children)) == Some(plugins)
    ensures plugins != map[]
  {
    ChildPairsAt(children);
    DictKeys(ChildPairs(children), ChildPairs(children)[0].0);
  }

  lemma {:induction false} ItemsThere(v: Value, plugins: map<Name, Value>, items: seq<Value>)
    requires v.Object? && Plugins in v.fields && v.fields[Plugins] == Object(plugins) && plugins != map[]
    requires JustItems(plugins, items)
    ensures HasJust(v, ItemsOf(v)) && ItemsOf(v) == items
    ensures With(v, items + [CONTROL]) == Object(v.fields[Plugins := Object(plugins[Enabled := Array(items + [CONTROL])])])
  {
  }

  /** What the line edit adds is what the check accepts. */
  lemma {:induction false} AddedIsAccepted(lines: seq<Line>, edited: seq<Line>, ms: seq<Section>, v: Value)
    requires Meaning(lines) == Some(ms) && ValueOfLines(lines) == Some(v) && !NamesControl(v)
    requires Meaning(edited) == Some(AddPlugin(ms))
    requires !HasPlugins(ms) || exists children :: HasMapOf(ms, children) && (Lists(children) || !NamesEnabled(children))
    ensures v.Object? && exists o :: ValueOfLines(edited) == Some(o) && NamesControl(o) && Trimmed(o) == v
  {
    ValueOfMeaning(lines, ms);
    ValueOfMeaning(edited, AddPlugin(ms));
    var o := With(v, ItemsOf(v) + [CONTROL]);
    if !HasPlugins(ms) {
      SectionIsNew(ms, v.fields);
      assert [] + [CONTROL] == [CONTROL];
    } else {
      var children :| HasMapOf(ms, children) && (Lists(children) || !NamesEnabled(children));
      var j :| 0 <= j < |ms| && ms[j] == PluginsMap(children);
      var ps := SectionPairs(ms);
      SectionIsProper(lines, ms, ps, j);
      GrownValues(ms, ps, j, v);
    }
    AppendedIsAccepted(v);
    assert ValueOfLines(edited) == Some(o) && NamesControl(o) && Trimmed(o) == v;
  }

  lemma {:induction false} SectionIsProper(lines: seq<Line>, ms: seq<Section>, ps: Pairs, j: nat)
    requires Meaning(lines) == Some(ms) && j < |ms| && ms[j].PluginsMap? && ps == SectionPairs(ms)
    ensures NamedOnce(ps, Plugins) && ProperChildren(ms[j].children)
  {
    var es := Entries(lines, 0).value;
    SectionPairsAre(es);
    NamedOnceIff(es, Plugins);
    SectionsAt(es);
    assert ms[j] == SectionOf(es[j]);
    ReadBodies(lines, 0);
    assert es[j] in es && es[j].body[0] in es[j].body;
    BlockIsProper(es[j], Block(es[j]).value);
  }

  lemma {:induction false} BlockIsProper(e: Entry, inside: seq<Entry>)
    requires Block(e) == Some(inside) && Unique(inside, Enabled) && Counts(e.body[0])
    ensures ProperChildren(ChildrenOf(inside))
  {
    ChildPairsAre(inside);
    NamedOnceIff(inside, Enabled);
    ListsAreNotEmpty(inside);
    BlockHasEntries(e);
    ChildrenAt(inside);
  }

  lemma {:induction false} BlockHasEntries(e: Entry)
    requires Block(e).Some? && Counts(e.body[0])
    ensures Block(e).value != []
  {
  }

  lemma {:induction false} ReadBodies(ls: seq<Line>, c: nat)
    requires !Read(ls, c).Bad?
    ensures forall e <- Read(ls, c).entries :: forall l <- e.body :: Counts(l) && InBody(l, c)
  {
    if ls != [] {
      ReadBodies(ls[1..], c);
      ReadKinds(ls[1..], c);
    }
  }
}
