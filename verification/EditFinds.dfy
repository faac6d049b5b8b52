/** Where the line edit does not add the name, the name is not found in the new text. */
module EditFinds {
  import opened Options
  import opened YamlLines
  import opened ConfigEdit
  import opened EditMeaning
  import opened EditTheorems
  import opened Documents
  import opened EditValues

  predicate FindsIn(fields: Option<map<Name, Value>>) {
    fields.Some? && Enabled in fields.value && FoundAt(fields.value[Enabled])
  }

  predicate FoundAt(v: Value) {
    v.Array? && CONTROL in v.items
  }

  /** The name is found under the entry. */
  predicate EntryFinds(e: Entry) {
    ValueOf(e).Some? && ValueOf(e).value.Object? && FindsIn(Some(ValueOf(e).value.fields))
  }

  predicate Finds(lines: seq<Line>) {
    ValueOfLines(lines).Some? && NamesControl(ValueOfLines(lines).value)
  }

  lemma {:induction false} NamesControlIs(v: Value)
    requires v.Object?
    ensures NamesControl(v) <==>
      Plugins in v.fields && v.fields[Plugins].Object? && FindsIn(Some(v.fields[Plugins].fields))
  {
  }

  lemma {:induction false} EntryFindsIff(e: Entry)
    ensures EntryFinds(e) <==> Block(e).Some? && FindsIn(FieldsOf(Block(e).value))
  {
    if Block(e).Some? {
      BlockIsNoList(e);
    }
  }

  // ---------------------------------------------------------------- the section decides

  lemma {:induction false} PairsAround(eb: seq<Entry>, e: Entry, ea: seq<Entry>, ps: Pairs)
    requires ps == PairsOf(eb + ([e] + ea)) && forall i :: 0 <= i < |ea| ==> ea[i].name != e.name
    ensures |eb| < |ps| && ps[|eb|] == (e.name, ValueOf(e))
    ensures forall i :: |eb| < i < |ps| ==> ps[i].0 != e.name
  {
    var es := eb + ([e] + ea);
    PairsAt(es);
    assert es[|eb|] == e;
    forall i | |eb| < i < |ps| ensures ps[i].0 != e.name {
      assert es[i] == ea[i - |eb| - 1];
    }
  }

  lemma {:induction false} SectionDecides(eb: seq<Entry>, e: Entry, ea: seq<Entry>, fields: Option<map<Name, Value>>)
    requires fields == FieldsOf(eb + ([e] + ea)) && e.name == Plugins
    requires forall i :: 0 <= i < |ea| ==> ea[i].name != Plugins
    ensures fields.Some? ==>
      ValueOf(e).Some? && (NamesControl(Object(fields.value)) <==> EntryFinds(e))
  {
    if fields.Some? {
      var ps := PairsOf(eb + ([e] + ea));
      FieldsAre(eb + ([e] + ea));
      PairsAround(eb, e, ea, ps);
      DictLast(ps, |eb|);
      NamesControlIs(Object(fields.value));
    }
  }

  /** In a text around a plugins section the name is found exactly if it is found in the
    * section and the text can be read. */
  lemma {:induction false} FindsAround(before: seq<Line>, after: seq<Line>)
    requires !Read(after, 0).Bad? && forall e <- Read(after, 0).entries :: e.name != Plugins
    ensures
      var v := ValueOfLines(before + [PLUGINS_LINE] + after);
      v.Some? ==> ValueOf(PluginsEntry(after)).Some? && (NamesControl(v.value) <==> EntryFinds(PluginsEntry(after)))
  {
    EntriesAround(before, after);
    var es := Entries(before + [PLUGINS_LINE] + after, 0);
    if es.Some? {
      SectionDecides(Read(before, 0).entries, PluginsEntry(after), Read(after, 0).entries, FieldsOf(es.value));
    }
  }

  /** Two texts that differ inside the section only: if the name is not found in the new
    * section, it is not found. */
  lemma {:induction false} LostInSection(before: seq<Line>, after: seq<Line>, edited: seq<Line>)
    requires Meaning(before + [PLUGINS_LINE] + after).Some?
    requires !Read(after, 0).Bad? && !Read(edited, 0).Bad? && Read(edited, 0).entries == Read(after, 0).entries
    requires !EntryFinds(PluginsEntry(edited))
    ensures !Finds(before + [PLUGINS_LINE] + edited)
  {
    NoOtherSection(before, after);
    FindsAround(before, edited);
  }

  lemma {:induction false} NoOtherSection(before: seq<Line>, after: seq<Line>)
    requires Meaning(before + [PLUGINS_LINE] + after).Some? && !Read(after, 0).Bad?
    ensures forall e <- Read(after, 0).entries :: e.name != Plugins
  {
    EntriesAround(before, after);
    var eb, ea := Read(before, 0).entries, Read(after, 0).entries;
    var es := eb + ([PluginsEntry(after)] + ea);
    forall e | e in ea ensures e.name != Plugins {
      var i :| 0 <= i < |ea| && ea[i] == e;
      assert es[|eb|] == PluginsEntry(after) && es[|eb| + 1 + i] == e;
    }
  }

  /** What was not found in the document was not found in its section. */
  lemma {:induction false} SectionWasRead(before: seq<Line>, after: seq<Line>, v: Value)
    requires Meaning(before + [PLUGINS_LINE] + after).Some? && !Read(after, 0).Bad?
    requires ValueOfLines(before + [PLUGINS_LINE] + after) == Some(v) && !NamesControl(v)
    ensures ValueOf(PluginsEntry(after)).Some? && !EntryFinds(PluginsEntry(after))
  {
    NoOtherSection(before, after);
    FindsAround(before, after);
  }

  // ---------------------------------------------------------------- inside the section

  lemma {:induction false} PairsUpdate(es: seq<Entry>, k: nat, e: Entry, ps: Pairs)
    requires k < |es| && es[k].name == e.name && ps == PairsOf(es)
    ensures |ps| == |es| && ps[k].0 == e.name && PairsOf(es[k := e]) == ps[k := (ps[k].0, ValueOf(e))]
  {
    PairsAt(es);
    PairsAt(es[k := e]);
  }

  /** An edit under another key leaves the list alone. */
  lemma {:induction false} ElsewhereIsNotFound(es: seq<Entry>, k: nat, e: Entry)
    requires k < |es| && es[k].name == e.name && e.name != Enabled
    requires FieldsOf(es).Some? && !FindsIn(FieldsOf(es))
    ensures !FindsIn(FieldsOf(es[k := e]))
  {
    var ps := PairsOf(es);
    FieldsAre(es);
    FieldsAre(es[k := e]);
    PairsUpdate(es, k, e, ps);
    if FieldsOf(es[k := e]).Some? {
      DictElsewhere(ps, k, ValueOf(e), Enabled);
    }
  }

  /** With one `enabled` key, its entry decides. */
  lemma {:induction false} OneDecides(es: seq<Entry>, k: nat)
    requires k < |es| && es[k].name == Enabled && Unique(es, Enabled) && FieldsOf(es).Some?
    ensures ValueOf(es[k]).Some? && (FindsIn(FieldsOf(es)) <==> FoundAt(ValueOf(es[k]).value))
  {
    var ps := PairsOf(es);
    FieldsAre(es);
    PairsAt(es);
    DictLast(ps, k);
  }

  // ---------------------------------------------------------------- a new list

  /** An item with a key behind it is neither a list nor a mapping. */
  lemma {:induction false} MixedIsUnreadable(e: Entry)
    requires e.inline == None && |e.body| >= 2 && e.body[0].content.Item? && !e.body[1].content.Item?
    ensures ValueOf(e) == None
  {
    assert e.body[1] in e.body;
  }

  /** The new list is not found if the section's entries are not indented by two, or if
    * one of them is called `enabled`, which then replaces it. */
  lemma {:induction false} NewListIsLost(p: seq<Line>, c: nat, es: seq<Entry>)
    requires p != [] && Counts(p[0]) && c == p[0].indent && c > 0 && Entries(p, c) == Some(es)
    requires FieldsOf(es).Some? && !FindsIn(FieldsOf(es))
    requires c != 2 || exists i :: 0 <= i < |es| && es[i].name == Enabled
    ensures var grown := Entries(NewList() + p, 2);
      grown.Some? ==> !FindsIn(FieldsOf(grown.value))
  {
    BlockStarts(p, c);
    NewListThen(p);
    var r := Read(p, 2);
    if !r.Bad? {
      var first := Entry(Enabled, None, [Line(4, Item(Control))] + r.lead);
      assert Entries(NewList() + p, 2) == Some([first] + r.entries);
      assert ([first] + r.entries)[1..] == r.entries;
      if c == 2 {
        assert r == Reading([], es);
        LaterOneStays(first, es);
      } else {
        assert r.lead != [] && r.lead[0] == p[0] && first.body[1] == p[0];
        MixedIsUnreadable(first);
        assert FieldsOf([first] + r.entries) == None;
      }
    }
  }

  lemma {:induction false} LaterOneStays(first: Entry, es: seq<Entry>)
    requires first.name == Enabled && FieldsOf(es).Some? && !FindsIn(FieldsOf(es))
    requires exists i :: 0 <= i < |es| && es[i].name == Enabled
    ensures !FindsIn(FieldsOf([first] + es))
  {
    var ps := PairsOf(es);
    FieldsAre(es);
    PairsAt(es);
    var i :| 0 <= i < |es| && es[i].name == Enabled;
    assert ps[i].0 == Enabled;
    DictKeys(ps, Enabled);
    assert ([first] + es)[1..] == es;
  }

  /** What a section is before the edit: readable, and without the name. */
  ghost predicate NotYet(before: seq<Line>, after: seq<Line>, children: seq<Child>) {
    && Meaning(before + [PLUGINS_LINE] + after).Some? && Holds(after, children)
    && exists v :: ValueOfLines(before + [PLUGINS_LINE] + after) == Some(v) && !NamesControl(v)
  }

  lemma {:induction false} NotYetInside(before: seq<Line>, after: seq<Line>, children: seq<Child>)
    requires NotYet(before, after, children)
    ensures var es := Entries(Read(after, 0).lead, FirstIndent(after)).value;
      FieldsOf(es).Some? && !FindsIn(FieldsOf(es)) && Unique(es, Enabled)
  {
    var v :| ValueOfLines(before + [PLUGINS_LINE] + after) == Some(v) && !NamesControl(v);
    SectionWasRead(before, after, v);
    EntryFindsIff(PluginsEntry(after));
    BlockIsNoList(PluginsEntry(after));
  }

  lemma {:induction false} NewListUnderIsLost(before: seq<Line>, after: seq<Line>, children: seq<Child>)
    requires NotYet(before, after, children) && (FirstIndent(after) != 2 || NamesEnabled(children))
    ensures !Finds(before + [PLUGINS_LINE] + (NewList() + after))
  {
    var p, c := Read(after, 0).lead, FirstIndent(after);
    var es := Entries(p, c).value;
    var entry := PluginsEntry(NewList() + after);
    NotYetInside(before, after, children);
    NamesEnabledIff(es);
    NewListIsLost(p, c, es);
    ReadLead(NewList(), 0);
    ReadBehind(NewList(), after);
    assert entry.body == NewList() + p && entry.body[0].indent == 2;
    EntryFindsIff(entry);
    LostInSection(before, after, NewList() + after);
  }

  // ---------------------------------------------------------------- an item elsewhere

  /** An item put under another key's `enabled:` leaves the section's own list alone. */
  lemma {:induction false} ItemElsewhere(
    m: seq<Line>, en: Line, items: seq<Line>, rest: seq<Line>, x: Line, c: nat, es: seq<Entry>)
    requires IsEnabledKey(en) && (forall l <- items :: Counts(l) && InBody(l, en.indent))
    requires forall l <- m :: Counts(l) && !IsEnabledKey(l)
    requires c == (m + ([en] + items))[0].indent && Starts((m + ([en] + items))[0], c)
    requires Entries(m + ([en] + items) + rest, c) == Some(es)
    requires Counts(x) && InBody(x, c) && en.indent != c
    requires FieldsOf(es).Some? && !FindsIn(FieldsOf(es))
    ensures var grown := Entries(m + ([en] + items) + ([x] + rest), c);
      grown.Some? ==> !FindsIn(FieldsOf(grown.value))
  {
    var a := m + ([en] + items);
    ReadConcat(a, rest, c);
    EndsIn(m, en, items, c);
    InsertedUnder(a, x, rest, c);
    var ea, u := Read(a, c).entries, Read(rest, c).lead;
    var k := |ea| - 1;
    ElsewhereIsNotFound(es, k, ea[k].(body := ea[k].body + ([x] + u)));
  }

  lemma {:induction false} ItemElsewhereIsLost(before: seq<Line>, after: seq<Line>, n: nat, children: seq<Child>)
    requires NotYet(before, after, children) && FindEnabled(after) == At(n)
    requires after[n].indent != FirstIndent(after)
    ensures
      var k := Stop(after, n);
      !Finds(before + [PLUGINS_LINE] + (after[..k] + ([NewItem(after, n)] + after[k..])))
  {
    var en, k, x, c := after[n], Stop(after, n), NewItem(after, n), FirstIndent(after);
    ItemIndentAtLeast(after[n + 1..], en.indent);
    SectionParts(after, n);
    Layout(after, n, x);
    var m, items, rest := Read(after[..n], 0).lead, Read(after[n + 1..k], 0).lead, Read(after[k..], 0).lead;
    var top := m + ([en] + items);
    var edited := after[..k] + ([x] + after[k..]);
    NotYetInside(before, after, children);
    BlockStarts(top + rest, c);
    DeepEnough(m, en, items, rest, c);
    ItemElsewhere(m, en, items, rest, x, c, Entries(top + rest, c).value);
    assert (top + ([x] + rest))[0] == top[0] == (top + rest)[0];
    assert PluginsEntry(edited).body == top + ([x] + rest);
    EntryFindsIff(PluginsEntry(edited));
    LostInSection(before, after, edited);
  }

  lemma {:induction false} DeepEnough(m: seq<Line>, en: Line, items: seq<Line>, rest: seq<Line>, c: nat)
    requires IsEnabledKey(en) && (forall l <- items :: Counts(l) && InBody(l, en.indent))
    requires forall l <- m :: Counts(l) && !IsEnabledKey(l)
    requires c == (m + ([en] + items))[0].indent && Starts((m + ([en] + items))[0], c)
    requires Entries(m + ([en] + items) + rest, c).Some?
    ensures en.indent >= c
  {
    ReadConcat(m + ([en] + items), rest, c);
    EndsIn(m, en, items, c);
  }

  // ---------------------------------------------------------------- a glued item

  /** In place of its last item a list has the glued one. */
  lemma {:induction false} GluedWordIsNoName(body: seq<Line>, l: Line, more: string, d: nat)
    requires AllItems(body + [Glue(l, more)], d) && l.content.Item? && |more| > |CONTROL_NAME|
    requires CONTROL !in Atoms(Words(body + [l]))
    ensures CONTROL !in Atoms(Words(body + [Glue(l, more)]))
  {
    var g := Glue(l, more);
    AllItemsFront(body, g, d);
    assert forall x <- body + [l] :: x.content.Item?;
    WordsAppend(body, l);
    WordsAppend(body, g);
    AtomsAppend(Words(body), l.content.word);
    AtomsAppend(Words(body), g.content.word);
    assert |TextOf(g.content.word)| > |CONTROL_NAME|;
  }

  lemma {:induction false} AllItemsFront(body: seq<Line>, g: Line, d: nat)
    requires AllItems(body + [g], d)
    ensures AllItems(body, d) && g.content.Item? && g.indent == d
  {
    assert forall x <- body :: x in body + [g];
    assert g in body + [g];
  }

  lemma {:induction false} GluedValueIsLost(e: Entry, l: Line, more: string)
    requires |more| > |CONTROL_NAME|
    requires
      var was := ValueOf(e.(body := e.body + [l]));
      was.Some? && !FoundAt(was.value)
    ensures
      var now := ValueOf(e.(body := e.body + [Glue(l, more)]));
      now.Some? ==> !FoundAt(now.value)
  {
    var g := Glue(l, more);
    var body, glued := e.body + [l], e.body + [g];
    assert body[0].indent == glued[0].indent;
    if e.inline.None? && AllItems(glued, glued[0].indent) {
      AllItemsFront(e.body, g, glued[0].indent);
      assert AllItems(body, glued[0].indent);
      GluedWordIsNoName(e.body, l, more, glued[0].indent);
    }
  }

  lemma {:induction false} GluedUnderIsLost(ea: seq<Entry>, l: Line, more: string)
    requires ea != [] && |more| > |CONTROL_NAME|
    requires Unique(Extend(ea, [l]), Enabled) && FieldsOf(Extend(ea, [l])).Some? && !FindsIn(FieldsOf(Extend(ea, [l])))
    ensures !FindsIn(FieldsOf(Extend(ea, [Glue(l, more)])))
  {
    var g, k := Glue(l, more), |ea| - 1;
    ExtendedEither(ea, [l], [g], []);
    var es, gs := Extend(ea, [l]), Extend(ea, [g]);
    assert es + [] == es && gs + [] == gs;
    var e := ea[k].(body := ea[k].body + [g]);
    if e.name != Enabled {
      ElsewhereIsNotFound(es, k, e);
    } else if FieldsOf(gs).Some? {
      UniqueUpdate(es, k, e, Enabled);
      OneDecides(es, k);
      OneDecides(gs, k);
      GluedValueIsLost(ea[k], l, more);
    }
  }

  lemma {:induction false} GluedIsLost(a: seq<Line>, l: Line, c: nat, more: string)
    requires Counts(l) && c == (a + [l])[0].indent && Counts((a + [l])[0]) && |more| > |CONTROL_NAME|
    requires Entries(a + [l], c).Some?
    requires var es := Entries(a + [l], c).value; Unique(es, Enabled) && FieldsOf(es).Some? && !FindsIn(FieldsOf(es))
    ensures var glued := Entries(a + [Glue(l, more)], c);
      glued.Some? ==> !FindsIn(FieldsOf(glued.value))
  {
    var g := Glue(l, more);
    BlockStarts(a + [l], c);
    ReadConcat(a, [l], c);
    ReadConcat(a, [g], c);
    ReadOne(l, c);
    ReadOne(g, c);
    if a != [] && InBody(g, c) {
      assert a[0] == (a + [l])[0];
      StartsEntry(a, c);
      var ea := Read(a, c).entries;
      assert Extend(ea, [l]) + [] == Extend(ea, [l]) && Extend(ea, [g]) + [] == Extend(ea, [g]);
      GluedUnderIsLost(ea, l, more);
    }
  }

  lemma {:induction false} GluedItemIsNotFound(
    before: seq<Line>, after: seq<Line>, n: nat, children: seq<Child>, more: string)
    requires NotYet(before, after, children) && FindEnabled(after) == At(n) && Stop(after, n) == |after|
    requires |more| > |CONTROL_NAME|
    ensures !Finds(before + [PLUGINS_LINE] + (after[..|after| - 1] + [Glue(after[|after| - 1], more)]))
  {
    var front, l := after[..|after| - 1], after[|after| - 1];
    var g := Glue(l, more);
    LastIsDeep(after, n);
    assert after == front + [l];
    ReadConcat(front, [l], 0);
    ReadConcat(front, [g], 0);
    ReadOne(l, 0);
    ReadOne(g, 0);
    SectionIsAll(after, n);
    var a, c := Read(front, 0).lead, FirstIndent(after);
    NotYetInside(before, after, children);
    assert (a + [g])[0].indent == (a + [l])[0].indent;
    GluedIsLost(a, l, c, more);
    assert PluginsEntry(front + [g]).body == a + [g];
    EntryFindsIff(PluginsEntry(front + [g]));
    LostInSection(before, after, front + [g]);
  }
}
