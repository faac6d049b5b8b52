/** When `_plan_edit` adds the name and nothing else: for every readable file, exactly
  * the conditions under which the edited text means the original with one name more. */
module EditTheorems {
  import opened Options
  import opened YamlLines
  import opened ConfigEdit
  import opened EditMeaning

  predicate Adds(doc: Document, ms: seq<Section>) {
    var edited := Plan(doc, ShapeOf(ms));
    edited.Some? && Meaning(edited.value.lines) == Some(AddPlugin(ms))
  }

  // ---------------------------------------------------------------- no plugins section

  lemma ReadStep(l: Line, b: seq<Line>, c: nat)
    ensures Read([l] + b, c) == OneMore(l, c, Read(b, c))
  {
    assert ([l] + b)[1..] == b;
  }

  /** What is read behind the two new lines goes on after them. */
  lemma NewListThen(p: seq<Line>)
    ensures Read(NewList() + p, 2) ==
      var r := Read(p, 2);
      if r.Bad? then Bad else Reading([], [Entry(Enabled, None, [Line(4, Item(Control))] + r.lead)] + r.entries)
  {
    var en, item := Line(2, Key(Enabled, None)), Line(4, Item(Control));
    assert NewList() + p == [en] + ([item] + p);
    ReadStep(item, p, 2);
    ReadStep(en, [item] + p, 2);
  }

  const NEW_ENTRY := Entry(Enabled, None, [Line(4, Item(Control))])

  lemma NewEntryLists()
    ensures ChildOf(NEW_ENTRY) == EnabledList([Control])
  {
    var item := Line(4, Item(Control));
    assert [item][1..] == [];
    assert Words([item]) == [Control] + Words([]);
    assert Flat(NEW_ENTRY);
  }

  lemma NewListReads()
    ensures Read(NewList(), 0) == Reading(NewList(), [])
    ensures SectionOf(PluginsEntry(NewList())) == PluginsMap([EnabledList([Control])])
  {
    ReadLead(NewList(), 0);
    NewListThen([]);
    assert NewList() + [] == NewList();
    assert NEW_ENTRY.body + [] == NEW_ENTRY.body;
    assert [NEW_ENTRY] + [] == [NEW_ENTRY];
    assert Entries(NewList(), 2) == Some([NEW_ENTRY]);
    NewEntryLists();
    assert ChildrenOf([NEW_ENTRY]) == [ChildOf(NEW_ENTRY)] + ChildrenOf([]);
  }

  lemma {:induction false} SectionsConcat(a: seq<Entry>, b: seq<Entry>)
    ensures SectionsOf(a + b) == SectionsOf(a) + SectionsOf(b)
  {
    if a == [] {
      assert a + b == b;
    } else {
      assert (a + b)[1..] == a[1..] + b;
      SectionsConcat(a[1..], b);
    }
  }

  lemma BlanksReadAsNothing(lines: seq<Line>)
    ensures Read(lines + [Line(0, Blank), Line(0, Comment)], 0) == Read(lines, 0)
  {
    var skipped := [Line(0, Blank), Line(0, Comment)];
    assert skipped[1..] == [Line(0, Comment)] && skipped[1..][1..] == [];
    assert Read(skipped, 0) == Reading([], []);
    ReadConcat(lines, skipped, 0);
    if !Read(lines, 0).Bad? {
      JoinWhole(Read(lines, 0), []);
      assert Read(lines, 0).entries + [] == Read(lines, 0).entries;
    }
  }

  lemma NewPluginsEntry(es: seq<Entry>, p: Entry)
    requires p.name == Plugins && SectionOf(p) == PluginsMap([EnabledList([Control])])
    requires !HasPlugins(SectionsOf(es))
    ensures Unique(es + [p], Plugins) && SectionsOf(es + [p]) == AddPlugin(SectionsOf(es))
  {
    var ms := SectionsOf(es);
    SectionsAt(es);
    forall i | 0 <= i < |es| ensures es[i].name != Plugins {
      assert ms[i] == SectionOf(es[i]) && ms[i] in ms;
    }
    SectionsConcat(es, [p]);
    assert SectionsOf([p]) == [SectionOf(p)] + SectionsOf([]);
    AddPluginNew(ms);
  }

  /** A file without the section gets one. */
  lemma NewSectionAdds(doc: Document, ms: seq<Section>)
    requires Meaning(doc.lines) == Some(ms) && !HasPlugins(ms)
    ensures Adds(doc, ms)
  {
    var before := doc.lines + [Line(0, Blank), Line(0, Comment)];
    assert WithSection(doc).lines == before + [PLUGINS_LINE] + NewList();
    BlanksReadAsNothing(doc.lines);
    EntriesAround(before, NewList());
    NewListReads();
    var es, p := Read(doc.lines, 0).entries, PluginsEntry(NewList());
    assert [p] + [] == [p];
    NewPluginsEntry(es, p);
  }

  // ---------------------------------------------------------------- a section without a list

  function FirstIndent(ls: seq<Line>): nat {
    if ls == [] then 0 else if Counts(ls[0]) then ls[0].indent else FirstIndent(ls[1..])
  }

  lemma {:induction false} FirstOfLead(ls: seq<Line>)
    requires !Read(ls, 0).Bad? && Read(ls, 0).lead != []
    ensures FirstIndent(ls) == Read(ls, 0).lead[0].indent && Counts(Read(ls, 0).lead[0])
  {
    if !Counts(ls[0]) {
      FirstOfLead(ls[1..]);
    }
  }

  predicate NamesEnabled(children: seq<Child>) {
    exists i :: 0 <= i < |children| && (children[i].EnabledList? || children[i].entry.name == Enabled)
  }

  lemma NamesEnabledIff(es: seq<Entry>)
    ensures NamesEnabled(ChildrenOf(es)) <==> exists i :: 0 <= i < |es| && es[i].name == Enabled
  {
    ChildrenAt(es);
    forall i | 0 <= i < |es|
      ensures (ChildOf(es[i]).EnabledList? || ChildOf(es[i]).entry.name == Enabled) <==> es[i].name == Enabled
    {
    }
    if i :| 0 <= i < |es| && es[i].name == Enabled {
      assert ChildrenOf(es)[i] == ChildOf(es[i]);
    }
  }

  /** The new list comes out as the first of the section's entries exactly if those are
    * indented by two, as the new line is, and none is called `enabled` already. */
  lemma NewListIn(p: seq<Line>, c: nat)
    requires p != [] && Counts(p[0]) && c == p[0].indent && c > 0 && Entries(p, c).Some?
    requires Unique(Entries(p, c).value, Enabled)
    ensures
      var es, grown := Entries(p, c).value, Entries(NewList() + p, 2);
      grown.Some? && Unique(grown.value, Enabled) && ChildrenOf(grown.value) == [EnabledList([Control])] + ChildrenOf(es)
      <==> c == 2 && !NamesEnabled(ChildrenOf(es))
  {
    var es := Entries(p, c).value;
    BlockStarts(p, c);
    NewListThen(p);
    var r := Read(p, 2);
    if !r.Bad? {
      var first := Entry(Enabled, None, [Line(4, Item(Control))] + r.lead);
      assert Entries(NewList() + p, 2) == Some([first] + r.entries);
      assert ([first] + r.entries)[1..] == r.entries;
      assert ChildrenOf([first] + r.entries) == [ChildOf(first)] + ChildrenOf(r.entries);
      if c == 2 {
        assert r == Reading([], es);
        assert first == NEW_ENTRY;
        NewEntryLists();
        NamesEnabledIff(es);
        UniqueBefore(first, es);
      } else {
        assert r.lead != [] && r.lead[0] == p[0];
        assert first.body[1] == p[0];
        assert p[0] in first.body;
        assert !Flat(first);
        assert ([EnabledList([Control])] + ChildrenOf(es))[0] == EnabledList([Control]);
      }
    }
  }

  lemma UniqueBefore(first: Entry, es: seq<Entry>)
    requires first.name == Enabled && Unique(es, Enabled)
    ensures Unique([first] + es, Enabled) <==> forall i :: 0 <= i < |es| ==> es[i].name != Enabled
  {
    forall i | 0 <= i < |es| ensures ([first] + es)[i + 1] == es[i] {}
    if Unique([first] + es, Enabled) {
      forall i | 0 <= i < |es| ensures es[i].name != Enabled {
        assert ([first] + es)[0] == first && ([first] + es)[i + 1] == es[i];
      }
    }
  }

  /** The mapping under `plugins`. */
  ghost predicate HasMapOf(ms: seq<Section>, children: seq<Child>) {
    PluginsMap(children) in ms
  }

  /** What is under the section's line is a mapping with these children. */
  ghost predicate Holds(after: seq<Line>, children: seq<Child>) {
    && !Read(after, 0).Bad? && IsPluginsMap(PluginsEntry(after))
    && var p, c := Read(after, 0).lead, FirstIndent(after);
    && p != [] && Counts(p[0]) && c == p[0].indent && c > 0
    && Entries(p, c).Some? && Unique(Entries(p, c).value, Enabled) && children == ChildrenOf(Entries(p, c).value)
  }

  /** The lines before the section's line, and the indentation inside it. */
  lemma SectionAt(lines: seq<Line>, ms: seq<Section>, children: seq<Child>)
    requires Meaning(lines) == Some(ms) && HasMapOf(ms, children)
    ensures PluginsAt(lines) < |lines| && lines == lines[..PluginsAt(lines)] + [PLUGINS_LINE] + Under(lines)
    ensures Holds(Under(lines), children)
  {
    PluginsFound(lines, ms, PluginsMap(children));
    var p := Read(Under(lines), 0).lead;
    FirstOfLead(Under(lines));
    BlockStarts(p, p[0].indent);
    ReadKinds(Under(lines), 0);
    assert p[0] in p;
  }

  lemma NewListUnder(before: seq<Line>, after: seq<Line>, ms: seq<Section>, children: seq<Child>)
    requires Meaning(before + [PLUGINS_LINE] + after) == Some(ms) && Holds(after, children)
    ensures Meaning(before + [PLUGINS_LINE] + (NewList() + after)) == Some(AddPlugin(ms)) <==>
      if Lists(children) then SectionOf(PluginsEntry(NewList() + after)) == PluginsMap(AddName(children))
      else FirstIndent(after) == 2 && !NamesEnabled(children)
  {
    var p := Read(after, 0).lead;
    ReadLead(NewList(), 0);
    ReadBehind(NewList(), after);
    SwapPlugins(before, after, NewList() + after, ms);
    NewListIn(p, FirstIndent(after));
    assert (NewList() + p)[0].indent == 2;
    assert PluginsEntry(NewList() + after).body == NewList() + p;
  }

  /** The new list is added exactly if the section's entries are indented by two and
    * none of them is called `enabled`. */
  lemma NewListAdds(doc: Document, ms: seq<Section>, children: seq<Child>)
    requires Meaning(doc.lines) == Some(ms) && HasMapOf(ms, children) && !HasList(ms)
    ensures Adds(doc, ms) <==> FirstIndent(Under(doc.lines)) == 2 && !NamesEnabled(children)
  {
    SectionAt(doc.lines, ms, children);
    NoListMeans(ms, children);
    OneMoreTaken(doc.lines, PluginsAt(doc.lines));
    NewListUnder(doc.lines[..PluginsAt(doc.lines)], Under(doc.lines), ms, children);
  }

  lemma NoListMeans(ms: seq<Section>, children: seq<Child>)
    requires HasMapOf(ms, children) && !HasList(ms)
    ensures HasPlugins(ms) && HasMap(ms) && !Lists(children)
  {
    var s := PluginsMap(children);
    assert s in ms && NamesPlugins(s) && s.PluginsMap?;
    assert !ListsSome(s.children);
  }

  lemma OneMoreTaken<T>(s: seq<T>, n: nat)
    requires n < |s|
    ensures s[..n + 1] == s[..n] + [s[n]]
  {
  }

  // ---------------------------------------------------------------- a section with a list

  /** If only items are under `enabled:`, the new one comes directly behind them and is
    * indented as they are. */
  lemma BehindTheList(ls: seq<Line>, c: nat)
    requires !Read(ls, 0).Bad? && c > 0
    ensures
      var k := ItemsLength(ls, c);
      && !Read(ls[..k], 0).Bad? && !Read(ls[k..], 0).Bad?
      && var items, rest := Read(ls[..k], 0).lead, Read(ls[k..], 0).lead;
      !Read(rest, c).Bad? && Flat(Entry(Enabled, None, items + Read(rest, c).lead)) ==>
        Read(rest, c).lead == [] && items != [] && ItemIndent(ls, c) == items[0].indent
  {
    var k := ItemsLength(ls, c);
    UpToLastItem(ls, c);
    Cut(ls, k);
    ReadConcat(ls[..k], ls[k..], 0);
    var items, rest := Read(ls[..k], 0).lead, Read(ls[k..], 0).lead;
    assert k == 0 ==> ls[..k] == [];
    if !Read(rest, c).Bad? && Flat(Entry(Enabled, None, items + Read(rest, c).lead)) {
      NothingBehind(ls, c, items, rest);
      assert items[|items| - 1] == ls[k - 1] && items[|items| - 1] in items && items[0] in items;
    }
  }

  lemma NothingBehind(ls: seq<Line>, c: nat, items: seq<Line>, rest: seq<Line>)
    requires c > 0 && !Read(ls, 0).Bad? && !Read(ls[..ItemsLength(ls, c)], 0).Bad? && !Read(ls[ItemsLength(ls, c)..], 0).Bad?
    requires Read(ls[..ItemsLength(ls, c)], 0) == Reading(items, []) && rest == Read(ls[ItemsLength(ls, c)..], 0).lead
    requires !Read(rest, c).Bad? && Flat(Entry(Enabled, None, items + Read(rest, c).lead))
    ensures Read(rest, c).lead == [] && items + Read(rest, c).lead == items
  {
    var k := ItemsLength(ls, c);
    Cut(ls, k);
    UpToLastItem(ls, c);
    ReadBehind(ls[..k], ls[k..]);
    ReadKinds(ls[..k], 0);
    ReadLead(items, c);
    ReadConcat(items, rest, c);
    assert Read(items + rest, c).lead == items + Read(rest, c).lead;
    NoItemBehind(ls, c);
  }

  lemma ItemIndentAtLeast(ls: seq<Line>, indent: nat)
    ensures ItemIndent(ls, indent) >= indent
  {
  }

  /** The parts of the section, as the lemma on mappings wants them. */
  lemma SectionParts(after: seq<Line>, n: nat)
    requires !Read(after, 0).Bad? && FindEnabled(after) == At(n)
    ensures
      var k := Stop(after, n);
      && !Read(after[..n], 0).Bad? && !Read(after[n + 1..k], 0).Bad? && !Read(after[k..], 0).Bad?
      && (forall l <- Read(after[..n], 0).lead :: Counts(l) && !IsEnabledKey(l))
      && (forall l <- Read(after[n + 1..k], 0).lead :: Counts(l) && InBody(l, after[n].indent))
  {
    var k := Stop(after, n);
    Parts(after, n);
    CutAround(after, n, k);
    BeforeEnabled(after, n);
    ReadKinds(after[..n], 0);
    UpToLastItem(after[n + 1..], after[n].indent);
    ReadKinds(after[n + 1..k], 0);
  }

  lemma CutBelow<T>(s: seq<T>, n: nat, k: nat)
    requires n < k <= |s|
    ensures s[n + 1..][..k - n - 1] == s[n + 1..k] && s[n + 1..][k - n - 1..] == s[k..]
  {
  }

  lemma ItemBehind(after: seq<Line>, n: nat)
    requires !Read(after, 0).Bad? && FindEnabled(after) == At(n)
    ensures
      var k, c := Stop(after, n), after[n].indent;
      && !Read(after[n + 1..k], 0).Bad? && !Read(after[k..], 0).Bad?
      && var items, rest := Read(after[n + 1..k], 0).lead, Read(after[k..], 0).lead;
      !Read(rest, c).Bad? && Flat(Entry(Enabled, None, items + Read(rest, c).lead)) ==>
        Read(rest, c).lead == [] && ItemIndent(after[n + 1..], c) == items[0].indent
  {
    Parts(after, n);
    CutBelow(after, n, Stop(after, n));
    BehindTheList(after[n + 1..], after[n].indent);
  }

  /** The item lands in the section's own list exactly if the first `enabled:` line is
    * the section's own. */
  lemma ItemAdds(before: seq<Line>, after: seq<Line>, n: nat, ms: seq<Section>, children: seq<Child>)
    requires Meaning(before + [PLUGINS_LINE] + after) == Some(ms)
    requires Holds(after, children) && Lists(children) && FindEnabled(after) == At(n)
    ensures
      var k, x := Stop(after, n), Line(ItemIndent(after[n + 1..], after[n].indent), Item(Control));
      Meaning(before + [PLUGINS_LINE] + (after[..k] + ([x] + after[k..]))) == Some(AddPlugin(ms))
      <==> after[n].indent == FirstIndent(after)
  {
    var en, k := after[n], Stop(after, n);
    var d := ItemIndent(after[n + 1..], en.indent);
    var x := Line(d, Item(Control));
    var c := FirstIndent(after);
    ItemIndentAtLeast(after[n + 1..], en.indent);
    SectionParts(after, n);
    Layout(after, n, x);
    var top, rest := Read(after[..n], 0).lead + ([en] + Read(after[n + 1..k], 0).lead), Read(after[k..], 0).lead;
    var edited := after[..k] + ([x] + after[k..]);
    SwapPlugins(before, after, edited, ms);
    BlockStarts(top + rest, c);
    ReadConcat(top, rest, c);
    ItemBehind(after, n);
    ItemGrowsList(Read(after[..n], 0).lead, en, Read(after[n + 1..k], 0).lead, rest, d, c);
    assert (top + ([x] + rest))[0] == top[0] == (top + rest)[0];
    assert PluginsEntry(edited).body == top + ([x] + rest);
  }

  /** A file that ends in the list without a newline swallows the new item. */
  lemma GluedItemIsLost(before: seq<Line>, after: seq<Line>, n: nat, ms: seq<Section>, children: seq<Child>, more: string)
    requires Meaning(before + [PLUGINS_LINE] + after) == Some(ms)
    requires Holds(after, children) && Lists(children) && FindEnabled(after) == At(n) && Stop(after, n) == |after|
    ensures
      var l := after[|after| - 1];
      Meaning(before + [PLUGINS_LINE] + (after[..|after| - 1] + [Glue(l, more)])) != Some(AddPlugin(ms))
  {
    var front, l := after[..|after| - 1], after[|after| - 1];
    var g := Glue(l, more);
    LastIsDeep(after, n);
    assert after == front + [l];
    ReadConcat(front, [l], 0);
    ReadConcat(front, [g], 0);
    ReadOne(l, 0);
    ReadOne(g, 0);
    SectionIsAll(after, n);
    var a, c := Read(front, 0).lead, FirstIndent(after);
    assert (a + [g])[0].indent == (a + [l])[0].indent;
    SwapPlugins(before, after, front + [g], ms);
    GluedAddsNothing(a, l, c, more);
    assert PluginsEntry(front + [g]).body == a + [g];
  }

  lemma LastIsDeep(after: seq<Line>, n: nat)
    requires FindEnabled(after) == At(n) && Stop(after, n) == |after|
    ensures after[|after| - 1].indent > 0 && Counts(after[|after| - 1])
  {
    var k := ItemsLength(after[n + 1..], after[n].indent);
    if k > 0 {
      LastOfRest(after, n, k);
    } else {
      assert n == |after| - 1;
    }
  }

  lemma LastOfRest<T>(s: seq<T>, n: nat, k: nat)
    requires 0 < k && n + 1 + k == |s|
    ensures s[n + 1..][k - 1] == s[|s| - 1]
  {
  }

  lemma {:induction false} LastBeforeStop(ls: seq<Line>, n: nat)
    requires FindEnabled(ls) == At(n)
    ensures var last := ls[Stop(ls, n) - 1]; last.content.Item? || last.content == Key(Enabled, None)
  {
    var k := ItemsLength(ls[n + 1..], ls[n].indent);
    if k > 0 {
      assert ls[n + 1..][k - 1] == ls[Stop(ls, n) - 1];
    }
  }

  lemma SectionIsAll(after: seq<Line>, n: nat)
    requires !Read(after, 0).Bad? && FindEnabled(after) == At(n) && Stop(after, n) == |after|
    ensures Read(after, 0).entries == []
  {
    Parts(after, n);
    Layout(after, n, Line(1, Item(Control)));
    assert after[|after|..] == [];
  }

  predicate OwnEnabledFirst(after: seq<Line>) {
    var found := FindEnabled(after);
    found.At? && after[found.n].indent == FirstIndent(after)
  }

  predicate EndsInItems(after: seq<Line>) {
    var found := FindEnabled(after);
    found.At? && Stop(after, found.n) == |after|
  }

  lemma ListMeans(ms: seq<Section>, children: seq<Child>)
    requires HasMapOf(ms, children) && Lists(children)
    ensures HasPlugins(ms) && HasMap(ms) && HasList(ms)
  {
    var s := PluginsMap(children);
    assert s in ms && NamesPlugins(s) && s.PluginsMap?;
    var i :| 0 <= i < |children| && children[i].EnabledList?;
    assert ListsSome(s.children);
  }

  lemma LongerListUnder(
    before: seq<Line>, after: seq<Line>, n: nat, ending: Ending, ms: seq<Section>, children: seq<Child>)
    requires Meaning(before + [PLUGINS_LINE] + after) == Some(ms)
    requires Holds(after, children) && Lists(children) && FindEnabled(after) == At(n)
    ensures Meaning(before + [PLUGINS_LINE] + WithItem(after, n, ending)) == Some(AddPlugin(ms)) <==>
      after[n].indent == FirstIndent(after) && (ending.Newline? || Stop(after, n) < |after|)
  {
    WithItemIs(after, n, ending);
    if ending.Newline? || Stop(after, n) < |after| {
      ItemAdds(before, after, n, ms, children);
    } else {
      GluedItemIsLost(before, after, n, ms, children, ending.pad + RawOf(NewItem(after, n)));
    }
  }

  /** The line that is put in below an `enabled:` line at `n`. */
  function NewItem(after: seq<Line>, n: nat): Line
    requires n < |after|
  {
    Line(ItemIndent(after[n + 1..], after[n].indent), Item(Control))
  }

  lemma WithItemIs(after: seq<Line>, n: nat, ending: Ending)
    requires n < |after|
    ensures
      var k, item := Stop(after, n), NewItem(after, n);
      WithItem(after, n, ending) ==
        if ending.Newline? || k < |after| then after[..k] + ([item] + after[k..])
        else after[..|after| - 1] + [Glue(after[|after| - 1], ending.pad + RawOf(item))]
  {
    var k := Stop(after, n);
    if ending.Open? && k == |after| {
      assert after[..k] == after;
    }
  }

  lemma PlanGrows(doc: Document, ms: seq<Section>, children: seq<Child>)
    requires HasMapOf(ms, children) && Lists(children) && PluginsAt(doc.lines) < |doc.lines|
    ensures Plan(doc, ShapeOf(ms)) == Grown(doc.lines[..PluginsAt(doc.lines)] + [PLUGINS_LINE], Under(doc.lines), doc.ending)
  {
    ListMeans(ms, children);
    OneMoreTaken(doc.lines, PluginsAt(doc.lines));
  }

  /** The name is added to a list exactly if the first `enabled:` line under `plugins:` is
    * the section's own and, for a file without a newline at its end, something comes
    * after the list. */
  lemma LongerListAdds(doc: Document, ms: seq<Section>, children: seq<Child>)
    requires Meaning(doc.lines) == Some(ms) && HasMapOf(ms, children) && Lists(children)
    ensures Adds(doc, ms) <==> OwnEnabledFirst(Under(doc.lines)) && (doc.ending.Newline? || !EndsInItems(Under(doc.lines)))
  {
    SectionAt(doc.lines, ms, children);
    PlanGrows(doc, ms, children);
    var before, after := doc.lines[..PluginsAt(doc.lines)], Under(doc.lines);
    if FindEnabled(after).At? {
      LongerListUnder(before, after, FindEnabled(after).n, doc.ending, ms, children);
    }
  }

  // ---------------------------------------------------------------- nothing is taken away

  /** The old lines with some put in after the first `k`. */
  predicate Inserts(before: seq<Line>, after: seq<Line>, k: nat) {
    k <= |before| <= |after| && after[..k] == before[..k] && after[k + |after| - |before|..] == before[k..]
  }

  lemma InsertsBehind(front: seq<Line>, more: seq<Line>, rest: seq<Line>)
    ensures Inserts(front + rest, front + (more + rest), |front|)
  {
    var after := front + (more + rest);
    assert after == (front + more) + rest;
    assert after[|front| + |more|..] == rest;
  }

  lemma InsertsUnder(head: seq<Line>, before: seq<Line>, after: seq<Line>, k: nat)
    requires Inserts(before, after, k)
    ensures Inserts(head + before, head + after, |head| + k)
  {
    var n := |after| - |before|;
    assert (head + after)[|head| + k + n..] == after[k + n..];
    assert (head + before)[|head| + k..] == before[k..];
    assert (head + after)[..|head| + k] == head + after[..k];
    assert (head + before)[..|head| + k] == head + before[..k];
  }

  lemma WithItemInserts(ls: seq<Line>, n: nat)
    requires n < |ls|
    ensures Inserts(ls, WithItem(ls, n, Newline), Stop(ls, n))
  {
    var k := Stop(ls, n);
    Cut(ls, k);
    InsertsBehind(ls[..k], [Line(ItemIndent(ls[n + 1..], ls[n].indent), Item(Control))], ls[k..]);
  }

  lemma GrownInserts(head: seq<Line>, after: seq<Line>)
    requires Grown(head, after, Newline).Some?
    ensures exists k :: Inserts(head + after, Grown(head, after, Newline).value.lines, k)
  {
    var n := FindEnabled(after).n;
    WithItemInserts(after, n);
    InsertsUnder(head, after, WithItem(after, n, Newline), Stop(after, n));
    assert Inserts(head + after, Grown(head, after, Newline).value.lines, |head| + Stop(after, n));
  }

  /** On a file that ends in a newline every edit, right or wrong, only puts lines in. */
  lemma OnlyInserts(doc: Document, shape: Shape)
    requires doc.ending.Newline? && Plan(doc, shape).Some?
    ensures exists k :: Inserts(doc.lines, Plan(doc, shape).value.lines, k)
  {
    var lines, n := doc.lines, PluginsAt(doc.lines);
    var edited := Plan(doc, shape).value.lines;
    if shape.NoPlugins? {
      assert Inserts(lines, edited, |lines|);
    } else {
      Cut(lines, n + 1);
      if shape.NoList? {
        InsertsBehind(lines[..n + 1], NewList(), Under(lines));
        assert Inserts(lines, edited, n + 1);
      } else {
        GrownInserts(lines[..n + 1], Under(lines));
      }
    }
  }
}
