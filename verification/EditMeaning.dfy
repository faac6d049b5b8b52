/** What the edited configuration means: the original with one name more, exactly when
  * the file has the shape the edit counts on. */
module EditMeaning {
  import opened Options
  import opened YamlLines
  import opened ConfigEdit

  // ---------------------------------------------------------------- around the plugins section

  /** The entry a `plugins:` line makes of the lines after it. */
  function PluginsEntry(after: seq<Line>): Entry {
    Entry(Plugins, None, if Read(after, 0).Bad? then [] else Read(after, 0).lead)
  }

  lemma ReadFromPlugins(after: seq<Line>)
    ensures Read([PLUGINS_LINE] + after, 0) ==
      if Read(after, 0).Bad? then Bad
      else Reading([], [PluginsEntry(after)] + Read(after, 0).entries)
  {
    assert ([PLUGINS_LINE] + after)[1..] == after;
  }

  lemma JoinWhole(a: Reading, entries: seq<Entry>)
    requires !a.Bad?
    ensures Join(a, Reading([], entries)) == Reading(a.lead, a.entries + entries)
  {
    if a.entries != [] {
      ExtendByNothing(a.entries);
    } else {
      assert a.lead + [] == a.lead && a.entries + entries == entries;
    }
  }

  lemma EntriesAround(before: seq<Line>, after: seq<Line>)
    ensures Entries(before + [PLUGINS_LINE] + after, 0) ==
      if Read(before, 0).Bad? || Read(before, 0).lead != [] || Read(after, 0).Bad? then None
      else Some(Read(before, 0).entries + ([PluginsEntry(after)] + Read(after, 0).entries))
  {
    assert before + [PLUGINS_LINE] + after == before + ([PLUGINS_LINE] + after);
    ReadConcat(before, [PLUGINS_LINE] + after, 0);
    ReadFromPlugins(after);
    if !Read(before, 0).Bad? && !Read(after, 0).Bad? {
      JoinWhole(Read(before, 0), [PluginsEntry(after)] + Read(after, 0).entries);
    }
  }

  lemma UniqueUpdate(es: seq<Entry>, k: nat, e: Entry, name: Name)
    requires k < |es| && es[k].name == e.name && Unique(es, name)
    ensures Unique(es[k := e], name)
  {
  }

  lemma SwapSection(es: seq<Entry>, k: nat, f: Entry)
    requires k < |es| && Unique(es, Plugins) && IsPluginsMap(es[k]) && f.name == Plugins
    ensures Unique(es[k := f], Plugins)
    ensures SectionsOf(es[k := f]) == AddPlugin(SectionsOf(es)) <==>
      SectionOf(f) == PluginsMap(AddName(ChildrenOf(Block(es[k]).value)))
  {
    UniqueUpdate(es, k, f, Plugins);
    SectionsAt(es);
    SectionsAt(es[k := f]);
    var ms := SectionsOf(es);
    assert SectionsOf(es[k := f]) == ms[k := SectionOf(f)];
    forall i | 0 <= i < k ensures !ms[i].PluginsMap? {
      assert es[i].name != Plugins;
    }
    AddPluginAt(ms, k);
    assert ms[k := SectionOf(f)][k] == SectionOf(f) && AddPlugin(ms)[k] == PluginsMap(AddName(ms[k].children));
  }

  /** Two texts that differ only within the plugins section. */
  lemma SwapPlugins(before: seq<Line>, after: seq<Line>, edited: seq<Line>, ms: seq<Section>)
    requires Meaning(before + [PLUGINS_LINE] + after) == Some(ms)
    requires !Read(after, 0).Bad? && !Read(edited, 0).Bad? && Read(edited, 0).entries == Read(after, 0).entries
    requires IsPluginsMap(PluginsEntry(after))
    ensures Meaning(before + [PLUGINS_LINE] + edited) == Some(AddPlugin(ms)) <==>
      SectionOf(PluginsEntry(edited)) == PluginsMap(AddName(ChildrenOf(Block(PluginsEntry(after)).value)))
  {
    EntriesAround(before, after);
    EntriesAround(before, edited);
    var es := Read(before, 0).entries + ([PluginsEntry(after)] + Read(after, 0).entries);
    var k := |Read(before, 0).entries|;
    assert es[k] == PluginsEntry(after);
    assert Read(before, 0).entries + ([PluginsEntry(edited)] + Read(edited, 0).entries) == es[k := PluginsEntry(edited)];
    SwapSection(es, k, PluginsEntry(edited));
  }

  // ---------------------------------------------------------------- within it

  lemma ChildGrowsIff(children: seq<Child>, j: nat, k: nat, child: Child)
    requires j < |children| && k < |children| && children[j].EnabledList?
    requires forall i :: 0 <= i < j ==> !children[i].EnabledList?
    ensures children[k := child] == AddToList(children) <==>
      k == j && child == EnabledList(children[j].words + [Control])
  {
    AddToListAt(children, j);
    var grown := EnabledList(children[j].words + [Control]);
    assert |grown.words| == |children[j].words| + 1;
    assert AddToList(children)[j] == grown;
    assert children[k := child][j] == if k == j then child else children[j];
  }

  /** The one entry that an edit touches decides whether the list has grown. */
  lemma ListGrowsIff(es: seq<Entry>, k: nat, e: Entry)
    requires k < |es| && es[k].name == e.name && Unique(es, Enabled) && Lists(ChildrenOf(es))
    ensures ChildrenOf(es[k := e]) == AddName(ChildrenOf(es)) <==>
      Flat(es[k]) && Flat(e) && Words(e.body) == Words(es[k].body) + [Control]
  {
    var children := ChildrenOf(es);
    ChildrenAt(es);
    ChildrenAt(es[k := e]);
    var j :| 0 <= j < |children| && children[j].EnabledList?;
    assert forall i :: 0 <= i < |es| && i != j ==> es[i].name != Enabled by {
      assert Flat(es[j]);
    }
    assert ChildrenOf(es[k := e]) == children[k := ChildOf(e)];
    ChildGrowsIff(children, j, k, ChildOf(e));
  }

  /** A line put behind the lines `a` of a mapping goes under the last entry there. */
  lemma InsertedUnder(a: seq<Line>, x: Line, b: seq<Line>, c: nat)
    requires Entries(a + b, c).Some? && !Read(a, c).Bad? && Read(a, c).entries != []
    requires Counts(x) && InBody(x, c)
    ensures !Read(b, c).Bad?
    ensures
      var es, ea, under := Entries(a + b, c).value, Read(a, c).entries, Read(b, c).lead;
      var k := |ea| - 1;
      && k < |es| && es[k] == ea[k].(body := ea[k].body + under)
      && Entries(a + ([x] + b), c) == Some(es[k := ea[k].(body := ea[k].body + ([x] + under))])
  {
    ReadConcat(a, b, c);
    ReadConcat(a, [x] + b, c);
    assert ([x] + b)[1..] == b;
    ExtendedEither(Read(a, c).entries, Read(b, c).lead, [x] + Read(b, c).lead, Read(b, c).entries);
  }

  lemma ExtendedEither(ea: seq<Entry>, one: seq<Line>, other: seq<Line>, rest: seq<Entry>)
    requires ea != []
    ensures
      var k := |ea| - 1;
      && (Extend(ea, one) + rest)[k] == ea[k].(body := ea[k].body + one)
      && Extend(ea, other) + rest == (Extend(ea, one) + rest)[k := ea[k].(body := ea[k].body + other)]
  {
    forall i | 0 <= i < |ea|
      ensures Extend(ea, one)[i] == if i < |ea| - 1 then ea[i] else ea[i].(body := ea[i].body + one)
      ensures Extend(ea, other)[i] == if i < |ea| - 1 then ea[i] else ea[i].(body := ea[i].body + other)
    {
      ExtendAt(ea, one, i);
      ExtendAt(ea, other, i);
    }
  }

  lemma WordsAppend(ls: seq<Line>, x: Line)
    requires (forall l <- ls :: l.content.Item?) && x.content.Item?
    ensures Words(ls + [x]) == Words(ls) + [x.content.word]
  {
    WordsAt(ls);
    WordsAt(ls + [x]);
    assert forall i :: 0 <= i < |ls| ==> Words(ls + [x])[i] == Words(ls)[i];
  }

  // ---------------------------------------------------------------- the scans

  predicate IsEnabledKey(l: Line) {
    l.content.Key? && l.content.name == Enabled
  }

  /** The lines passed over before `enabled:` all belong to the plugins section, and
    * none of them is an `enabled:` line. */
  lemma {:induction false} BeforeEnabled(ls: seq<Line>, n: nat)
    requires !Read(ls, 0).Bad? && FindEnabled(ls) == At(n)
    ensures !Read(ls[..n], 0).Bad? && Read(ls[..n], 0).entries == []
    ensures forall l <- Read(ls[..n], 0).lead :: !IsEnabledKey(l)
  {
    if n > 0 {
      BeforeEnabled(ls[1..], n - 1);
      assert ls[..n][0] == ls[0] && ls[..n][1..] == ls[1..][..n - 1];
    }
  }

  /** So do the lines up to the last item, all of them under the `enabled:` line. */
  lemma {:induction false} UpToLastItem(ls: seq<Line>, indent: nat)
    requires !Read(ls, 0).Bad? && indent > 0
    ensures
      var n := ItemsLength(ls, indent);
      && !Read(ls[..n], 0).Bad? && Read(ls[..n], 0).entries == []
      && (forall l <- Read(ls[..n], 0).lead :: InBody(l, indent))
      && (n > 0 ==> Read(ls[..n], 0).lead != [] && Read(ls[..n], 0).lead[|Read(ls[..n], 0).lead| - 1] == ls[n - 1])
  {
    var n := ItemsLength(ls, indent);
    if n > 0 {
      UpToLastItem(ls[1..], indent);
      assert ls[..n][0] == ls[0] && ls[..n][1..] == ls[1..][..n - 1];
    } else {
      assert ls[..0] == [];
    }
  }

  /** Where there are only items under it, none is left behind. */
  lemma {:induction false} NoItemBehind(ls: seq<Line>, indent: nat)
    requires !Read(ls, 0).Bad? && indent > 0
    requires var under := Read(Read(ls, 0).lead, indent);
      !under.Bad? && forall l <- under.lead :: l.content.Item?
    ensures var rest := Read(ls[ItemsLength(ls, indent)..], 0);
      !rest.Bad? && !Read(rest.lead, indent).Bad? && Read(rest.lead, indent).lead == []
  {
    var n := ItemsLength(ls, indent);
    assert ls[0..] == ls;
    if ls != [] {
      var lead := Read(ls[1..], 0).lead;
      if Counts(ls[0]) && InBody(ls[0], 0) {
        assert Read(ls, 0).lead == [ls[0]] + lead;
        assert ([ls[0]] + lead)[1..] == lead;
        assert Read([ls[0]] + lead, indent) == OneMore(ls[0], indent, Read(lead, indent));
      }
      if !Counts(ls[0]) || InBody(ls[0], indent) {
        if Counts(ls[0]) {
          assert ls[0] in Read(Read(ls, 0).lead, indent).lead;
        }
        NoItemBehind(ls[1..], indent);
        if n > 0 {
          assert ls[n..] == ls[1..][n - 1..];
        } else {
          assert ls[1..][0..] == ls[1..];
        }
      }
    }
  }

  // ---------------------------------------------------------------- the file, taken apart

  lemma OnlyMap(es: seq<Entry>, s: Section)
    requires s in SectionsOf(es) && s.PluginsMap?
    ensures exists i :: 0 <= i < |es| && IsPluginsMap(es[i]) && s == SectionOf(es[i])
  {
    SectionsAt(es);
    var i :| 0 <= i < |SectionsOf(es)| && SectionsOf(es)[i] == s;
    assert s == SectionOf(es[i]);
  }

  lemma OnlyMapAt(es: seq<Entry>, k: nat, s: Section)
    requires k < |es| && es[k].name == Plugins && Unique(es, Plugins)
    requires s in SectionsOf(es) && s.PluginsMap?
    ensures IsPluginsMap(es[k]) && s == SectionOf(es[k])
  {
    OnlyMap(es, s);
    var i :| 0 <= i < |es| && IsPluginsMap(es[i]) && s == SectionOf(es[i]);
    assert i == k;
  }

  lemma OnlyMapIn(before: seq<Entry>, e: Entry, after: seq<Entry>, s: Section)
    requires e.name == Plugins && Unique(before + ([e] + after), Plugins)
    requires s in SectionsOf(before + ([e] + after)) && s.PluginsMap?
    ensures IsPluginsMap(e) && s == SectionOf(e)
  {
    OnlyMapAt(before + ([e] + after), |before|, s);
  }

  lemma CutOut<T>(s: seq<T>, n: nat)
    requires n < |s|
    ensures s == s[..n] + [s[n]] + s[n + 1..]
  {
  }

  lemma Cut<T>(s: seq<T>, n: nat)
    requires n <= |s|
    ensures s == s[..n] + s[n..]
  {
  }

  lemma CutAround<T>(s: seq<T>, n: nat, k: nat)
    requires n < k <= |s|
    ensures s[..k] == s[..n] + ([s[n]] + s[n + 1..k])
    ensures s[n + 1..][..k - n - 1] == s[n + 1..k]
  {
  }

  lemma PluginsLineIsThere(lines: seq<Line>, ms: seq<Section>)
    requires Meaning(lines) == Some(ms) && HasMap(ms)
    ensures PluginsAt(lines) < |lines|
  {
    var es := Entries(lines, 0).value;
    var s :| s in ms && s.PluginsMap?;
    OnlyMap(es, s);
    var i :| 0 <= i < |es| && IsPluginsMap(es[i]) && s == SectionOf(es[i]);
    ReadKinds(lines, 0);
    assert es[i] in es && es[i].inline == None;
    assert PLUGINS_LINE in lines;
  }

  lemma PluginsFound(lines: seq<Line>, ms: seq<Section>, s: Section)
    requires Meaning(lines) == Some(ms) && s in ms && s.PluginsMap?
    ensures PluginsAt(lines) < |lines| && lines == lines[..PluginsAt(lines)] + [PLUGINS_LINE] + Under(lines)
    ensures !Read(Under(lines), 0).Bad? && IsPluginsMap(PluginsEntry(Under(lines)))
    ensures s == SectionOf(PluginsEntry(Under(lines)))
  {
    PluginsLineIsThere(lines, ms);
    var before := lines[..PluginsAt(lines)];
    CutOut(lines, PluginsAt(lines));
    EntriesAround(before, Under(lines));
    OnlyMapIn(Read(before, 0).entries, PluginsEntry(Under(lines)), Read(Under(lines), 0).entries, s);
  }

  lemma ReadBehind(a: seq<Line>, b: seq<Line>)
    requires !Read(a, 0).Bad? && Read(a, 0).entries == []
    ensures Read(a + b, 0) ==
      if Read(b, 0).Bad? then Bad else Reading(Read(a, 0).lead + Read(b, 0).lead, Read(b, 0).entries)
  {
    ReadConcat(a, b, 0);
  }

  lemma ReadCons(l: Line, b: seq<Line>)
    requires Counts(l) && l.indent > 0
    ensures Read([l] + b, 0) ==
      if Read(b, 0).Bad? then Bad else Reading([l] + Read(b, 0).lead, Read(b, 0).entries)
  {
    assert ([l] + b)[1..] == b;
  }

  lemma RegroupAround<T>(a: seq<T>, x: T, b: seq<T>, c: seq<T>)
    ensures a + ([x] + (b + c)) == a + ([x] + b) + c
  {
  }

  /** The section's lines: those before the first `enabled:`, that line, those up to the
    * last item under it, and the rest. */
  lemma LayoutRead(a: seq<Line>, en: Line, b: seq<Line>, rest: seq<Line>)
    requires !Read(a, 0).Bad? && Read(a, 0).entries == [] && !Read(b, 0).Bad? && Read(b, 0).entries == []
    requires Counts(en) && en.indent > 0
    ensures Read(a + ([en] + b) + rest, 0) ==
      if Read(rest, 0).Bad? then Bad
      else Reading(Read(a, 0).lead + ([en] + Read(b, 0).lead) + Read(rest, 0).lead, Read(rest, 0).entries)
  {
    RegroupAround(a, en, b, rest);
    ReadBehind(b, rest);
    ReadCons(en, b + rest);
    ReadBehind(a, [en] + (b + rest));
    if !Read(rest, 0).Bad? {
      RegroupAround(Read(a, 0).lead, en, Read(b, 0).lead, Read(rest, 0).lead);
    }
  }

  lemma Parts(ls: seq<Line>, n: nat)
    requires !Read(ls, 0).Bad? && FindEnabled(ls) == At(n)
    ensures
      var k := Stop(ls, n);
      && ls[..k] == ls[..n] + ([ls[n]] + ls[n + 1..k])
      && !Read(ls[..n], 0).Bad? && Read(ls[..n], 0).entries == []
      && !Read(ls[n + 1..k], 0).Bad? && Read(ls[n + 1..k], 0).entries == []
      && !Read(ls[k..], 0).Bad? && !Read(ls[n + 1..], 0).Bad?
  {
    var k := Stop(ls, n);
    BeforeEnabled(ls, n);
    Cut(ls, n + 1);
    ReadConcat(ls[..n + 1], ls[n + 1..], 0);
    UpToLastItem(ls[n + 1..], ls[n].indent);
    CutAround(ls, n, k);
    Cut(ls, k);
    ReadConcat(ls[..k], ls[k..], 0);
  }

  lemma Layout(ls: seq<Line>, n: nat, x: Line)
    requires !Read(ls, 0).Bad? && FindEnabled(ls) == At(n)
    requires Counts(x) && x.indent > 0
    requires !Read(ls[..n], 0).Bad? && !Read(ls[n + 1..Stop(ls, n)], 0).Bad? && !Read(ls[Stop(ls, n)..], 0).Bad?
    ensures
      var k := Stop(ls, n);
      var top, rest := Read(ls[..n], 0).lead + ([ls[n]] + Read(ls[n + 1..k], 0).lead), Read(ls[k..], 0);
      && Read(ls, 0) == Reading(top + rest.lead, rest.entries)
      && Read(ls[..k] + ([x] + ls[k..]), 0) == Reading(top + ([x] + rest.lead), rest.entries)
  {
    Parts(ls, n);
    var k := Stop(ls, n);
    LayoutRead(ls[..n], ls[n], ls[n + 1..k], ls[k..]);
    LayoutRead(ls[..n], ls[n], ls[n + 1..k], [x] + ls[k..]);
    ReadCons(x, ls[k..]);
    Cut(ls, k);
  }

  // ---------------------------------------------------------------- inside the section

  /** A mapping's first line is a key of its own. */
  lemma BlockStarts(ls: seq<Line>, c: nat)
    requires ls != [] && Counts(ls[0]) && c == ls[0].indent && Entries(ls, c).Some?
    ensures Starts(ls[0], c)
  {
  }

  lemma StartsEntry(ls: seq<Line>, c: nat)
    requires ls != [] && Counts(ls[0]) && Starts(ls[0], c) && !Read(ls, c).Bad?
    ensures Read(ls, c).entries != [] && Read(ls, c).lead == []
  {
  }

  /** An `enabled:` line and what is under it, in a mapping of its own indentation or a
    * shallower one. */
  lemma EnabledReads(en: Line, items: seq<Line>, c: nat)
    requires IsEnabledKey(en) && en.indent >= c
    requires forall l <- items :: Counts(l) && InBody(l, en.indent)
    ensures Read([en] + items, c) ==
      if en.indent == c then Reading([], [Entry(Enabled, en.content.inline, items)]) else Reading([en] + items, [])
  {
    assert ([en] + items)[1..] == items;
    ReadLead(items, c);
  }

  lemma EndsInOwn(m: seq<Line>, en: Line, items: seq<Line>)
    requires IsEnabledKey(en) && (forall l <- items :: Counts(l) && InBody(l, en.indent))
    requires !Read(m, en.indent).Bad?
    ensures
      var r := Read(m + ([en] + items), en.indent);
      !r.Bad? && r.entries != [] && r.entries[|r.entries| - 1] == Entry(Enabled, en.content.inline, items)
  {
    var c := en.indent;
    ReadConcat(m, [en] + items, c);
    EnabledReads(en, items, c);
    JoinWhole(Read(m, c), [Entry(Enabled, en.content.inline, items)]);
  }

  lemma EndsInOther(m: seq<Line>, en: Line, items: seq<Line>, c: nat)
    requires IsEnabledKey(en) && en.indent > c && (forall l <- items :: Counts(l) && InBody(l, en.indent))
    requires forall l <- m :: !IsEnabledKey(l)
    requires m != [] && Counts(m[0]) && Starts(m[0], c) && !Read(m, c).Bad?
    ensures
      var r := Read(m + ([en] + items), c);
      !r.Bad? && r.entries != [] && r.entries[|r.entries| - 1].name != Enabled
  {
    ReadConcat(m, [en] + items, c);
    EnabledReads(en, items, c);
    StartsEntry(m, c);
    ReadKinds(m, c);
    var es := Read(m, c).entries;
    ExtendAt(es, [en] + items, |es| - 1);
    assert es[|es| - 1] in es;
  }

  /** Which entry the lines up to the last item end in: `enabled` if its line stands at
    * the section's own indentation, and otherwise some other key. */
  lemma EndsIn(m: seq<Line>, en: Line, items: seq<Line>, c: nat)
    requires IsEnabledKey(en) && (forall l <- items :: Counts(l) && InBody(l, en.indent))
    requires forall l <- m :: Counts(l) && !IsEnabledKey(l)
    requires c == (m + ([en] + items))[0].indent && Starts((m + ([en] + items))[0], c)
    requires !Read(m + ([en] + items), c).Bad?
    ensures en.indent >= c
    ensures
      var es := Read(m + ([en] + items), c).entries;
      && es != []
      && if en.indent == c then es[|es| - 1] == Entry(Enabled, en.content.inline, items) else es[|es| - 1].name != Enabled
  {
    ReadConcat(m, [en] + items, c);
    assert ([en] + items)[1..] == items;
    if en.indent == c {
      EndsInOwn(m, en, items);
    } else {
      assert m != [] && (m + ([en] + items))[0] == m[0] && m[0] in m;
      EndsInOther(m, en, items, c);
    }
  }

  /** An item put behind the others makes the list longer exactly if the `enabled:` line
    * found is the section's own. */
  lemma {:induction false} ItemGrowsList(m: seq<Line>, en: Line, items: seq<Line>, rest: seq<Line>, d: nat, c: nat)
    requires IsEnabledKey(en) && (forall l <- items :: Counts(l) && InBody(l, en.indent))
    requires forall l <- m :: Counts(l) && !IsEnabledKey(l)
    requires c == (m + ([en] + items))[0].indent && Counts((m + ([en] + items))[0]) && d >= en.indent
    requires Entries(m + ([en] + items) + rest, c).Some?
    requires
      var es := Entries(m + ([en] + items) + rest, c).value;
      Unique(es, Enabled) && Lists(ChildrenOf(es))
    requires Starts((m + ([en] + items))[0], c) && !Read(rest, c).Bad?
    requires en.indent == c && Flat(Entry(Enabled, en.content.inline, items + Read(rest, c).lead))
      ==> Read(rest, c).lead == [] && d == items[0].indent
    ensures
      var es := Entries(m + ([en] + items) + rest, c).value;
      var grown := Entries(m + ([en] + items) + ([Line(d, Item(Control))] + rest), c);
      && grown.Some? && Unique(grown.value, Enabled)
      && (ChildrenOf(grown.value) == AddName(ChildrenOf(es)) <==> en.indent == c)
  {
    var a, x, u := m + ([en] + items), Line(d, Item(Control)), Read(rest, c).lead;
    ReadConcat(a, rest, c);
    EndsIn(m, en, items, c);
    InsertedUnder(a, x, rest, c);
    var es, ea := Entries(a + rest, c).value, Read(a, c).entries;
    var k := |ea| - 1;
    var e := ea[k].(body := ea[k].body + ([x] + u));
    UniqueUpdate(es, k, e, Enabled);
    ListGrowsIff(es, k, e);
    if en.indent == c {
      OwnListIsFlat(es, k);
      assert es[k].body == items + u;
      assert u == [] && [x] + u == [x] && items + u == items;
      assert AllItems(items, d) && AllItems(items + [x], d);
      WordsAppend(items, x);
    }
  }

  /** With one `enabled` key, the entry of that name is the list. */
  lemma {:induction false} OwnListIsFlat(es: seq<Entry>, k: nat)
    requires k < |es| && es[k].name == Enabled && Unique(es, Enabled) && Lists(ChildrenOf(es))
    ensures Flat(es[k])
  {
    ChildrenAt(es);
    var j :| 0 <= j < |ChildrenOf(es)| && ChildrenOf(es)[j].EnabledList?;
    assert Flat(es[j]);
    assert j == k;
  }

  /** A line glued to the last one adds no word. */
  lemma GluedAddsNothing(a: seq<Line>, l: Line, c: nat, more: string)
    requires Counts(l) && c == (a + [l])[0].indent && Counts((a + [l])[0])
    requires Entries(a + [l], c).Some?
    requires var es := Entries(a + [l], c).value; Unique(es, Enabled) && Lists(ChildrenOf(es))
    ensures
      var es, glued := Entries(a + [l], c).value, Entries(a + [Glue(l, more)], c);
      !(glued.Some? && ChildrenOf(glued.value) == AddName(ChildrenOf(es)))
  {
    var g := Glue(l, more);
    BlockStarts(a + [l], c);
    ReadConcat(a, [l], c);
    ReadConcat(a, [g], c);
    ReadOne(l, c);
    ReadOne(g, c);
    if a != [] && InBody(g, c) {
      assert a[0] == (a + [l])[0];
      StartsEntry(a, c);
      var ea := Read(a, c).entries;
      assert Extend(ea, [l]) + [] == Extend(ea, [l]) && Extend(ea, [g]) + [] == Extend(ea, [g]);
      GluedUnder(ea, l, g);
    }
  }

  lemma GluedUnder(ea: seq<Entry>, l: Line, g: Line)
    requires ea != [] && Unique(Extend(ea, [l]), Enabled) && Lists(ChildrenOf(Extend(ea, [l])))
    ensures ChildrenOf(Extend(ea, [g])) != AddName(ChildrenOf(Extend(ea, [l])))
  {
    var k := |ea| - 1;
    ExtendedEither(ea, [l], [g], []);
    var es, gs := Extend(ea, [l]), Extend(ea, [g]);
    assert es + [] == es && gs + [] == gs;
    var e := ea[k].(body := ea[k].body + [g]);
    ListGrowsIff(es, k, e);
    if Flat(es[k]) && Flat(e) {
      WordsAt(es[k].body);
      WordsAt(e.body);
      assert |Words(e.body)| == |Words(es[k].body)|;
    }
  }
}
