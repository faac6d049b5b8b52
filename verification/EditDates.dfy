/** What else can be told of the edited text: it raises nothing new, and it has dates for
  * keys exactly if the original has. */
module EditDates {
  import opened Options
  import opened YamlLines
  import opened ConfigEdit
  import opened EditMeaning
  import opened EditTheorems
  import opened Documents
  import opened EditValues
  import opened EditFinds
  import opened EditOutcome

  // ---------------------------------------------------------------- date keys in dictionaries

  /** Both unreadable or alike as to date keys, or one of them unreadable. */
  predicate SameDates(v: Option<Value>, w: Option<Value>) {
    v.Some? && w.Some? ==> (HasDateKey(v.value) <==> HasDateKey(w.value))
  }

  predicate FieldsDated(fields: map<Name, Value>) {
    exists k <- fields :: IsDate(k) || HasDateKey(fields[k])
  }

  /** Dictionaries with the same keys, alike entry by entry - also where a later entry
    * replaces an earlier one. */
  lemma {:induction false} DictDates(ps: Pairs, qs: Pairs)
    requires |ps| == |qs| && forall i :: 0 <= i < |ps| ==> ps[i].0 == qs[i].0 && SameDates(ps[i].1, qs[i].1)
    requires Dict(ps).Some? && Dict(qs).Some?
    ensures Dict(ps).value.Keys == Dict(qs).value.Keys
    ensures forall k <- Dict(ps).value :: HasDateKey(Dict(ps).value[k]) <==> HasDateKey(Dict(qs).value[k])
  {
    if ps != [] {
      forall i | 0 <= i < |ps[1..]|
        ensures ps[1..][i].0 == qs[1..][i].0 && SameDates(ps[1..][i].1, qs[1..][i].1)
      {
        assert ps[1..][i] == ps[i + 1] && qs[1..][i] == qs[i + 1];
      }
      DictDates(ps[1..], qs[1..]);
      assert SameDates(ps[0].1, qs[0].1);
    }
  }

  lemma {:induction false} AlikeFields(f: map<Name, Value>, g: map<Name, Value>)
    requires f.Keys == g.Keys && forall k <- f :: HasDateKey(f[k]) <==> HasDateKey(g[k])
    ensures FieldsDated(f) <==> FieldsDated(g)
  {
    if k :| k in f && (IsDate(k) || HasDateKey(f[k])) { assert k in g && (IsDate(k) || HasDateKey(g[k])); }
    if k :| k in g && (IsDate(k) || HasDateKey(g[k])) { assert k in f && (IsDate(k) || HasDateKey(f[k])); }
  }

  /** Another entry of the same name in place of one. */
  lemma {:induction false} EntryDates(es: seq<Entry>, k: nat, e: Entry)
    requires k < |es| && es[k].name == e.name && SameDates(ValueOf(es[k]), ValueOf(e))
    ensures SameDates(AsObject(FieldsOf(es)), AsObject(FieldsOf(es[k := e])))
  {
    var ps, v := PairsOf(es), ValueOf(e);
    FieldsAre(es);
    FieldsAre(es[k := e]);
    PairsUpdate(es, k, e, ps);
    PairsAt(es);
    OnePairDates(ps, k, v);
  }

  lemma {:induction false} OnePairDates(ps: Pairs, k: nat, v: Option<Value>)
    requires k < |ps| && SameDates(ps[k].1, v)
    ensures SameDates(AsObject(Dict(ps)), AsObject(Dict(ps[k := (ps[k].0, v)])))
  {
    var qs := ps[k := (ps[k].0, v)];
    if Dict(ps).Some? && Dict(qs).Some? {
      forall i | 0 <= i < |ps| ensures ps[i].0 == qs[i].0 && SameDates(ps[i].1, qs[i].1) {}
      DictDates(ps, qs);
      AlikeFields(Dict(ps).value, Dict(qs).value);
    }
  }

  lemma {:induction false} AtomsHaveNone(words: seq<Word>)
    ensures !HasDateKey(Array(Atoms(words)))
  {
    if words != [] {
      AtomsHaveNone(words[1..]);
      assert forall x <- Atoms(words[1..]) :: !HasDateKey(x);
    }
  }

  // ---------------------------------------------------------------- an item put in

  predicate AllCount(ls: seq<Line>) {
    forall l <- ls :: Counts(l)
  }

  /** A body that begins with an item is a list or cannot be read. */
  lemma {:induction false} ItemFirst(e: Entry)
    requires e.body != [] && e.body[0].content.Item? && e.inline.None?
    ensures ValueOf(e).Some? ==> AllItems(e.body, e.body[0].indent) && !HasDateKey(ValueOf(e).value)
  {
    if AllItems(e.body, e.body[0].indent) {
      AtomsHaveNone(Words(e.body));
    }
  }

  lemma {:induction false} ListHasNone(e: Entry)
    requires e.inline.None? && e.body != [] && AllItems(e.body, e.body[0].indent)
    ensures ValueOf(e).Some? && !HasDateKey(ValueOf(e).value)
  {
    AtomsHaveNone(Words(e.body));
  }

  lemma {:induction false} MappingIs(e: Entry)
    requires e.inline.None? && e.body != [] && !AllItems(e.body, e.body[0].indent)
    ensures ValueOf(e) == match Entries(e.body, e.body[0].indent) case None => None case Some(es) => AsObject(FieldsOf(es))
  {
  }

  lemma {:induction false} FrontCounts(a: seq<Line>, b: seq<Line>)
    requires AllCount(a + b)
    ensures AllCount(a) && AllCount(b)
  {
    forall l | l in a ensures Counts(l) { assert l in a + b; }
    forall l | l in b ensures Counts(l) { assert l in a + b; }
  }

  /** An item put anywhere into an entry's lines, at any depth, changes nothing about date
    * keys, if the lines can be read before and after. */
  lemma {:induction false} ItemKeepsDates(e: Entry, a: seq<Line>, x: Line, b: seq<Line>)
    requires x.content.Item? && AllCount(a + b)
    ensures SameDates(ValueOf(e.(body := a + b)), ValueOf(e.(body := a + ([x] + b))))
    decreases |a| + |b|, 1
  {
    var was, now := e.(body := a + b), e.(body := a + ([x] + b));
    if e.inline.None? && ValueOf(was).Some? && ValueOf(now).Some? {
      if a == [] {
        assert now.body[0] == x;
        ItemFirst(now);
        ItemsBehind(was, x, b);
      } else if a[0].content.Item? {
        assert was.body[0] == a[0] && now.body[0] == a[0];
        ItemFirst(was);
        ItemFirst(now);
      } else {
        ItemInMapping(e, a, x, b);
      }
    }
  }

  lemma {:induction false} ItemsBehind(was: Entry, x: Line, b: seq<Line>)
    requires was.inline.None? && was.body == [] + b && AllItems([] + ([x] + b), x.indent)
    ensures ValueOf(was).Some? && !HasDateKey(ValueOf(was).value)
  {
    assert [] + b == b;
    if b != [] {
      forall l | l in b ensures l.content.Item? && l.indent == x.indent { assert l in [] + ([x] + b); }
      ListHasNone(was);
    }
  }

  lemma {:induction false} ItemInMapping(e: Entry, a: seq<Line>, x: Line, b: seq<Line>)
    requires x.content.Item? && AllCount(a + b) && a != [] && !a[0].content.Item? && e.inline.None?
    requires ValueOf(e.(body := a + b)).Some? && ValueOf(e.(body := a + ([x] + b))).Some?
    ensures SameDates(ValueOf(e.(body := a + b)), ValueOf(e.(body := a + ([x] + b))))
    decreases |a| + |b|, 0
  {
    var was, now, c := e.(body := a + b), e.(body := a + ([x] + b)), a[0].indent;
    assert was.body[0] == a[0] && now.body[0] == a[0] && a[0] in was.body && a[0] in now.body;
    MappingIs(was);
    MappingIs(now);
    var es := Entries(a + b, c).value;
    BlockStarts(a + b, c);
    ReadConcat(a, b, c);
    ReadConcat(a, [x] + b, c);
    StartsEntry(a, c);
    InsertedUnder(a, x, b, c);
    FrontCounts(a, b);
    var ea, under := Read(a, c).entries, Read(b, c).lead;
    var k := |ea| - 1;
    LastBodyIsSmaller(a, b, c);
    LastBodyCounts(a, b, c);
    ItemKeepsDates(ea[k], ea[k].body, x, under);
    EntryDates(es, k, ea[k].(body := ea[k].body + ([x] + under)));
  }

  lemma {:induction false} TotalLast(es: seq<Entry>)
    requires es != []
    ensures 1 + |es[|es| - 1].body| <= Total(es)
  {
    if |es| > 1 {
      TotalLast(es[1..]);
    }
  }

  lemma {:induction false} LastBodyIsSmaller(a: seq<Line>, b: seq<Line>, c: nat)
    requires !Read(a, c).Bad? && Read(a, c).entries != [] && !Read(b, c).Bad?
    ensures var ea := Read(a, c).entries; |ea[|ea| - 1].body| + |Read(b, c).lead| < |a| + |b|
  {
    TotalLast(Read(a, c).entries);
    ReadSize(a, c);
    ReadSize(b, c);
  }

  lemma {:induction false} LastBodyCounts(a: seq<Line>, b: seq<Line>, c: nat)
    requires !Read(a, c).Bad? && Read(a, c).entries != [] && !Read(b, c).Bad?
    ensures var ea := Read(a, c).entries; AllCount(ea[|ea| - 1].body + Read(b, c).lead)
  {
    var ea := Read(a, c).entries;
    ReadBodies(a, c);
    ReadKinds(b, c);
    assert ea[|ea| - 1] in ea;
  }

  // ---------------------------------------------------------------- a line glued on

  lemma {:induction false} RestAlone(e: Entry)
    requires |e.body| == 1 && e.body[0].content.Rest?
    ensures ValueOf(e) == None
  {
    if e.inline.None? {
      assert e.body == [e.body[0]] && e.body[0] in e.body;
      ReadOne(e.body[0], e.body[0].indent);
    }
  }

  /** Nor does a last line that has swallowed something, at any depth. */
  lemma {:induction false} GlueKeepsDates(e: Entry, a: seq<Line>, l: Line, more: string)
    requires AllCount(a + [l])
    ensures SameDates(ValueOf(e.(body := a + [l])), ValueOf(e.(body := a + [Glue(l, more)])))
    decreases |a|, 1
  {
    var g := Glue(l, more);
    var was, now := e.(body := a + [l]), e.(body := a + [g]);
    if e.inline.None? && ValueOf(was).Some? && ValueOf(now).Some? {
      if a == [] {
        GluedAlone(was, now, l, g);
      } else if a[0].content.Item? {
        assert was.body[0] == a[0] && now.body[0] == a[0];
        ItemFirst(was);
        ItemFirst(now);
      } else {
        GlueInMapping(e, a, l, more);
      }
    }
  }

  lemma {:induction false} GluedAlone(was: Entry, now: Entry, l: Line, g: Line)
    requires was.body == [] + [l] && now.body == [] + [g] && was.inline.None? && now.inline.None?
    requires if l.content.Item? then g.content.Item? else g.content.Rest?
    ensures SameDates(ValueOf(was), ValueOf(now))
  {
    if l.content.Item? {
      ItemFirst(was);
      ItemFirst(now);
    } else {
      RestAlone(now);
    }
  }

  lemma {:induction false} GlueInMapping(e: Entry, a: seq<Line>, l: Line, more: string)
    requires AllCount(a + [l]) && a != [] && !a[0].content.Item? && e.inline.None?
    requires ValueOf(e.(body := a + [l])).Some? && ValueOf(e.(body := a + [Glue(l, more)])).Some?
    ensures SameDates(ValueOf(e.(body := a + [l])), ValueOf(e.(body := a + [Glue(l, more)])))
    decreases |a|, 0
  {
    var g, c := Glue(l, more), a[0].indent;
    var was, now := e.(body := a + [l]), e.(body := a + [g]);
    assert was.body[0] == a[0] && now.body[0] == a[0] && a[0] in was.body && a[0] in now.body;
    MappingIs(was);
    MappingIs(now);
    assert l in a + [l];
    BlockStarts(a + [l], c);
    ReadConcat(a, [l], c);
    ReadConcat(a, [g], c);
    ReadOne(l, c);
    ReadOne(g, c);
    StartsEntry(a, c);
    var ea := Read(a, c).entries;
    var k := |ea| - 1;
    ExtendedEither(ea, [l], [g], []);
    var es, gs := Extend(ea, [l]), Extend(ea, [g]);
    assert es + [] == es && gs + [] == gs;
    LastBodyIsSmaller(a, [l], c);
    LastBodyCounts(a, [l], c);
    GlueKeepsDates(ea[k], ea[k].body, l, more);
    EntryDates(es, k, ea[k].(body := ea[k].body + [g]));
  }

  // ---------------------------------------------------------------- a new list

  /** A list in front of the others has no date key, and what comes later replaces it. */
  lemma {:induction false} FrontDates(first: Entry, es: seq<Entry>)
    requires first.name == Enabled && ValueOf(first).Some? && !HasDateKey(ValueOf(first).value)
    ensures SameDates(AsObject(FieldsOf(es)), AsObject(FieldsOf([first] + es)))
  {
    assert ([first] + es)[1..] == es;
    if FieldsOf(es).Some? {
      var rest, all := FieldsOf(es).value, FieldsOf([first] + es).value;
      assert all == map[Enabled := ValueOf(first).value] + rest;
      assert forall k <- rest :: k in all && all[k] == rest[k];
      assert forall k <- all :: k in rest || k == Enabled;
    }
  }

  lemma {:induction false} NewListDates(p: seq<Line>, c: nat, es: seq<Entry>)
    requires p != [] && Counts(p[0]) && c == p[0].indent && c > 0 && Entries(p, c) == Some(es)
    ensures
      var grown := Entries(NewList() + p, 2);
      SameDates(AsObject(FieldsOf(es)), match grown case None => None case Some(gs) => AsObject(FieldsOf(gs)))
  {
    BlockStarts(p, c);
    NewListThen(p);
    var r := Read(p, 2);
    if !r.Bad? {
      var first := Entry(Enabled, None, [Line(4, Item(Control))] + r.lead);
      assert Entries(NewList() + p, 2) == Some([first] + r.entries);
      if c == 2 {
        assert r == Reading([], es);
        ItemFirst(first);
        NewEntryLists();
        FrontDates(first, es);
      } else {
        assert r.lead != [] && r.lead[0] == p[0] && first.body[1] == p[0];
        MixedIsUnreadable(first);
        assert ([first] + r.entries)[0] == first;
        assert FieldsOf([first] + r.entries) == None;
      }
    }
  }

  // ---------------------------------------------------------------- the whole file

  /** Two texts that differ inside the section only. */
  lemma {:induction false} SectionKeepsDates(before: seq<Line>, after: seq<Line>, edited: seq<Line>)
    requires !Read(after, 0).Bad? && !Read(edited, 0).Bad? && Read(edited, 0).entries == Read(after, 0).entries
    requires SameDates(ValueOf(PluginsEntry(after)), ValueOf(PluginsEntry(edited)))
    ensures SameDates(ValueOfLines(before + [PLUGINS_LINE] + after), ValueOfLines(before + [PLUGINS_LINE] + edited))
  {
    EntriesAround(before, after);
    EntriesAround(before, edited);
    if Entries(before + [PLUGINS_LINE] + after, 0).Some? {
      var es := Read(before, 0).entries + ([PluginsEntry(after)] + Read(after, 0).entries);
      var k := |Read(before, 0).entries|;
      assert es[k] == PluginsEntry(after);
      assert Read(before, 0).entries + ([PluginsEntry(edited)] + Read(edited, 0).entries) == es[k := PluginsEntry(edited)];
      EntryDates(es, k, PluginsEntry(edited));
    }
  }

  lemma {:induction false} NewListUnderKeepsDates(before: seq<Line>, after: seq<Line>, children: seq<Child>)
    requires Holds(after, children)
    ensures SameDates(
      ValueOfLines(before + [PLUGINS_LINE] + after), ValueOfLines(before + [PLUGINS_LINE] + (NewList() + after)))
  {
    var p, c := Read(after, 0).lead, FirstIndent(after);
    var was, now := PluginsEntry(after), PluginsEntry(NewList() + after);
    ReadLead(NewList(), 0);
    ReadBehind(NewList(), after);
    assert now.body == NewList() + p && now.body[0] == NewList()[0] && now.body[0] in now.body;
    BlockIsNoList(was);
    MappingIs(now);
    NewListDates(p, c, Entries(p, c).value);
    SectionKeepsDates(before, after, NewList() + after);
  }

  lemma {:induction false} LeadCounts(after: seq<Line>)
    requires !Read(after, 0).Bad?
    ensures AllCount(Read(after, 0).lead)
  {
    ReadKinds(after, 0);
  }

  lemma {:induction false} ItemUnderKeepsDates(before: seq<Line>, after: seq<Line>, n: nat)
    requires !Read(after, 0).Bad? && FindEnabled(after) == At(n)
    ensures
      var k := Stop(after, n);
      SameDates(
        ValueOfLines(before + [PLUGINS_LINE] + after),
        ValueOfLines(before + [PLUGINS_LINE] + (after[..k] + ([NewItem(after, n)] + after[k..]))))
  {
    var k, x := Stop(after, n), NewItem(after, n);
    ItemIndentAtLeast(after[n + 1..], after[n].indent);
    SectionParts(after, n);
    Layout(after, n, x);
    var top := Read(after[..n], 0).lead + ([after[n]] + Read(after[n + 1..k], 0).lead);
    var rest := Read(after[k..], 0).lead;
    LeadCounts(after);
    ItemKeepsDates(Entry(Plugins, None, []), top, x, rest);
    SectionKeepsDates(before, after, after[..k] + ([x] + after[k..]));
  }

  lemma {:induction false} GlueUnderKeepsDates(before: seq<Line>, after: seq<Line>, n: nat, more: string)
    requires !Read(after, 0).Bad? && FindEnabled(after) == At(n) && Stop(after, n) == |after|
    ensures SameDates(
      ValueOfLines(before + [PLUGINS_LINE] + after),
      ValueOfLines(before + [PLUGINS_LINE] + (after[..|after| - 1] + [Glue(after[|after| - 1], more)])))
  {
    var front, l := after[..|after| - 1], after[|after| - 1];
    var g := Glue(l, more);
    LastIsDeep(after, n);
    assert after == front + [l];
    ReadConcat(front, [l], 0);
    ReadConcat(front, [g], 0);
    ReadOne(l, 0);
    ReadOne(g, 0);
    SectionIsAll(after, n);
    LeadCounts(after);
    GlueKeepsDates(Entry(Plugins, None, []), Read(front, 0).lead, l, more);
    SectionKeepsDates(before, after, front + [g]);
  }

  lemma {:induction false} WithItemKeepsDates(before: seq<Line>, after: seq<Line>, n: nat, ending: Ending)
    requires !Read(after, 0).Bad? && FindEnabled(after) == At(n)
    ensures SameDates(
      ValueOfLines(before + [PLUGINS_LINE] + after), ValueOfLines(before + [PLUGINS_LINE] + WithItem(after, n, ending)))
  {
    WithItemIs(after, n, ending);
    if ending.Newline? || Stop(after, n) < |after| {
      ItemUnderKeepsDates(before, after, n);
    } else {
      GlueUnderKeepsDates(before, after, n, ending.pad + RawOf(NewItem(after, n)));
    }
  }

  lemma {:induction false} NewSectionKeepsDates(doc: Document, ms: seq<Section>, v: Value)
    requires Unlisted(doc, ms, v) && ShapeOfValue(v).NoPlugins?
    ensures SameDates(Some(v), ValueOfLines(WithSection(doc).lines))
  {
    var added := Object(map[Enabled := Array([CONTROL])]);
    ShapesAgree(doc.lines, ms, v);
    NewSectionAdds(doc, ms);
    ValueOfMeaning(doc.lines, ms);
    ValueOfMeaning(WithSection(doc).lines, AddPlugin(ms));
    SectionIsNew(ms, v.fields);
    assert !HasDateKey(added) by { assert !HasDateKey(Array([CONTROL])); }
    AddedFieldDates(v.fields, added);
  }

  lemma {:induction false} AddedFieldDates(fields: map<Name, Value>, added: Value)
    requires Plugins !in fields && !HasDateKey(added)
    ensures HasDateKey(Object(fields)) <==> HasDateKey(Object(fields[Plugins := added]))
  {
    var now := fields[Plugins := added];
    if k :| k in fields && (IsDate(k) || HasDateKey(fields[k])) { assert k in now && (IsDate(k) || HasDateKey(now[k])); }
    if k :| k in now && (IsDate(k) || HasDateKey(now[k])) { assert k in fields && (IsDate(k) || HasDateKey(fields[k])); }
  }

  /** Whatever becomes of the name: a text that can be read after the edit has date keys
    * exactly if it had some before. */
  lemma {:induction false} PlanKeepsDates(doc: Document, ms: seq<Section>, v: Value)
    requires Unlisted(doc, ms, v) && Plan(doc, ShapeOfValue(v)).Some?
    ensures SameDates(Some(v), ValueOfLines(Plan(doc, ShapeOfValue(v)).value.lines))
  {
    match ShapeOfValue(v) {
      case NoPlugins => NewSectionKeepsDates(doc, ms, v);
      case NotAMap =>
      case NoList =>
        var children := MapThere(doc.lines, ms, v);
        SectionAt(doc.lines, ms, children);
        OneMoreTaken(doc.lines, PluginsAt(doc.lines));
        NewListUnderKeepsDates(doc.lines[..PluginsAt(doc.lines)], Under(doc.lines), children);
        assert Plan(doc, NoList).value.lines == Around(doc, NewList() + Under(doc.lines));
      case AList =>
        var children := MapThere(doc.lines, ms, v);
        SectionAt(doc.lines, ms, children);
        GrownPlan(doc);
        WithItemKeepsDates(
          doc.lines[..PluginsAt(doc.lines)], Under(doc.lines), FindEnabled(Under(doc.lines)).n, doc.ending);
    }
  }

  // ---------------------------------------------------------------- nothing new raises

  predicate NothingRaises(ls: seq<Line>) {
    forall l <- ls :: !CannotConstruct(l)
  }

  /** Every line that raises was there before. */
  ghost predicate OnlyHarmless(was: seq<Line>, now: seq<Line>) {
    forall l <- now :: l in was || !CannotConstruct(l)
  }

  lemma {:induction false} NewLinesAreHarmless(d: nat)
    ensures NothingRaises([Line(d, Item(Control))]) && NothingRaises(NewList())
    ensures NothingRaises([Line(0, Blank), Line(0, Comment), PLUGINS_LINE])
  {
    assert |CONTROL_NAME| == 19;
  }

  lemma {:induction false} GlueIsHarmless(l: Line, more: string)
    requires l.content.Item? ==> |more| > 10
    ensures !CannotConstruct(Glue(l, more))
  {
  }

  lemma {:induction false} PutBehindIsHarmless(front: seq<Line>, more: seq<Line>, rest: seq<Line>, ending: Ending)
    requires front != [] && more != [] && NothingRaises(more)
    requires front[|front| - 1].content.Item? ==> more[0].content.Item?
    ensures OnlyHarmless(front + rest, PutBehind(front, more, rest, ending))
  {
    var last := front[|front| - 1];
    assert front == front[..|front| - 1] + [last];
    if rest == [] && ending.Open? {
      if last.content.Item? { RawIsLong(more[0]); }
      GlueIsHarmless(last, ending.pad + RawOf(more[0]));
      assert forall l <- more[1..] :: l in more;
    }
  }

  lemma {:induction false} HarmlessUnder(head: seq<Line>, was: seq<Line>, now: seq<Line>)
    requires OnlyHarmless(was, now)
    ensures OnlyHarmless(head + was, head + now)
  {
  }

  lemma {:induction false} WithItemIsHarmless(ls: seq<Line>, n: nat, ending: Ending)
    requires FindEnabled(ls) == At(n)
    ensures OnlyHarmless(ls, WithItem(ls, n, ending))
  {
    var k, item := Stop(ls, n), NewItem(ls, n);
    NewLinesAreHarmless(item.indent);
    Cut(ls, k);
    PutBehindIsHarmless(ls[..k], [item], ls[k..], ending);
  }

  lemma {:induction false} PlanIsHarmless(doc: Document, shape: Shape)
    requires Plan(doc, shape).Some?
    ensures OnlyHarmless(doc.lines, Plan(doc, shape).value.lines)
  {
    var n, under := PluginsAt(doc.lines), Under(doc.lines);
    NewLinesAreHarmless(0);
    match shape {
      case NoPlugins =>
        assert WithSection(doc).lines == doc.lines + ([Line(0, Blank), Line(0, Comment), PLUGINS_LINE] + NewList());
      case NotAMap =>
      case NoList =>
        Cut(doc.lines, n + 1);
        PutBehindIsHarmless(doc.lines[..n + 1], NewList(), under, doc.ending);
      case AList =>
        Cut(doc.lines, n + 1);
        WithItemIsHarmless(under, FindEnabled(under).n, doc.ending);
        HarmlessUnder(doc.lines[..n + 1], under, WithItem(under, FindEnabled(under).n, doc.ending));
    }
  }

  /** Loading the edited text of a file that could be loaded: nothing is raised; the name
    * is there and the rest is as it was exactly for the files of `WillAdd`, and otherwise
    * the name is not there; and either way the one has date keys if the other has. */
  lemma {:induction false} LoadedAgain(doc: Document, v: Value)
    requires Once(doc.lines) && LoadLines(doc.lines) == Loaded(v) && !NamesControl(v)
    requires v.Object? && Plan(doc, ShapeOfValue(v)).Some?
    ensures
      match LoadLines(Plan(doc, ShapeOfValue(v)).value.lines)
      case Raises => false
      case NotYaml => !WillAdd(doc, v)
      case Loaded(now) =>
        && (HasDateKey(now) <==> HasDateKey(v))
        && (NamesControl(now) <==> WillAdd(doc, v))
        && (WillAdd(doc, v) ==> Trimmed(now) == v)
  {
    AcceptedIff(doc, v);
    PlanKeepsDates(doc, Meaning(doc.lines).value, v);
    PlanIsHarmless(doc, ShapeOfValue(v));
    NoNewRaise(doc.lines, Plan(doc, ShapeOfValue(v)).value.lines);
  }

  lemma {:induction false} NoNewRaise(was: seq<Line>, now: seq<Line>)
    requires OnlyHarmless(was, now)
    ensures (exists l <- now :: CannotConstruct(l)) ==> (exists l <- was :: CannotConstruct(l))
  {
    if l :| l in now && CannotConstruct(l) { assert l in was; }
  }
}
