/** The text an edit makes, character by character, and where in the file it puts what. */
module EditedText {
  import opened Options
  import opened YamlLines
  import opened ConfigEdit
  import opened EditTheorems
  import opened YamlText

  /** Line `p` is the first `plugins:` line, with nothing behind the colon. */
  ghost predicate SectionAt(lines: seq<Line>, p: nat) {
    && p < |lines| && lines[p] == Line(0, Key(Plugins, None))
    && forall i :: 0 <= i < p ==> lines[i] != Line(0, Key(Plugins, None))
  }

  /** A line that may lie between a key and what is looked for under it: empty, a comment, or
    * indented. */
  ghost predicate Passed(l: Line) {
    l.content.Blank? || l.content.Comment? || (l.indent > 0 && !(l.content.Key? && l.content.name == Enabled))
  }

  /** Line `e` is the first `enabled:` line below line `p` and before the next one that is not
    * indented, and nothing is behind its colon. */
  ghost predicate ListAt(ls: seq<Line>, e: nat) {
    && e < |ls| && ls[e].indent > 0 && ls[e].content == Key(Enabled, None)
    && forall i :: 0 <= i < e ==> Passed(ls[i])
  }

  /** An item below a key indented by `indent`, at least as far. */
  ghost predicate ItemOf(l: Line, indent: nat) {
    l.content.Item? && l.indent >= indent
  }

  /** Something else that is under the key, or does not count. */
  ghost predicate OtherUnder(l: Line, indent: nat) {
    l.content.Blank? || l.content.Comment? || (!l.content.Item? && l.indent > indent)
  }

  /** The first `n` lines end in the last item under the key, if there is one: between them and
    * the end of what is under it, at `stop`, there is no other. */
  ghost predicate ItemsEnd(ls: seq<Line>, indent: nat, n: nat, stop: nat) {
    && n <= stop <= |ls|
    && (n > 0 ==> ItemOf(ls[n - 1], indent))
    && (forall i :: 0 <= i < n ==> ItemOf(ls[i], indent) || OtherUnder(ls[i], indent))
    && (forall i :: n <= i < stop ==> OtherUnder(ls[i], indent))
    && (stop < |ls| ==> !ItemOf(ls[stop], indent) && !OtherUnder(ls[stop], indent))
  }

  lemma {:induction false} ItemsEndThere(ls: seq<Line>, indent: nat) returns (stop: nat)
    ensures ItemsEnd(ls, indent, ItemsLength(ls, indent), stop)
  {
    if ls == [] || (!ItemOf(ls[0], indent) && !OtherUnder(ls[0], indent)) {
      stop := 0;
    } else {
      var rest := ItemsEndThere(ls[1..], indent);
      stop := rest + 1;
      ItemsEndNext(ls, indent, ItemsLength(ls[1..], indent), rest);
    }
  }

  lemma {:induction false} ItemsEndNext(ls: seq<Line>, indent: nat, n: nat, stop: nat)
    requires ls != [] && (ItemOf(ls[0], indent) || OtherUnder(ls[0], indent)) && ItemsEnd(ls[1..], indent, n, stop)
    ensures n > 0 || ItemOf(ls[0], indent) ==> ItemsEnd(ls, indent, n + 1, stop + 1)
    ensures n == 0 && !ItemOf(ls[0], indent) ==> ItemsEnd(ls, indent, 0, stop + 1)
  {
    forall i | 1 <= i < |ls| ensures ls[i] == ls[1..][i - 1] {
    }
  }

  lemma {:induction false} ListFound(ls: seq<Line>, e: nat)
    ensures FindEnabled(ls) == At(e) <==> ListAt(ls, e)
  {
    if ls != [] && Passed(ls[0]) {
      if e > 0 {
        ListFound(ls[1..], e - 1);
        assert ListAt(ls, e) <==> ListAt(ls[1..], e - 1) by { Shifted(ls, e); }
      }
    }
  }

  lemma {:induction false} Shifted(ls: seq<Line>, e: nat)
    requires ls != [] && e > 0 && Passed(ls[0])
    ensures ListAt(ls, e) <==> ListAt(ls[1..], e - 1)
  {
    if ListAt(ls[1..], e - 1) {
      forall i | 0 <= i < e ensures Passed(ls[i]) {
        if i > 0 { assert ls[1..][i - 1] == ls[i]; }
      }
    }
    if ListAt(ls, e) {
      forall i | 0 <= i < e - 1 ensures Passed(ls[1..][i]) { assert ls[1..][i] == ls[i + 1]; }
    }
  }

  lemma {:induction false} ItemsEndOnce(ls: seq<Line>, indent: nat, n: nat, stop: nat)
    requires ItemsEnd(ls, indent, n, stop)
    ensures ItemsLength(ls, indent) == n
  {
    if stop > 0 {
      var l := ls[0];
      assert ItemOf(l, indent) || OtherUnder(l, indent);
      ItemsEndBefore(ls, indent, n, stop);
      ItemsEndOnce(ls[1..], indent, if n > 0 then n - 1 else 0, stop - 1);
    }
  }

  lemma {:induction false} ItemsEndBefore(ls: seq<Line>, indent: nat, n: nat, stop: nat)
    requires ItemsEnd(ls, indent, n, stop) && stop > 0
    ensures ItemsEnd(ls[1..], indent, if n > 0 then n - 1 else 0, stop - 1)
  {
    forall i | 0 <= i < |ls[1..]| ensures ls[1..][i] == ls[i + 1] {
    }
  }

  lemma {:induction false} SectionFound(lines: seq<Line>, p: nat)
    ensures SectionAt(lines, p) <==> PluginsAt(lines) == p < |lines|
  {
  }

  // ---------------------------------------------------------------- the texts

  function Blanks(n: nat): string {
    seq(n, _ => ' ')
  }

  lemma {:induction false} SpacesAreBlanks(n: nat)
    ensures Spaces(n) == Blanks(n)
  {
    if n > 0 {
      SpacesAreBlanks(n - 1);
      assert " " + Blanks(n - 1) == Blanks(n);
    }
  }

  /** The two lines of a new list, and the line of an item. */
  function ListText(): string {
    "  enabled:\n" + ItemText(4)
  }

  function ItemText(indent: nat): string {
    Blanks(indent) + "- hermes-auto-control\n"
  }

  lemma {:induction false} RawsAre(indent: nat)
    ensures Concat(Raws([Line(indent, Item(Control))])) == ItemText(indent)
    ensures Concat(Raws(NewList())) == ListText()
  {
    ItemRawIs(indent);
    ItemRawIs(4);
    SpacesAreBlanks(2);
    var list := NewList();
    assert list[1..] == [Line(4, Item(Control))];
    assert Raws(list) == [RawOf(list[0]) + "\n"] + Raws(list[1..]);
    assert Blanks(2) == "  ";
    assert RawOf(list[0]) + "\n" == "  enabled:\n";
  }

  lemma {:induction false} ItemRawIs(indent: nat)
    ensures Concat(Raws([Line(indent, Item(Control))])) == ItemText(indent)
  {
    var item := Line(indent, Item(Control));
    SpacesAreBlanks(indent);
    assert [item][1..] == [] && Raws([item]) == [RawOf(item) + "\n"] + Raws([]);
    assert Concat([RawOf(item) + "\n"]) == RawOf(item) + "\n" + Concat([]);
    assert "- " + CONTROL_NAME + "\n" == "- hermes-auto-control\n";
    assert RawOf(item) + "\n" == Blanks(indent) + ("- " + CONTROL_NAME + "\n");
  }

  /** A file that has no such section gets one at its end, behind an empty line and a comment. */
  lemma {:induction false} SectionPut(text: string)
    ensures PlanText(text, NoPlugins) == Some(
      (if text == "" || text[|text| - 1] == '\n' then text else text + "\n")
      + "\n" + ("# Added by " + ("`hermes-auto setup` " + "(hermes-auto-router).")) + "\nplugins:\n" + ListText())
  {
    RawsAre(4);
    CommentIs();
  }

  lemma {:induction false} CommentIs()
    ensures ADDED_COMMENT == "# Added by " + ("`hermes-auto setup` " + "(hermes-auto-router).")
  {
    WhoAdded();
    FromWhere();
    Regroup("`hermes-auto ", "setup` ", "(hermes-auto-router).");
  }

  lemma {:induction false} WhoAdded()
    ensures "`hermes-auto " + "setup` " == "`hermes-auto setup` "
  {
  }

  lemma {:induction false} FromWhere()
    ensures "(hermes-auto-" + "router)." == "(hermes-auto-router)."
  {
  }

  /** One that has it as a mapping without a list gets a list right under its line. */
  lemma {:induction false} ListPut(text: string, p: nat)
    requires SectionAt(LinesOf(Split(text)), p)
    ensures PlanText(text, NoList) == Some(Concat(Split(text)[..p + 1]) + ListText() + Concat(Split(text)[p + 1..]))
  {
    SectionFound(LinesOf(Split(text)), p);
    RawsAre(4);
  }

  /** One that has the list gets the item behind the last item that is there and as far to the
    * right, or right under the list's line and two further. */
  lemma {:induction false} ItemPut(
    text: string, pieces: seq<string>, lines: seq<Line>, under: seq<Line>, p: nat, e: nat, n: nat, stop: nat)
    returns (at: nat, indent: nat)
    requires pieces == Split(text) && lines == LinesOf(pieces)
    requires SectionAt(lines, p) && under == lines[p + 1..]
    requires ListAt(under, e) && ItemsEnd(under[e + 1..], under[e].indent, n, stop)
    ensures at == p + 1 + (e + 1 + n) <= |lines|
    ensures indent == if n == 0 then lines[at - 1].indent + 2 else lines[at - 1].indent
    ensures PlanText(text, AList) == Some(Concat(pieces[..at]) + ItemText(indent) + Concat(pieces[at..]))
  {
    at, indent := PlaceOfListIs(lines, under, p, e, n, stop);
    ItemInserted(text, pieces, lines, at, indent);
  }

  lemma {:induction false} ItemInserted(text: string, pieces: seq<string>, lines: seq<Line>, at: nat, indent: nat)
    requires pieces == Split(text) && lines == LinesOf(pieces) && at <= |lines|
    requires PlaceWithin(lines, AList) == Place(at, [Line(indent, Item(Control))])
    ensures PlanText(text, AList) == Some(Concat(pieces[..at]) + ItemText(indent) + Concat(pieces[at..]))
  {
    ItemRawIs(indent);
    InsertedIs(text, pieces, lines, AList, at, [Line(indent, Item(Control))]);
  }

  lemma {:induction false} InsertedIs(
    text: string, pieces: seq<string>, lines: seq<Line>, shape: Shape, at: nat, more: seq<Line>)
    requires pieces == Split(text) && lines == LinesOf(pieces) && !shape.NoPlugins?
    requires PlaceWithin(lines, shape) == Place(at, more)
    ensures PlanText(text, shape) == Some(Concat(pieces[..at]) + Concat(Raws(more)) + Concat(pieces[at..]))
  {
  }

  lemma {:induction false} PlaceOfListIs(lines: seq<Line>, under: seq<Line>, p: nat, e: nat, n: nat, stop: nat)
    returns (at: nat, indent: nat)
    requires SectionAt(lines, p) && under == lines[p + 1..]
    requires ListAt(under, e) && ItemsEnd(under[e + 1..], under[e].indent, n, stop)
    ensures at == p + 1 + (e + 1 + n) <= |lines|
    ensures indent == if n == 0 then lines[at - 1].indent + 2 else lines[at - 1].indent
    ensures PlaceWithin(lines, AList) == Place(at, [Line(indent, Item(Control))])
  {
    SectionFound(lines, p);
    at := p + 1 + (e + 1 + n);
    indent := PlaceOfItemIs(p + 1, under, e, n, stop);
    assert lines[at - 1] == under[e + n];
  }

  lemma {:induction false} PlaceOfItemIs(start: nat, under: seq<Line>, e: nat, n: nat, stop: nat) returns (indent: nat)
    requires ListAt(under, e) && ItemsEnd(under[e + 1..], under[e].indent, n, stop)
    ensures e + n < |under|
    ensures indent == if n == 0 then under[e + n].indent + 2 else under[e + n].indent
    ensures PlaceForItem(start, under) == Place(start + (e + 1 + n), [Line(indent, Item(Control))])
  {
    ListFound(under, e);
    ItemsEndOnce(under[e + 1..], under[e].indent, n, stop);
    assert n > 0 ==> under[e + n] == under[e + 1..][n - 1];
    indent := if n == 0 then under[e + n].indent + 2 else under[e + n].indent;
  }

  ghost predicate ListBelow(lines: seq<Line>, p: nat, e: nat) {
    SectionAt(lines, p) && ListAt(lines[p + 1..], e)
  }

  /** Nothing is put in if the section is not a mapping, if its line cannot be found, or if
    * there should be a list and its line cannot be. */
  lemma {:induction false} NothingPut(text: string, lines: seq<Line>)
    requires lines == LinesOf(Split(text))
    ensures PlanText(text, NotAMap) == None
    ensures PlanText(text, NoList) == None <==> forall p :: !SectionAt(lines, p)
    ensures PlanText(text, AList) == None <==> forall p, e :: !ListBelow(lines, p, e)
  {
    SectionSomewhere(lines);
    ListSomewhere(lines);
  }

  lemma {:induction false} SectionSomewhere(lines: seq<Line>)
    ensures PluginsAt(lines) == |lines| <==> forall p :: !SectionAt(lines, p)
  {
    var p := PluginsAt(lines);
    if p < |lines| { SectionFound(lines, p); }
    forall q: nat ensures SectionAt(lines, q) <==> q == p < |lines| { SectionFound(lines, q); }
  }

  lemma {:induction false} ListThere(lines: seq<Line>, p: nat, e: nat)
    requires ListBelow(lines, p, e)
    ensures PlaceWithin(lines, AList).Place?
  {
    SectionFound(lines, p);
    ListFound(lines[p + 1..], e);
  }

  lemma {:induction false} ListSomewhere(lines: seq<Line>)
    ensures PlaceWithin(lines, AList) == Nowhere <==> forall p, e :: !ListBelow(lines, p, e)
  {
    if PlaceWithin(lines, AList).Place? {
      var p := PluginsAt(lines);
      var found := FindEnabled(lines[p + 1..]);
      SectionFound(lines, p);
      ListFound(lines[p + 1..], found.n);
      assert ListBelow(lines, p, found.n);
    } else if p, e :| ListBelow(lines, p, e) {
      ListThere(lines, p, e);
    }
  }
}
