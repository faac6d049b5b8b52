/** The structure of a block-style configuration file, read line by line: mappings and
  * lists of one-line scalars. */
module YamlLines {
  import opened Options

  datatype Name = Plugins | Enabled | Other(text: string)

  datatype Inline = FlowList(words: seq<Word>) | Single(text: string)

  /** A list item: this project's plugin, or any other word. */
  datatype Word = Control | Plain(text: string)

  const CONTROL_NAME := "hermes-auto-control"

  function TextOf(w: Word): string {
    if w.Control? then CONTROL_NAME else w.text
  }

  function WordOf(text: string): Word {
    if text == CONTROL_NAME then Control else Plain(text)
  }

  datatype Content =
    | Blank
    | Comment
    | Key(name: Name, inline: Option<Inline>)
    | Item(word: Word)
    | Rest

  datatype Line = Line(indent: nat, content: Content)

  /** Whether the last line ends in a newline or stands open, perhaps behind blanks. */
  datatype Ending = Newline | Open(pad: string)

  datatype Document = Document(lines: seq<Line>, ending: Ending)

  predicate Counts(l: Line) {
    !l.content.Blank? && !l.content.Comment?
  }

  // ---------------------------------------------------------------- what a document means

  /** Belongs to the entry above it, in a mapping indented by `c`. */
  predicate InBody(l: Line, c: nat) {
    l.indent > c || (l.indent == c && l.content.Item?)
  }

  predicate Starts(l: Line, c: nat) {
    l.indent == c && l.content.Key?
  }

  datatype Entry = Entry(name: Name, inline: Option<Inline>, body: seq<Line>)

  /** Lines read as a mapping indented by `c`: what is under an entry further up, and
    * then whole entries. */
  datatype Reading = Bad | Reading(lead: seq<Line>, entries: seq<Entry>)

  function OneMore(l: Line, c: nat, after: Reading): Reading {
    match after
    case Bad => Bad
    case Reading(lead, entries) =>
      if !Counts(l) then after
      else if InBody(l, c) then Reading([l] + lead, entries)
      else if Starts(l, c) then Reading([], [Entry(l.content.name, l.content.inline, lead)] + entries)
      else Bad
  }

  function Read(ls: seq<Line>, c: nat): Reading {
    if ls == [] then Reading([], []) else OneMore(ls[0], c, Read(ls[1..], c))
  }

  /** A mapping indented by `c`. */
  function Entries(ls: seq<Line>, c: nat): Option<seq<Entry>> {
    match Read(ls, c)
    case Bad => None
    case Reading(lead, entries) => if lead == [] then Some(entries) else None
  }

  predicate Unique(es: seq<Entry>, name: Name) {
    forall i, j :: 0 <= i < j < |es| ==> es[i].name != name || es[j].name != name
  }

  predicate AllItems(ls: seq<Line>, d: nat) {
    forall l <- ls :: l.content.Item? && l.indent == d
  }

  function Words(ls: seq<Line>): seq<Word>
    requires forall l <- ls :: l.content.Item?
  {
    if ls == [] then [] else [ls[0].content.word] + Words(ls[1..])
  }

  datatype Child = EnabledList(words: seq<Word>) | OtherChild(entry: Entry)

  predicate Flat(e: Entry) {
    e.name == Enabled && e.inline == None && e.body != [] && AllItems(e.body, e.body[0].indent)
  }

  function ChildOf(e: Entry): Child {
    if Flat(e) then EnabledList(Words(e.body)) else OtherChild(e)
  }

  function ChildrenOf(es: seq<Entry>): seq<Child> {
    if es == [] then [] else [ChildOf(es[0])] + ChildrenOf(es[1..])
  }

  datatype Section = PluginsMap(children: seq<Child>) | OtherSection(entry: Entry)

  /** The block mapping under a key, if that is what is there. */
  function Block(e: Entry): Option<seq<Entry>> {
    if e.inline == None && e.body != [] then Entries(e.body, e.body[0].indent) else None
  }

  predicate IsPluginsMap(e: Entry) {
    e.name == Plugins && Block(e).Some? && Unique(Block(e).value, Enabled)
  }

  function SectionOf(e: Entry): Section {
    if IsPluginsMap(e) then PluginsMap(ChildrenOf(Block(e).value)) else OtherSection(e)
  }

  function SectionsOf(es: seq<Entry>): seq<Section> {
    if es == [] then [] else [SectionOf(es[0])] + SectionsOf(es[1..])
  }

  /** The parsed document: its entries in order, `plugins` looked into and the rest
    * left as it stands. */
  function Meaning(lines: seq<Line>): Option<seq<Section>> {
    match Entries(lines, 0)
    case None => None
    case Some(es) => if Unique(es, Plugins) then Some(SectionsOf(es)) else None
  }

  predicate Lists(children: seq<Child>) {
    exists i :: 0 <= i < |children| && children[i].EnabledList?
  }

  /** `enabled` with one name more; a new `enabled` if there is no list. */
  function AddName(children: seq<Child>): seq<Child> {
    if Lists(children) then AddToList(children) else [EnabledList([Control])] + children
  }

  function AddToList(children: seq<Child>): seq<Child> {
    if children == [] then []
    else if children[0].EnabledList? then [EnabledList(children[0].words + [Control])] + children[1..]
    else [children[0]] + AddToList(children[1..])
  }

  /** The document with the plugin's name added. */
  function AddPlugin(doc: seq<Section>): seq<Section> {
    if doc == [] then [PluginsMap([EnabledList([Control])])]
    else if doc[0].PluginsMap? then [PluginsMap(AddName(doc[0].children))] + doc[1..]
    else [doc[0]] + AddPlugin(doc[1..])
  }

  // ---------------------------------------------------------------- mappings, cut and joined

  /** Entries whose last one has more lines under it. */
  function Extend(es: seq<Entry>, more: seq<Line>): (r: seq<Entry>)
    requires es != []
    ensures |r| == |es|
  {
    if |es| == 1 then [es[0].(body := es[0].body + more)] else [es[0]] + Extend(es[1..], more)
  }

  function Join(a: Reading, b: Reading): Reading {
    if a.Bad? || b.Bad? then Bad
    else if a.entries == [] then Reading(a.lead + b.lead, b.entries)
    else Reading(a.lead, Extend(a.entries, b.lead) + b.entries)
  }

  lemma OneMoreJoin(l: Line, c: nat, a: Reading, b: Reading)
    ensures OneMore(l, c, Join(a, b)) == Join(OneMore(l, c, a), b)
  {
    if !a.Bad? && !b.Bad? && Counts(l) {
      if InBody(l, c) {
        assert [l] + (a.lead + b.lead) == [l] + a.lead + b.lead;
      } else if Starts(l, c) {
        var first := Entry(l.content.name, l.content.inline, a.lead);
        if a.entries == [] {
          assert Extend([first], b.lead) == [first.(body := a.lead + b.lead)];
        } else {
          assert ([first] + a.entries)[1..] == a.entries;
          assert [first] + (Extend(a.entries, b.lead) + b.entries) == [first] + Extend(a.entries, b.lead) + b.entries;
        }
      }
    }
  }

  /** Reading a text in two parts: what leads the second part goes under the last
    * entry of the first. */
  lemma {:induction false} ReadConcat(a: seq<Line>, b: seq<Line>, c: nat)
    ensures Read(a + b, c) == Join(Read(a, c), Read(b, c))
  {
    if a == [] {
      assert a + b == b;
    } else {
      assert (a + b)[1..] == a[1..] + b;
      ReadConcat(a[1..], b, c);
      OneMoreJoin(a[0], c, Read(a[1..], c), Read(b, c));
    }
  }

  lemma {:induction false} ExtendByNothing(es: seq<Entry>)
    requires es != []
    ensures Extend(es, []) == es
  {
    if |es| > 1 {
      ExtendByNothing(es[1..]);
    } else {
      assert es[0].body + [] == es[0].body;
    }
  }

  lemma {:induction false} ExtendAt(es: seq<Entry>, more: seq<Line>, i: nat)
    requires i < |es|
    ensures Extend(es, more)[i] == if i < |es| - 1 then es[i] else es[i].(body := es[i].body + more)
  {
    if |es| > 1 && i > 0 {
      ExtendAt(es[1..], more, i - 1);
    }
  }

  /** Lines that only continue what is above them. */
  lemma {:induction false} ReadLead(ls: seq<Line>, c: nat)
    requires forall l <- ls :: Counts(l) && InBody(l, c)
    ensures Read(ls, c) == Reading(ls, [])
  {
    if ls != [] {
      assert ls == [ls[0]] + ls[1..];
      assert ls[0] in ls;
      ReadLead(ls[1..], c);
    }
  }

  lemma {:induction false} ReadKinds(ls: seq<Line>, c: nat)
    requires !Read(ls, c).Bad?
    ensures forall l <- Read(ls, c).lead :: Counts(l) && InBody(l, c) && l in ls
    ensures forall e <- Read(ls, c).entries :: Line(c, Key(e.name, e.inline)) in ls
  {
    if ls != [] {
      ReadKinds(ls[1..], c);
      assert ls[0] in ls;
    }
  }

  lemma ReadOne(l: Line, c: nat)
    requires Counts(l)
    ensures Read([l], c) ==
      if InBody(l, c) then Reading([l], [])
      else if Starts(l, c) then Reading([], [Entry(l.content.name, l.content.inline, [])])
      else Bad
  {
    assert [l][1..] == [];
    assert [l] + [] == [l];
    assert Read([], c) == Reading([], []);
  }

  // ---------------------------------------------------------------- the views, entry by entry

  lemma {:induction false} ChildrenAt(es: seq<Entry>)
    ensures |ChildrenOf(es)| == |es| && forall i :: 0 <= i < |es| ==> ChildrenOf(es)[i] == ChildOf(es[i])
  {
    if es != [] {
      ChildrenAt(es[1..]);
    }
  }

  lemma {:induction false} SectionsAt(es: seq<Entry>)
    ensures |SectionsOf(es)| == |es| && forall i :: 0 <= i < |es| ==> SectionsOf(es)[i] == SectionOf(es[i])
  {
    if es != [] {
      SectionsAt(es[1..]);
    }
  }

  lemma {:induction false} WordsAt(ls: seq<Line>)
    requires forall l <- ls :: l.content.Item?
    ensures |Words(ls)| == |ls| && forall i :: 0 <= i < |ls| ==> Words(ls)[i] == ls[i].content.word
  {
    if ls != [] {
      WordsAt(ls[1..]);
    }
  }

  /** With one list among the children, that list is the one that grows. */
  lemma {:induction false} AddToListAt(children: seq<Child>, j: nat)
    requires j < |children| && children[j].EnabledList?
    requires forall i :: 0 <= i < j ==> !children[i].EnabledList?
    ensures AddToList(children) == children[j := EnabledList(children[j].words + [Control])]
  {
    if j > 0 {
      AddToListAt(children[1..], j - 1);
    }
  }

  lemma {:induction false} AddPluginAt(doc: seq<Section>, j: nat)
    requires j < |doc| && doc[j].PluginsMap?
    requires forall i :: 0 <= i < j ==> !doc[i].PluginsMap?
    ensures AddPlugin(doc) == doc[j := PluginsMap(AddName(doc[j].children))]
  {
    if j > 0 {
      AddPluginAt(doc[1..], j - 1);
    }
  }

  lemma {:induction false} AddPluginNew(doc: seq<Section>)
    requires forall s <- doc :: !s.PluginsMap?
    ensures AddPlugin(doc) == doc + [PluginsMap([EnabledList([Control])])]
  {
    if doc != [] {
      assert doc[0] in doc;
      AddPluginNew(doc[1..]);
    }
  }
}
