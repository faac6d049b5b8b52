/** Adding the plugin to `plugins.enabled` by inserting lines, and when that adds it. */
module ConfigEdit {
  import opened Options
  import opened YamlLines

  const PLUGINS_LINE := Line(0, Key(Plugins, None))

  // ---------------------------------------------------------------- the scans

  /** The first `plugins:` line, or the number of lines. */
  function PluginsAt(lines: seq<Line>): (n: nat)
    ensures n <= |lines|
    ensures n < |lines| ==> lines[n] == PLUGINS_LINE
    ensures forall i :: 0 <= i < n ==> lines[i] != PLUGINS_LINE
  {
    if lines == [] || lines[0] == PLUGINS_LINE then 0 else 1 + PluginsAt(lines[1..])
  }

  datatype Found = Absent | Inlined | At(n: nat)

  /** The first `enabled:` line before the next unindented one, however deep. */
  function FindEnabled(ls: seq<Line>): (r: Found)
    ensures r.At? ==> r.n < |ls| && ls[r.n].content == Key(Enabled, None) && ls[r.n].indent > 0
  {
    if ls == [] then Absent
    else if Counts(ls[0]) && ls[0].indent == 0 then Absent
    else if ls[0].content.Key? && ls[0].content.name == Enabled then
      if ls[0].content.inline.Some? then Inlined else At(0)
    else
      match FindEnabled(ls[1..])
      case At(n) => At(n + 1)
      case other => other
  }

  /** How many lines to pass over to stand behind the last item under an `enabled:`
    * indented by `indent`. */
  function ItemsLength(ls: seq<Line>, indent: nat): (n: nat)
    ensures n <= |ls|
    ensures n > 0 ==> ls[n - 1].content.Item? && InBody(ls[n - 1], indent)
  {
    if ls == [] || (Counts(ls[0]) && !InBody(ls[0], indent)) then 0
    else
      var n := ItemsLength(ls[1..], indent);
      if n > 0 || ls[0].content.Item? then n + 1 else 0
  }

  function ItemIndent(ls: seq<Line>, indent: nat): nat {
    var n := ItemsLength(ls, indent);
    if n == 0 then indent + 2 else ls[n - 1].indent
  }

  // ---------------------------------------------------------------- the plan

  function Spaces(n: nat): string {
    if n == 0 then "" else " " + Spaces(n - 1)
  }

  /** The text of a line this module puts in. */
  function RawOf(l: Line): string {
    Spaces(l.indent) + if l.content.Item? then "- " + CONTROL_NAME else "enabled:"
  }

  /** The last line of a file without a newline at its end swallows the text that is
    * put behind it. */
  function Glue(l: Line, more: string): Line {
    Line(l.indent, if l.content.Item? then Item(WordOf(TextOf(l.content.word) + more)) else Rest)
  }

  /** `more` between `front` and the rest of the file. */
  function PutBehind(front: seq<Line>, more: seq<Line>, rest: seq<Line>, ending: Ending): seq<Line>
    requires front != [] && more != []
  {
    if rest == [] && ending.Open? then
      front[..|front| - 1] + ([Glue(front[|front| - 1], ending.pad + RawOf(more[0]))] + more[1..])
    else front + (more + rest)
  }

  /** What puts lines in at the end, ends the file in a newline. */
  function EndingThen(ending: Ending, atEnd: bool): Ending {
    if atEnd then Newline else ending
  }

  predicate IsList(e: Entry) {
    (e.inline.Some? && e.inline.value.FlowList? && e.body == []) || (e.inline == None && e.body != [] && e.body[0].content.Item?)
  }

  predicate ListsSome(children: seq<Child>) {
    exists i :: 0 <= i < |children|
      && (children[i].EnabledList? || (children[i].entry.name == Enabled && IsList(children[i].entry)))
  }

  predicate NamesPlugins(s: Section) {
    s.PluginsMap? || s.entry.name == Plugins
  }

  /** `"plugins" in document`, and whether it holds a mapping, and a list in it. */
  predicate HasPlugins(ms: seq<Section>) {
    exists s <- ms :: NamesPlugins(s)
  }

  predicate HasMap(ms: seq<Section>) {
    exists s <- ms :: s.PluginsMap?
  }

  predicate HasList(ms: seq<Section>) {
    exists s <- ms :: s.PluginsMap? && ListsSome(s.children)
  }

  /** Where the scan for items stops, below an `enabled:` line at `n`. */
  function Stop(ls: seq<Line>, n: nat): (k: nat)
    requires n < |ls|
    ensures n < k <= |ls|
  {
    n + 1 + ItemsLength(ls[n + 1..], ls[n].indent)
  }

  /** The name put behind the items under the `enabled:` line at `n`. */
  function WithItem(ls: seq<Line>, n: nat, ending: Ending): seq<Line>
    requires n < |ls|
  {
    var item := Line(ItemIndent(ls[n + 1..], ls[n].indent), Item(Control));
    PutBehind(ls[..Stop(ls, n)], [item], ls[Stop(ls, n)..], ending)
  }

  function WithSection(doc: Document): Document {
    Document(doc.lines + [Line(0, Blank), Line(0, Comment), PLUGINS_LINE] + NewList(), Newline)
  }

  /** What is under the first `plugins:` line. */
  function Under(lines: seq<Line>): seq<Line> {
    if PluginsAt(lines) < |lines| then lines[PluginsAt(lines) + 1..] else []
  }

  /** What the parsed document says about `plugins`. */
  datatype Shape = NoPlugins | NotAMap | NoList | AList

  function ShapeOf(ms: seq<Section>): Shape {
    if !HasPlugins(ms) then NoPlugins
    else if !HasMap(ms) then NotAMap
    else if !HasList(ms) then NoList
    else AList
  }

  /** The edit, or nothing where the file has a shape it leaves alone. */
  function Plan(doc: Document, shape: Shape): Option<Document> {
    var n, after := PluginsAt(doc.lines), Under(doc.lines);
    if shape.NoPlugins? then Some(WithSection(doc))
    else if shape.NotAMap? || n == |doc.lines| then None
    else if shape.NoList? then
      Some(Document(PutBehind(doc.lines[..n + 1], NewList(), after, doc.ending), EndingThen(doc.ending, after == [])))
    else Grown(doc.lines[..n + 1], after, doc.ending)
  }

  /** The edit of a list that is there, under the lines `head`. */
  function Grown(head: seq<Line>, after: seq<Line>, ending: Ending): Option<Document> {
    match FindEnabled(after)
    case At(k) => Some(Document(head + WithItem(after, k, ending), EndingThen(ending, Stop(after, k) == |after|)))
    case _ => None
  }

  function NewList(): seq<Line> {
    [Line(2, Key(Enabled, None)), Line(4, Item(Control))]
  }

  method ScanForPlugins(lines: seq<Line>) returns (n: nat)
    ensures n == PluginsAt(lines)
  {
    n := 0;
    while n < |lines|
      invariant n <= |lines| && PluginsAt(lines) == n + PluginsAt(lines[n..])
    {
      assert lines[n..][0] == lines[n] && lines[n..][1..] == lines[n + 1..];
      if lines[n] == PLUGINS_LINE { return; }
      n := n + 1;
    }
  }

  function Shift(r: Found, start: nat): Found {
    match r case At(n) => At(n + start) case other => other
  }

  method ScanForEnabled(ls: seq<Line>) returns (r: Found)
    ensures r == FindEnabled(ls)
  {
    for i := 0 to |ls|
      invariant FindEnabled(ls) == Shift(FindEnabled(ls[i..]), i)
    {
      var l := ls[i];
      assert ls[i..][0] == l && ls[i..][1..] == ls[i + 1..];
      if !Counts(l) { continue; }
      if l.indent == 0 { return Absent; }
      if l.content.Key? && l.content.name == Enabled {
        return if l.content.inline.Some? then Inlined else At(i);
      }
    }
    r := Absent;
  }

  /** Where a scan that has come to line `i`, with the last item just before `at`, will
    * end. */
  function EndsAt(lines: seq<Line>, i: nat, at: nat, indent: nat): nat
    requires i <= |lines|
  {
    var n := ItemsLength(lines[i..], indent);
    if n == 0 then at else i + n
  }

  lemma EndsAtNext(lines: seq<Line>, i: nat, at: nat, indent: nat)
    requires i < |lines|
    ensures EndsAt(lines, i, at, indent) ==
      var l := lines[i];
      if Counts(l) && !InBody(l, indent) then at
      else EndsAt(lines, i + 1, if l.content.Item? then i + 1 else at, indent)
  {
    assert lines[i..][0] == lines[i] && lines[i..][1..] == lines[i + 1..];
  }

  method ScanForItems(lines: seq<Line>, start: nat, indent: nat) returns (at: nat, itemIndent: nat)
    requires start <= |lines|
    ensures at == start + ItemsLength(lines[start..], indent)
    ensures itemIndent == ItemIndent(lines[start..], indent)
  {
    ghost var end := EndsAt(lines, start, start, indent);
    at, itemIndent := start, indent + 2;
    for i := start to |lines|
      invariant start <= at <= i
      invariant itemIndent == IndentAt(lines, start, at, indent)
      invariant EndsAt(lines, i, at, indent) == end
    {
      var l := lines[i];
      EndsAtNext(lines, i, at, indent);
      if !Counts(l) { continue; }
      if l.content.Item? && l.indent == indent {
        at, itemIndent := i + 1, indent;
        continue;
      }
      if l.indent <= indent { break; }
      if l.content.Item? {
        at, itemIndent := i + 1, l.indent;
      }
    }
    IndentIs(lines, start, indent);
  }

  /** The indentation of the item just before `at`, or else that of a first one. */
  function IndentAt(lines: seq<Line>, start: nat, at: nat, indent: nat): nat
    requires start <= at <= |lines|
  {
    if at == start then indent + 2 else lines[at - 1].indent
  }

  lemma IndentIs(lines: seq<Line>, start: nat, indent: nat)
    requires start <= |lines|
    ensures ItemIndent(lines[start..], indent) ==
      IndentAt(lines, start, start + ItemsLength(lines[start..], indent), indent)
  {
  }
}
