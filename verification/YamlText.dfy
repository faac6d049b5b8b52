/** Text as lines, the lines the scanner tells apart, and the edit as text surgery. */
module YamlText {
  import opened Options
  import opened YamlLines
  import opened ConfigEdit
  import opened EditTheorems
  import opened Documents

  // ---------------------------------------------------------------- lines with their ends

  /** The length of the first line, its newline included. */
  function LineLength(text: string): (n: nat)
    requires text != ""
    ensures 0 < n <= |text|
  {
    if text[0] == '\n' || |text| == 1 then 1 else 1 + LineLength(text[1..])
  }

  /** `splitlines(keepends=True)`, of text whose only line ends are newlines. */
  function Split(text: string): seq<string> {
    if text == "" then [] else [text[..LineLength(text)]] + Split(text[LineLength(text)..])
  }

  function Concat(pieces: seq<string>): string {
    if pieces == [] then "" else pieces[0] + Concat(pieces[1..])
  }

  predicate Ended(piece: string) {
    piece != "" && piece[|piece| - 1] == '\n'
  }

  /** A line with its newline, or without one. */
  predicate IsPiece(piece: string) {
    piece != "" && '\n' !in piece[..|piece| - 1]
  }

  predicate AllEnded(pieces: seq<string>) {
    forall p <- pieces :: IsPiece(p) && Ended(p)
  }

  /** Lines as a text has them: all but the last end in a newline. */
  predicate WellSplit(pieces: seq<string>) {
    pieces == [] || (AllEnded(pieces[..|pieces| - 1]) && IsPiece(pieces[|pieces| - 1]))
  }

  lemma {:induction false} FirstLine(text: string)
    requires text != ""
    ensures IsPiece(text[..LineLength(text)])
    ensures LineLength(text) < |text| ==> Ended(text[..LineLength(text)])
  {
    if text[0] != '\n' && |text| > 1 {
      var n := LineLength(text);
      FirstLine(text[1..]);
      var rest := text[1..][..n - 1];
      assert text[..n] == [text[0]] + rest;
      assert text[..n][..n - 1] == [text[0]] + rest[..n - 2];
    }
  }

  lemma {:induction false} FirstLineIs(piece: string, rest: string)
    requires IsPiece(piece) && (Ended(piece) || rest == "")
    ensures LineLength(piece + rest) == |piece|
  {
    var text := piece + rest;
    assert text[0] == piece[0];
    if |piece| > 1 {
      assert piece[0] in piece[..|piece| - 1];
      assert text[1..] == piece[1..] + rest;
      assert piece[1..][..|piece| - 2] == piece[..|piece| - 1][1..];
      FirstLineIs(piece[1..], rest);
    }
  }

  lemma {:induction false} SplitIsWell(text: string)
    ensures WellSplit(Split(text)) && Concat(Split(text)) == text
    decreases |text|
  {
    if text != "" {
      var n := LineLength(text);
      FirstLine(text);
      SplitIsWell(text[n..]);
      CutText(text, n);
      WellSplitCons(text[..n], Split(text[n..]));
    }
  }

  lemma {:induction false} CutText(text: string, n: nat)
    requires n <= |text|
    ensures text == text[..n] + text[n..]
  {
  }

  lemma {:induction false} WellSplitCons(piece: string, rest: seq<string>)
    requires WellSplit(rest) && IsPiece(piece) && (Ended(piece) || rest == [])
    ensures WellSplit([piece] + rest)
  {
    var pieces := [piece] + rest;
    if rest != [] {
      assert pieces[..|pieces| - 1] == [piece] + rest[..|rest| - 1];
    }
  }

  lemma {:induction false} SplitConcat(pieces: seq<string>)
    requires WellSplit(pieces)
    ensures Split(Concat(pieces)) == pieces
  {
    if pieces != [] {
      var rest := pieces[1..];
      WellSplitTail(pieces);
      SplitConcat(rest);
      var text := pieces[0] + Concat(rest);
      FirstLineIs(pieces[0], Concat(rest));
      assert text[..|pieces[0]|] == pieces[0] && text[|pieces[0]|..] == Concat(rest);
      assert pieces == [pieces[0]] + rest;
    }
  }

  lemma {:induction false} WellSplitTail(pieces: seq<string>)
    requires WellSplit(pieces) && pieces != []
    ensures WellSplit(pieces[1..]) && IsPiece(pieces[0]) && (Ended(pieces[0]) || pieces[1..] == [])
  {
    if |pieces| > 1 {
      assert pieces[0] == pieces[..|pieces| - 1][0];
      assert pieces[1..][..|pieces| - 2] == pieces[..|pieces| - 1][1..];
    }
  }

  lemma {:induction false} ConcatJoin(a: seq<string>, b: seq<string>)
    ensures Concat(a + b) == Concat(a) + Concat(b)
  {
    if a == [] {
      assert a + b == b;
    } else {
      assert (a + b)[1..] == a[1..] + b;
      ConcatJoin(a[1..], b);
    }
  }

  // ---------------------------------------------------------------- one line

  function Indent(raw: string): nat {
    if raw != "" && raw[0] == ' ' then 1 + Indent(raw[1..]) else 0
  }

  function TrimStart(s: string): string {
    if s != "" && s[0] == ' ' then TrimStart(s[1..]) else s
  }

  function TrimEnd(s: string): string {
    if s != "" && s[|s| - 1] == ' ' then TrimEnd(s[..|s| - 1]) else s
  }

  function Body(raw: string): string {
    TrimEnd(TrimStart(raw))
  }

  /** The blanks a line ends in. */
  function Pad(raw: string): string {
    if raw != "" && raw[|raw| - 1] == ' ' then " " + Pad(raw[..|raw| - 1]) else ""
  }

  predicate Printable(s: string) {
    forall c <- s :: ' ' <= c <= '~'
  }

  predicate Letter(c: char) {
    'a' <= c <= 'z' || 'A' <= c <= 'Z'
  }

  /** No colon that could end a key, no sign that could begin a comment. */
  predicate NoMarks(s: string) {
    forall i :: 0 <= i < |s| ==> !MarkAt(s, i)
  }

  predicate MarkAt(s: string, i: nat)
    requires i < |s|
  {
    || (s[i] == ':' && (i + 1 == |s| || s[i + 1] == ' '))
    || (s[i] == '#' && (i == 0 || s[i - 1] == ' '))
  }

  /** A plain scalar of the subset. Those that begin with a digit are left out if they
    * might be a point in time, or a number that cannot be constructed. */
  predicate PlainWord(w: string) {
    && w != "" && (Letter(w[0]) || Digit(w[0])) && w[|w| - 1] != ' ' && NoMarks(w)
    && (Digit(w[0]) ==> ':' !in w && (DateShaped(w) || ' ' in w || (|w| <= 64 && '_' !in w)))
  }

  /** Words that are not strings when they stand for a key. */
  const NOT_STRINGS := {
    "yes", "Yes", "YES", "no", "No", "NO", "true", "True", "TRUE", "false", "False", "FALSE",
    "on", "On", "ON", "off", "Off", "OFF", "null", "Null", "NULL"
  }

  predicate KeyText(k: string) {
    PlainWord(k) && |k| <= 1000 && ':' !in k && (Letter(k[0]) || DateShaped(k)) && k !in NOT_STRINGS
  }

  function NameOf(k: string): Name {
    if k == "plugins" then Plugins else if k == "enabled" then Enabled else Other(k)
  }

  /** Where the key ends: the first colon with a blank or nothing behind it. */
  function Colon(s: string): (r: Option<nat>)
    ensures r.Some? ==> r.value < |s|
  {
    if s == "" then None
    else if s[0] == ':' && (|s| == 1 || s[1] == ' ') then Some(0)
    else match Colon(s[1..]) case None => None case Some(n) => Some(n + 1)
  }

  predicate FlowWord(w: string) {
    PlainWord(w) && forall c <- w :: c !in {',', '?', '[', ']', '{', '}', ':'}
  }

  function Comma(s: string): (n: nat)
    ensures n <= |s|
  {
    if s == "" || s[0] == ',' then 0 else 1 + Comma(s[1..])
  }

  function FlowWords(s: string): Option<seq<Word>>
    decreases |s|
  {
    var n := Comma(s);
    var w := Body(s[..n]);
    if !FlowWord(w) then None
    else if n == |s| then Some([WordOf(w)])
    else match FlowWords(s[n + 1..]) case None => None case Some(words) => Some([WordOf(w)] + words)
  }

  /** A list in brackets. */
  function FlowOf(s: string): Option<seq<Word>> {
    if |s| < 2 || s[0] != '[' || s[|s| - 1] != ']' then None
    else if Body(s[1..|s| - 1]) == "" then Some([])
    else FlowWords(s[1..|s| - 1])
  }

  function KeyKind(key: string, value: string): Content {
    if !KeyText(key) then Rest
    else if value == "" then Key(NameOf(key), None)
    else match FlowOf(value)
      case Some(words) => Key(NameOf(key), Some(FlowList(words)))
      case None => if PlainWord(value) then Key(NameOf(key), Some(Single(value))) else Rest
  }

  function Kind(body: string): Content {
    if body == "" then Blank
    else if body[0] == '#' then Comment
    else if "- " <= body then
      var w := TrimStart(body[2..]);
      if PlainWord(w) then Item(WordOf(w)) else Rest
    else match Colon(body)
      case None => Rest
      case Some(n) => KeyKind(body[..n], TrimStart(body[n + 1..]))
  }

  /** A line without its newline. What is not of the subset is `Rest`. */
  function Lex(raw: string): Line {
    Line(Indent(raw), if Printable(raw) then Kind(Body(raw)) else Rest)
  }

  function Chomp(piece: string): string {
    if Ended(piece) then piece[..|piece| - 1] else piece
  }

  function LinesOf(pieces: seq<string>): (lines: seq<Line>)
    ensures |lines| == |pieces|
  {
    if pieces == [] then [] else [Lex(Chomp(pieces[0]))] + LinesOf(pieces[1..])
  }

  function EndingOf(pieces: seq<string>): Ending {
    if pieces == [] || Ended(pieces[|pieces| - 1]) then Newline else Open(Pad(pieces[|pieces| - 1]))
  }

  function DocumentOf(pieces: seq<string>): Document {
    Document(LinesOf(pieces), EndingOf(pieces))
  }

  function DocOf(text: string): Document {
    DocumentOf(Split(text))
  }

  /** `yaml.safe_load` on the subset. */
  function LoadText(text: string): Parsed {
    LoadLines(DocOf(text).lines)
  }

  // ---------------------------------------------------------------- blanks around

  lemma {:induction false} SpacesIs(n: nat)
    ensures |Spaces(n)| == n && forall c <- Spaces(n) :: c == ' '
  {
    if n > 0 { SpacesIs(n - 1); }
  }

  lemma {:induction false} IndentedBy(d: nat, x: string)
    requires x != "" && x[0] != ' '
    ensures Indent(Spaces(d) + x) == d && TrimStart(Spaces(d) + x) == x
  {
    if d == 0 {
      assert "" + x == x;
    } else {
      assert Spaces(d) + x == " " + (Spaces(d - 1) + x);
      assert (Spaces(d) + x)[1..] == Spaces(d - 1) + x;
      IndentedBy(d - 1, x);
    }
  }

  /** Blanks, something, and more behind it. */
  lemma {:induction false} TrimStartOf(s: string, more: string)
    requires TrimStart(s) != ""
    ensures TrimStart(s + more) == TrimStart(s) + more && Indent(s + more) == Indent(s)
  {
    if s[0] == ' ' {
      assert (s + more)[1..] == s[1..] + more;
      TrimStartOf(s[1..], more);
    }
  }

  lemma {:induction false} TrimEndSplits(s: string)
    ensures s == TrimEnd(s) + Pad(s)
    ensures TrimEnd(s) != "" ==> TrimEnd(s)[|TrimEnd(s)| - 1] != ' '
  {
    if s != "" && s[|s| - 1] == ' ' {
      var rest := s[..|s| - 1];
      TrimEndSplits(rest);
      PadIsBlank(rest);
      assert s == rest + " ";
      assert Pad(rest) + " " == " " + Pad(rest) by { BlankCommutes(Pad(rest)); }
    }
  }

  lemma {:induction false} PadIsBlank(s: string)
    ensures forall c <- Pad(s) :: c == ' '
  {
    if s != "" && s[|s| - 1] == ' ' { PadIsBlank(s[..|s| - 1]); }
  }

  lemma {:induction false} BlankCommutes(p: string)
    requires forall c <- p :: c == ' '
    ensures p + " " == " " + p
  {
    forall i | 0 <= i <= |p| ensures (p + " ")[i] == (" " + p)[i] {
      if i < |p| { assert p[i] in p; }
      if i > 0 { assert p[i - 1] in p; }
    }
  }

  lemma {:induction false} TrimStartFirst(s: string)
    ensures TrimStart(s) != "" ==> TrimStart(s)[0] != ' '
    ensures |TrimStart(s)| <= |s|
  {
    if s != "" && s[0] == ' ' { TrimStartFirst(s[1..]); }
  }

  lemma {:induction false} PadOfTail(s: string, t: string)
    requires t != "" && t[0] != ' '
    ensures Pad(s + t) == Pad(t)
    decreases |t|
  {
    var whole := s + t;
    assert whole[|whole| - 1] == t[|t| - 1];
    if t[|t| - 1] == ' ' {
      assert whole[..|whole| - 1] == s + t[..|t| - 1];
      PadOfTail(s, t[..|t| - 1]);
    }
  }

  /** What a line is once more is put behind it that begins with blanks and ends in
    * something else. */
  lemma {:induction false} BodyExtended(raw: string, more: string)
    requires Body(raw) != "" && more != "" && more[|more| - 1] != ' '
    ensures Body(raw + more) == Body(raw) + (Pad(raw) + more) && Indent(raw + more) == Indent(raw)
  {
    var t := TrimStart(raw);
    TrimStartOf(raw, more);
    TrimStartSplits(raw);
    TrimStartFirst(raw);
    PadOfTail(Spaces(Indent(raw)), t);
    TrimEndExtended(t, more);
  }

  lemma {:induction false} TrimEndExtended(t: string, more: string)
    requires more != "" && more[|more| - 1] != ' '
    ensures TrimEnd(t + more) == TrimEnd(t) + (Pad(t) + more)
  {
    TrimEndSplits(t);
    Regroup(TrimEnd(t), Pad(t), more);
    NothingToTrim(t, more);
  }

  lemma {:induction false} NothingToTrim(t: string, more: string)
    requires more != "" && more[|more| - 1] != ' '
    ensures TrimEnd(t + more) == t + more
  {
    assert (t + more)[|t + more| - 1] == more[|more| - 1];
  }

  lemma {:induction false} Regroup<T>(a: seq<T>, b: seq<T>, c: seq<T>)
    ensures a + (b + c) == a + b + c
  {
  }

  lemma {:induction false} TailOfJoin<T>(a: seq<T>, b: seq<T>)
    requires a != []
    ensures (a + b)[0] == a[0] && (a + b)[1..] == a[1..] + b
  {
  }

  lemma {:induction false} TrimStartSplits(s: string)
    ensures s == Spaces(Indent(s)) + TrimStart(s)
  {
    if s != "" && s[0] == ' ' {
      TrimStartSplits(s[1..]);
      assert s == " " + s[1..];
    } else {
      assert Spaces(0) + s == s;
    }
  }

  lemma {:induction false} PrintableJoin(a: string, b: string)
    requires Printable(a) && Printable(b)
    ensures Printable(a + b)
  {
  }

  // ---------------------------------------------------------------- the lines that are put in

  lemma {:induction false} PlainName()
    ensures PlainWord(CONTROL_NAME) && Printable(CONTROL_NAME)
    ensures CONTROL_NAME[0] == 'h' && CONTROL_NAME[|CONTROL_NAME| - 1] == 'l'
  {
    assert ':' !in CONTROL_NAME && '#' !in CONTROL_NAME;
    forall i | 0 <= i < |CONTROL_NAME| ensures CONTROL_NAME[i] != ':' && CONTROL_NAME[i] != '#' {
      assert CONTROL_NAME[i] in CONTROL_NAME;
    }
  }

  lemma {:induction false} LexItem(d: nat)
    ensures Lex(RawOf(Line(d, Item(Control)))) == Line(d, Item(Control))
  {
    var body := "- " + CONTROL_NAME;
    PlainName();
    IndentedBy(d, body);
    SpacesIs(d);
    PrintableJoin("- ", CONTROL_NAME);
    PrintableJoin(Spaces(d), body);
    assert body[|body| - 1] == 'l';
    assert body[2..] == CONTROL_NAME;
    assert TrimStart(CONTROL_NAME) == CONTROL_NAME;
  }

  lemma {:induction false} ColonAt(key: string, tail: string)
    requires ':' !in key && (tail == "" || tail[0] == ' ')
    ensures Colon(key + ":" + tail) == Some(|key|)
  {
    var s := key + ":" + tail;
    if key != "" {
      assert s[0] == key[0] && key[0] in key;
      assert s[1..] == key[1..] + ":" + tail;
      ColonAt(key[1..], tail);
    }
  }

  lemma {:induction false} SimpleKey(key: string)
    requires key == "plugins" || key == "enabled"
    ensures KeyText(key) && Printable(key)
  {
    assert ':' !in key && '#' !in key;
    Unmarked(key);
  }

  lemma {:induction false} Unmarked(w: string)
    requires ':' !in w && '#' !in w
    ensures NoMarks(w)
  {
    forall i | 0 <= i < |w| ensures !MarkAt(w, i) {
      assert w[i] in w;
    }
  }

  /** A key with nothing behind it. */
  lemma {:induction false} LexKey(d: nat, key: string)
    requires KeyText(key) && Printable(key)
    ensures Lex(Spaces(d) + (key + ":")) == Line(d, Key(NameOf(key), None))
  {
    var body := key + ":";
    IndentedBy(d, body);
    SpacesIs(d);
    PrintableJoin(key, ":");
    PrintableJoin(Spaces(d), body);
    ColonAt(key, "");
    assert body + "" == body;
    assert body[|body| - 1] == ':' && body[0] == key[0];
    assert body[..|key|] == key && body[|key| + 1..] == "";
  }

  /** A key and its value. */
  lemma {:induction false} LexKeyed(d: nat, key: string, value: string)
    requires KeyText(key) && Printable(key) && PlainWord(value) && Printable(value)
    ensures Lex(Spaces(d) + (key + (": " + value))) == Line(d, Key(NameOf(key), Some(Single(value))))
  {
    var body := key + (": " + value);
    IndentedBy(d, body);
    SpacesIs(d);
    PrintableJoin(": ", value);
    PrintableJoin(key, ": " + value);
    PrintableJoin(Spaces(d), body);
    assert body[|body| - 1] == value[|value| - 1] && body[0] == key[0];
    KindOfKeyed(key, value);
  }

  lemma {:induction false} KindOfKeyed(key: string, value: string)
    requires KeyText(key) && PlainWord(value)
    ensures Kind(key + (": " + value)) == Key(NameOf(key), Some(Single(value)))
  {
    var body, tail := key + (": " + value), " " + value;
    ColonAt(key, tail);
    assert body == key + ":" + tail && body[0] == key[0];
    assert body[..|key|] == key && body[|key| + 1..] == tail && tail[1..] == value;
    assert TrimStart(tail) == TrimStart(value) == value;
  }

  const ADDED_COMMENT := "# Added by " + ("`hermes-auto " + ("setup` " + ("(hermes-auto-" + "router).")))

  lemma {:induction false} LexComment()
    ensures Lex(ADDED_COMMENT) == Line(0, Comment)
  {
    assert ADDED_COMMENT[0] == '#' && ADDED_COMMENT[|ADDED_COMMENT| - 1] == '.';
    PrintableJoin("(hermes-auto-", "router).");
    PrintableJoin("setup` ", "(hermes-auto-" + "router).");
    PrintableJoin("`hermes-auto ", "setup` " + ("(hermes-auto-" + "router)."));
    PrintableJoin("# Added by ", "`hermes-auto " + ("setup` " + ("(hermes-auto-" + "router).")));
  }

  // ---------------------------------------------------------------- a line with more behind it

  lemma {:induction false} RawOfItem(d: nat)
    ensures var raw := RawOf(Line(d, Item(Control)));
      && raw != "" && raw[|raw| - 1] == 'l' && ' ' in raw && Printable(raw)
      && ':' !in raw && '#' !in raw && (d > 0 ==> raw[0] == ' ')
  {
    var raw := RawOf(Line(d, Item(Control)));
    PlainName();
    SpacesIs(d);
    PrintableJoin("- ", CONTROL_NAME);
    PrintableJoin(Spaces(d), "- " + CONTROL_NAME);
    assert ':' !in CONTROL_NAME && '#' !in CONTROL_NAME;
    assert raw[d + 1] == ' ';
  }

  lemma {:induction false} PlainExtended(w: string, tail: string)
    requires PlainWord(w) && tail != "" && tail[|tail| - 1] != ' ' && ' ' in tail && ':' !in tail && '#' !in tail
    ensures PlainWord(w + tail)
  {
    var s := w + tail;
    forall i | 0 <= i < |s| ensures !MarkAt(s, i) {
      if i >= |w| { assert s[i] == tail[i - |w|] && tail[i - |w|] in tail; } else { assert !MarkAt(w, i); }
    }
    assert s[|s| - 1] == tail[|tail| - 1] && s[0] == w[0];
  }

  /** An item swallows the item put behind it. */
  lemma {:induction false} LexGluedItem(raw: string, d: nat)
    requires Lex(raw).content.Item?
    ensures var more := RawOf(Line(d, Item(Control)));
      Lex(raw + more) == Glue(Lex(raw), Pad(raw) + more)
  {
    var more := RawOf(Line(d, Item(Control)));
    RawOfItem(d);
    PadIsBlank(raw);
    BodyExtended(raw, more);
    PrintableJoin(raw, more);
    GluedItemKind(Body(raw), Pad(raw) + more);
  }

  lemma {:induction false} GluedItemKind(b: string, tail: string)
    requires Kind(b).Item?
    requires tail != "" && tail[|tail| - 1] != ' ' && ' ' in tail && ':' !in tail && '#' !in tail
    ensures Kind(b + tail) == Item(WordOf(TextOf(Kind(b).word) + tail))
  {
    var w := TrimStart(b[2..]);
    TrimStartOf(b[2..], tail);
    assert (b + tail)[2..] == b[2..] + tail && (b + tail)[0] == '-';
    PlainExtended(w, tail);
  }

  lemma {:induction false} ColonExtended(s: string, tail: string)
    requires Colon(s).Some? && (tail == "" || tail[0] == ' ')
    ensures Colon(s + tail) == Colon(s)
  {
    if !(s[0] == ':' && (|s| == 1 || s[1] == ' ')) {
      assert (s + tail)[0] == s[0] && (s + tail)[1..] == s[1..] + tail;
      if |s| > 1 { assert (s + tail)[1] == s[1]; }
      ColonExtended(s[1..], tail);
    }
  }

  lemma {:induction false} BlanksBefore(p: string, x: string)
    requires (forall c <- p :: c == ' ') && x != "" && x[0] != ' '
    ensures TrimStart(p + x) == x
  {
    if p == "" {
      assert "" + x == x;
    } else {
      assert p[0] in p && (p + x)[1..] == p[1..] + x;
      assert forall c <- p[1..] :: c in p;
      BlanksBefore(p[1..], x);
    }
  }

  lemma {:induction false} NothingButBlanks(s: string)
    requires TrimStart(s) == "" && s != ""
    ensures s[|s| - 1] == ' '
  {
    if |s| > 1 { NothingButBlanks(s[1..]); }
  }

  /** Such text is no value of a key. */
  predicate NoValue(x: string) {
    x != "" && x[0] != ' ' && x[|x| - 1] != ' ' && x[0] != '[' && !PlainWord(x) && Printable(x)
  }

  /** A key swallows it too, and is none any more. */
  lemma {:induction false} LexGluedKey(raw: string, d: nat, x: string)
    requires Lex(raw).content.Key? && Lex(raw).content.inline == None && d > 0 && NoValue(x)
    ensures Lex(raw + (Spaces(d) + x)) == Line(Indent(raw), Rest)
  {
    var more := Spaces(d) + x;
    var b, tail := Body(raw), Pad(raw) + more;
    SpacesIs(d);
    PadIsBlank(raw);
    assert more[|more| - 1] == x[|x| - 1];
    BodyExtended(raw, more);
    PrintableJoin(Spaces(d), x);
    PrintableJoin(raw, more);
    assert tail[0] == ' ' by {
      if Pad(raw) != "" { assert tail[0] == Pad(raw)[0] && Pad(raw)[0] in Pad(raw); } else { assert more[0] in Spaces(d); }
    }
    TrimEndSplits(TrimStart(raw));
    GluedKind(b, Pad(raw) + Spaces(d), x);
    Regroup(Pad(raw), Spaces(d), x);
  }

  lemma {:induction false} GluedKind(b: string, blanks: string, x: string)
    requires Kind(b).Key? && Kind(b).inline == None && b[|b| - 1] != ' '
    requires blanks != "" && (forall c <- blanks :: c == ' ') && NoValue(x)
    ensures Kind(b + (blanks + x)) == Rest
  {
    var n, tail := Colon(b).value, blanks + x;
    assert blanks[0] in blanks && tail[0] == ' ';
    ColonExtended(b, tail);
    if b[n + 1..] != "" { NothingButBlanks(b[n + 1..]); }
    assert b[n + 1..] == "";
    assert (b + tail)[..n] == b[..n] && (b + tail)[n + 1..] == tail;
    BlanksBefore(blanks, x);
    assert (b + tail)[0] == b[0] == b[..n][0];
  }

  // ---------------------------------------------------------------- the edit

  /** The lines that are put in, with their newlines. */
  function Raws(ls: seq<Line>): seq<string> {
    if ls == [] then [] else [RawOf(ls[0]) + "\n"] + Raws(ls[1..])
  }

  function Inserted(pieces: seq<string>, at: nat, more: seq<Line>): string
    requires at <= |pieces|
  {
    Concat(pieces[..at]) + Concat(Raws(more)) + Concat(pieces[at..])
  }

  function NewSectionText(text: string): string {
    (if text == "" || Ended(text) then text else text + "\n")
    + "\n" + ADDED_COMMENT + "\nplugins:\n" + Concat(Raws(NewList()))
  }

  /** Lines, and in front of which line they are put. */
  datatype Place = Nowhere | Place(at: nat, more: seq<Line>)

  /** `_plan_edit`. */
  function PlanText(text: string, shape: Shape): Option<string> {
    if shape.NoPlugins? then Some(NewSectionText(text))
    else
      match PlaceWithin(LinesOf(Split(text)), shape)
      case Nowhere => None
      case Place(at, more) => Some(Inserted(Split(text), at, more))
  }

  /** What is put in within the section, and where. */
  function PlaceWithin(lines: seq<Line>, shape: Shape): (r: Place)
    ensures r.Place? ==> 0 < r.at <= |lines| && r.more != []
  {
    if shape.NotAMap? then Nowhere else PlaceAfter(lines, PluginsAt(lines), shape)
  }

  /** The same, behind a `plugins:` line at `n` if there is one. */
  function PlaceAfter(lines: seq<Line>, n: nat, shape: Shape): (r: Place)
    requires n <= |lines|
    ensures r.Place? ==> 0 < r.at <= |lines| && r.more != []
  {
    if n == |lines| then Nowhere
    else if shape.NoList? then Place(n + 1, NewList())
    else PlaceForItem(n + 1, lines[n + 1..])
  }

  function PlaceForItem(start: nat, under: seq<Line>): (r: Place)
    ensures r.Place? ==> start < r.at <= start + |under| && r.more != []
  {
    match FindEnabled(under)
    case At(k) => Place(start + Stop(under, k), [NewItem(under, k)])
    case _ => Nowhere
  }

  /** The edit as the code makes it: the lines, the scans, and the text put together. */
  method EditText(text: string, shape: Shape) returns (r: Option<string>)
    ensures r == PlanText(text, shape)
  {
    if shape.NoPlugins? { return Some(NewSectionText(text)); }
    var pieces := Split(text);
    var place := ScanWithin(LinesOf(pieces), shape);
    match place {
      case Nowhere => return None;
      case Place(at, more) => return Some(Inserted(pieces, at, more));
    }
  }

  method ScanWithin(lines: seq<Line>, shape: Shape) returns (r: Place)
    requires !shape.NoPlugins?
    ensures r == PlaceWithin(lines, shape)
  {
    if shape.NotAMap? { return Nowhere; }
    var pluginsIndex := ScanForPlugins(lines);
    r := ScanAfter(lines, pluginsIndex, shape);
  }

  method ScanAfter(lines: seq<Line>, pluginsIndex: nat, shape: Shape) returns (r: Place)
    requires pluginsIndex <= |lines|
    ensures r == PlaceAfter(lines, pluginsIndex, shape)
  {
    if pluginsIndex == |lines| { return Nowhere; }
    if shape.NoList? { return Place(pluginsIndex + 1, NewList()); }
    r := ScanForPlace(pluginsIndex + 1, lines[pluginsIndex + 1..]);
  }

  method ScanForPlace(start: nat, under: seq<Line>) returns (r: Place)
    ensures r == PlaceForItem(start, under)
  {
    var enabled := ScanForEnabled(under);
    if !enabled.At? { return Nowhere; }
    var at, itemIndent := ScanForItems(under, enabled.n + 1, under[enabled.n].indent);
    r := Place(start + at, [Line(itemIndent, Item(Control))]);
  }

  // ---------------------------------------------------------------- and what it makes of the lines

  lemma {:induction false} LinesJoin(a: seq<string>, b: seq<string>)
    ensures LinesOf(a + b) == LinesOf(a) + LinesOf(b)
  {
    if a == [] {
      assert a + b == b;
    } else {
      TailOfJoin(a, b);
      LinesJoin(a[1..], b);
      Regroup([Lex(Chomp(a[0]))], LinesOf(a[1..]), LinesOf(b));
    }
  }

  lemma {:induction false} LinesCut(pieces: seq<string>, at: nat)
    requires at <= |pieces|
    ensures LinesOf(pieces[..at]) == LinesOf(pieces)[..at] && LinesOf(pieces[at..]) == LinesOf(pieces)[at..]
  {
    assert pieces == pieces[..at] + pieces[at..];
    LinesJoin(pieces[..at], pieces[at..]);
  }

  /** A line this module puts in reads as what it is meant to be. */
  predicate Reads(l: Line) {
    Lex(RawOf(l)) == l && '\n' !in RawOf(l)
  }

  lemma {:induction false} RawIsPiece(l: Line)
    requires Reads(l)
    ensures var piece := RawOf(l) + "\n"; IsPiece(piece) && Ended(piece) && Chomp(piece) == RawOf(l)
  {
    var piece := RawOf(l) + "\n";
    assert piece[..|piece| - 1] == RawOf(l);
  }

  lemma {:induction false} RawsRead(ls: seq<Line>)
    requires forall l <- ls :: Reads(l)
    ensures AllEnded(Raws(ls)) && LinesOf(Raws(ls)) == ls && |Raws(ls)| == |ls|
  {
    if ls != [] {
      FirstReads(ls);
      RawsRead(ls[1..]);
      FirstPiece(RawOf(ls[0]) + "\n", Raws(ls[1..]));
      Rejoin(ls);
    }
  }

  lemma {:induction false} FirstReads(ls: seq<Line>)
    requires ls != [] && forall l <- ls :: Reads(l)
    ensures forall l <- ls[1..] :: Reads(l)
    ensures var piece := RawOf(ls[0]) + "\n"; IsPiece(piece) && Ended(piece) && Lex(Chomp(piece)) == ls[0]
  {
    assert ls[0] in ls;
    RawIsPiece(ls[0]);
  }

  lemma {:induction false} Rejoin<T>(s: seq<T>)
    requires s != []
    ensures s == [s[0]] + s[1..]
  {
  }

  lemma {:induction false} FirstPiece(piece: string, rest: seq<string>)
    requires IsPiece(piece) && Ended(piece) && AllEnded(rest)
    ensures AllEnded([piece] + rest) && LinesOf([piece] + rest) == [Lex(Chomp(piece))] + LinesOf(rest)
  {
    assert ([piece] + rest)[1..] == rest;
  }

  lemma {:induction false} NewItemReads(d: nat)
    ensures Reads(Line(d, Item(Control)))
  {
    LexItem(d);
    RawOfItem(d);
  }

  lemma {:induction false} NewKeyReads()
    ensures Reads(Line(2, Key(Enabled, None)))
  {
    LexKey(2, "enabled");
    SimpleKey("enabled");
    SpacesIs(2);
    PrintableJoin("enabled", ":");
    PrintableJoin(Spaces(2), "enabled:");
    assert "enabled" + ":" == "enabled:";
  }

  lemma {:induction false} NewListRead()
    ensures forall l <- NewList() :: Reads(l)
  {
    NewItemReads(4);
    NewKeyReads();
  }

  lemma {:induction false} ThreeParts(a: seq<string>, b: seq<string>, c: seq<string>)
    ensures Concat(a) + Concat(b) + Concat(c) == Concat(a + b + c)
  {
    ConcatJoin(a, b);
    ConcatJoin(a + b, c);
  }

  lemma {:induction false} FrontEnded(pieces: seq<string>, at: nat)
    requires WellSplit(pieces) && at <= |pieces| && (at < |pieces| || EndingOf(pieces).Newline?)
    ensures AllEnded(pieces[..at])
  {
    if at < |pieces| {
      assert pieces[..at] == pieces[..|pieces| - 1][..at];
    } else if pieces != [] {
      assert pieces == pieces[..|pieces| - 1] + [pieces[|pieces| - 1]];
      assert pieces[..at] == pieces;
    }
  }

  lemma {:induction false} WellSplitJoin(a: seq<string>, b: seq<string>)
    requires AllEnded(a) && WellSplit(b)
    ensures WellSplit(a + b)
  {
    if b == [] {
      assert a + b == a;
      assert forall p <- a[..|a| - (if a == [] then 0 else 1)] :: p in a;
    } else {
      assert (a + b)[..|a + b| - 1] == a + b[..|b| - 1];
    }
  }

  lemma {:induction false} WellSplitBack(pieces: seq<string>, at: nat)
    requires WellSplit(pieces) && at <= |pieces|
    ensures WellSplit(pieces[at..])
  {
    if at < |pieces| {
      assert pieces[at..][..|pieces| - at - 1] == pieces[..|pieces| - 1][at..];
    }
  }

  /** Lines put in between whole lines. */
  lemma {:induction false} InsertReads(pieces: seq<string>, at: nat, more: seq<Line>)
    requires WellSplit(pieces) && at <= |pieces| && (at < |pieces| || EndingOf(pieces).Newline?)
    requires more != [] && forall l <- more :: Reads(l)
    ensures
      var lines := LinesOf(pieces);
      DocOf(Inserted(pieces, at, more)) ==
        Document(lines[..at] + (more + lines[at..]), EndingThen(EndingOf(pieces), at == |pieces|))
  {
    InsertSplits(pieces, at, more, Raws(more));
    LinesJoin(pieces[..at], Raws(more) + pieces[at..]);
    LinesJoin(Raws(more), pieces[at..]);
    LinesCut(pieces, at);
    RawsRead(more);
    EndingAfter(pieces, at, Raws(more));
  }

  lemma {:induction false} InsertSplits(pieces: seq<string>, at: nat, more: seq<Line>, ns: seq<string>)
    requires WellSplit(pieces) && at <= |pieces| && (at < |pieces| || EndingOf(pieces).Newline?)
    requires ns == Raws(more) && forall l <- more :: Reads(l)
    ensures Split(Inserted(pieces, at, more)) == pieces[..at] + (ns + pieces[at..])
  {
    RawsRead(more);
    FrontEnded(pieces, at);
    WellSplitBack(pieces, at);
    WellSplitJoin(ns, pieces[at..]);
    WellSplitJoin(pieces[..at], ns + pieces[at..]);
    ThreeParts(pieces[..at], ns, pieces[at..]);
    Regroup(pieces[..at], ns, pieces[at..]);
    SplitConcat(pieces[..at] + (ns + pieces[at..]));
  }

  lemma {:induction false} EndingAfter(pieces: seq<string>, at: nat, ns: seq<string>)
    requires at <= |pieces| && ns != [] && AllEnded(ns)
    ensures EndingOf(pieces[..at] + (ns + pieces[at..])) == EndingThen(EndingOf(pieces), at == |pieces|)
  {
    var all := pieces[..at] + (ns + pieces[at..]);
    if at == |pieces| {
      assert all[|all| - 1] == ns[|ns| - 1] && ns[|ns| - 1] in ns;
    } else {
      assert all[|all| - 1] == pieces[|pieces| - 1];
    }
  }

  /** Lines put behind a last line that has no newline. */
  lemma {:induction false} InsertGlues(pieces: seq<string>, more: seq<Line>, g: Line)
    requires WellSplit(pieces) && pieces != [] && EndingOf(pieces).Open?
    requires more != [] && forall l <- more :: Reads(l)
    requires Lex(pieces[|pieces| - 1] + RawOf(more[0])) == g
    ensures
      var lines := LinesOf(pieces);
      DocOf(Inserted(pieces, |pieces|, more)) == Document(lines[..|lines| - 1] + ([g] + more[1..]), Newline)
  {
    var n := |pieces| - 1;
    var front, last, ns := pieces[..n], pieces[n], Raws(more);
    var glued := last + ns[0];
    RawsRead(more);
    GluedPiece(last, more[0]);
    assert forall p <- [glued] + ns[1..] :: p == glued || p in ns;
    WellSplitJoin([glued] + ns[1..], []);
    assert [glued] + ns[1..] + [] == [glued] + ns[1..];
    WellSplitJoin(front, [glued] + ns[1..]);
    GluedText(pieces, ns);
    SplitConcat(front + ([glued] + ns[1..]));
    LinesJoin(front, [glued] + ns[1..]);
    LinesCut(pieces, n);
    RawsRead(more[1..]);
    assert Raws(more)[1..] == Raws(more[1..]);
    assert LinesOf([glued] + ns[1..]) == [g] + more[1..];
    var all := front + ([glued] + ns[1..]);
    assert all[|all| - 1] in [glued] + ns[1..];
  }

  lemma {:induction false} GluedPiece(last: string, l: Line)
    requires IsPiece(last) && !Ended(last) && Reads(l)
    ensures var glued := last + (RawOf(l) + "\n"); IsPiece(glued) && Ended(glued) && Chomp(glued) == last + RawOf(l)
  {
    var glued := last + (RawOf(l) + "\n");
    assert last == last[..|last| - 1] + [last[|last| - 1]];
    assert glued[..|glued| - 1] == last + RawOf(l);
  }

  lemma {:induction false} GluedText(pieces: seq<string>, ns: seq<string>)
    requires pieces != [] && ns != []
    ensures
      var n := |pieces| - 1;
      Concat(pieces[..n + 1]) + Concat(ns) + Concat(pieces[n + 1..]) ==
        Concat(pieces[..n] + ([pieces[n] + ns[0]] + ns[1..]))
  {
    var n := |pieces| - 1;
    assert pieces[..n + 1] == pieces[..n] + [pieces[n]] && pieces[n + 1..] == [];
    ConcatJoin(pieces[..n], [pieces[n]]);
    ConcatJoin(pieces[..n], [pieces[n] + ns[0]] + ns[1..]);
    assert [pieces[n]][1..] == [];
    assert Concat([pieces[n]]) == pieces[n] + "";
    Regroup(Concat(pieces[..n]), pieces[n], Concat(ns));
    Regroup(pieces[n], ns[0], Concat(ns[1..]));
    assert ([pieces[n] + ns[0]] + ns[1..])[1..] == ns[1..];
  }

  lemma {:induction false} ColonAtTheEnd(s: string)
    requires s != "" && s[|s| - 1] == ':'
    ensures !NoMarks(s)
  {
    assert MarkAt(s, |s| - 1);
  }

  lemma {:induction false} NewListIsGlued(raw: string)
    requires Lex(raw) == PLUGINS_LINE
    ensures Lex(raw + RawOf(NewList()[0])) == Line(0, Rest)
  {
    SimpleKey("enabled");
    PrintableJoin("enabled", ":");
    assert "enabled" + ":" == "enabled:";
    ColonAtTheEnd("enabled:");
    assert RawOf(NewList()[0]) == Spaces(2) + "enabled:";
    LexGluedKey(raw, 2, "enabled:");
  }

  lemma {:induction false} NewItemIsGlued(raw: string, d: nat)
    requires Lex(raw).content.Item? || Lex(raw).content == Key(Enabled, None)
    requires d > 0
    ensures var more := RawOf(Line(d, Item(Control)));
      Lex(raw + more) == Glue(Lex(raw), Pad(raw) + more)
  {
    if Lex(raw).content.Item? {
      LexGluedItem(raw, d);
    } else {
      PlainName();
      PrintableJoin("- ", CONTROL_NAME);
      LexGluedKey(raw, d, "- " + CONTROL_NAME);
    }
  }

  /** The lines read as they are meant to, and so does the first of them where it is put
    * behind an open line. */
  ghost predicate Right(pieces: seq<string>, at: nat, more: seq<Line>)
    requires 0 < at <= |pieces| && more != []
  {
    && (forall l <- more :: Reads(l))
    && (at == |pieces| && EndingOf(pieces).Open? ==>
          Lex(pieces[at - 1] + RawOf(more[0])) == Glue(Lex(pieces[at - 1]), Pad(pieces[at - 1]) + RawOf(more[0])))
  }

  lemma {:induction false} NewListIsRight(pieces: seq<string>, at: nat)
    requires 0 < at <= |pieces| && LinesOf(pieces)[at - 1] == PLUGINS_LINE
    ensures Right(pieces, at, NewList())
  {
    NewListRead();
    if at == |pieces| && EndingOf(pieces).Open? {
      LastLine(pieces);
      NewListIsGlued(pieces[at - 1]);
    }
  }

  lemma {:induction false} NewItemIsRight(pieces: seq<string>, at: nat, d: nat)
    requires 0 < at <= |pieces| && d > 0
    requires var l := LinesOf(pieces)[at - 1]; l.content.Item? || l.content == Key(Enabled, None)
    ensures Right(pieces, at, [Line(d, Item(Control))])
  {
    NewItemReads(d);
    if at == |pieces| && EndingOf(pieces).Open? {
      LastLine(pieces);
      NewItemIsGlued(pieces[at - 1], d);
    }
  }

  lemma {:induction false} LastLine(pieces: seq<string>)
    requires pieces != []
    ensures
      var last := pieces[|pieces| - 1];
      LinesOf(pieces)[|pieces| - 1] == Lex(Chomp(last)) && (!Ended(last) ==> Chomp(last) == last)
  {
    LinesCut(pieces, |pieces| - 1);
    assert pieces[|pieces| - 1..] == [pieces[|pieces| - 1]];
    assert [pieces[|pieces| - 1]][1..] == [];
  }

  // ---------------------------------------------------------------- the text and the lines

  /** Either way of putting lines in gives the text whose lines are those of the plan. */
  lemma {:induction false} InsertedReads(pieces: seq<string>, at: nat, more: seq<Line>)
    requires WellSplit(pieces) && 0 < at <= |pieces| && more != [] && Right(pieces, at, more)
    ensures
      var lines, ending := LinesOf(pieces), EndingOf(pieces);
      DocOf(Inserted(pieces, at, more)) ==
        Document(PutBehind(lines[..at], more, lines[at..], ending), EndingThen(ending, at == |pieces|))
  {
    if at == |pieces| && EndingOf(pieces).Open? {
      LastLine(pieces);
      var lines := LinesOf(pieces);
      assert lines[..at] == lines;
      InsertGlues(pieces, more, Glue(lines[at - 1], EndingOf(pieces).pad + RawOf(more[0])));
    } else {
      InsertReads(pieces, at, more);
    }
  }

  /** What comes of putting these lines in there. */
  function PutIn(doc: Document, at: nat, more: seq<Line>): Document
    requires 0 < at <= |doc.lines| && more != []
  {
    Document(PutBehind(doc.lines[..at], more, doc.lines[at..], doc.ending), EndingThen(doc.ending, at == |doc.lines|))
  }

  lemma {:induction false} NewListInserted(pieces: seq<string>, n: nat)
    requires WellSplit(pieces) && n < |pieces| && LinesOf(pieces)[n] == PLUGINS_LINE
    ensures DocOf(Inserted(pieces, n + 1, NewList())) == PutIn(DocumentOf(pieces), n + 1, NewList())
  {
    NewListIsRight(pieces, n + 1);
    InsertedReads(pieces, n + 1, NewList());
  }

  lemma {:induction false} NewItemInserted(pieces: seq<string>, at: nat, item: Line)
    requires WellSplit(pieces) && 0 < at <= |pieces| && item.content == Item(Control) && item.indent > 0
    requires var l := LinesOf(pieces)[at - 1]; l.content.Item? || l.content == Key(Enabled, None)
    ensures DocOf(Inserted(pieces, at, [item])) == PutIn(DocumentOf(pieces), at, [item])
  {
    NewItemIsRight(pieces, at, item.indent);
    InsertedReads(pieces, at, [item]);
  }

  lemma {:induction false} PlaceOfItem(lines: seq<Line>, n: nat, e: nat)
    requires n < |lines| && FindEnabled(lines[n + 1..]) == At(e)
    ensures
      var at, item := n + 1 + Stop(lines[n + 1..], e), NewItem(lines[n + 1..], e);
      && at <= |lines| && item.content == Item(Control) && item.indent > 0
      && (lines[at - 1].content.Item? || lines[at - 1].content == Key(Enabled, None))
  {
    var under := lines[n + 1..];
    ItemIndentAtLeast(under[e + 1..], under[e].indent);
    LastBeforeStop(under, e);
    assert lines[n + Stop(under, e)] == under[Stop(under, e) - 1];
  }

  lemma {:induction false} PlanIsPlace(doc: Document, shape: Shape)
    requires !shape.NoPlugins?
    ensures Plan(doc, shape) ==
      match PlaceWithin(doc.lines, shape)
      case Nowhere => None
      case Place(at, more) => Some(PutIn(doc, at, more))
  {
    if shape.AList? && PluginsAt(doc.lines) < |doc.lines| {
      GrownIsPlace(doc, PluginsAt(doc.lines), Under(doc.lines));
    }
  }

  lemma {:induction false} GrownIsPlace(doc: Document, n: nat, under: seq<Line>)
    requires n < |doc.lines| && under == doc.lines[n + 1..]
    ensures Grown(doc.lines[..n + 1], under, doc.ending) ==
      match PlaceForItem(n + 1, under)
      case Nowhere => None
      case Place(at, more) => Some(PutIn(doc, at, more))
  {
    match FindEnabled(under) {
      case At(e) => ItemIsPlace(doc, n, under, e, Stop(under, e), NewItem(under, e));
      case _ =>
    }
  }

  lemma {:induction false} ItemIsPlace(doc: Document, n: nat, under: seq<Line>, e: nat, k: nat, item: Line)
    requires n < |doc.lines| && under == doc.lines[n + 1..] && e < |under|
    requires k == Stop(under, e) && item == NewItem(under, e)
    ensures doc.lines[..n + 1] + WithItem(under, e, doc.ending) == PutIn(doc, n + 1 + k, [item]).lines
    ensures k == |under| <==> n + 1 + k == |doc.lines|
  {
    CutBelowLine(doc.lines, n, k);
    PutBehindUnder(doc.lines[..n + 1], under[..k], [item], under[k..], doc.ending);
  }

  lemma {:induction false} CutBelowLine<T>(s: seq<T>, n: nat, k: nat)
    requires n < |s| && k <= |s| - n - 1
    ensures s[..n + 1 + k] == s[..n + 1] + s[n + 1..][..k] && s[n + 1 + k..] == s[n + 1..][k..]
  {
  }

  lemma {:induction false} PutBehindUnder(head: seq<Line>, front: seq<Line>, more: seq<Line>, rest: seq<Line>, ending: Ending)
    requires front != [] && more != []
    ensures head + PutBehind(front, more, rest, ending) == PutBehind(head + front, more, rest, ending)
  {
    var last := front[|front| - 1];
    assert (head + front)[|head + front| - 1] == last;
    if rest == [] && ending.Open? {
      var tail := [Glue(last, ending.pad + RawOf(more[0]))] + more[1..];
      assert (head + front)[..|head + front| - 1] == head + front[..|front| - 1];
      assert head + (front[..|front| - 1] + tail) == head + front[..|front| - 1] + tail;
    } else {
      assert head + (front + (more + rest)) == head + front + (more + rest);
    }
  }

  /** A text whose last line has got its newline. */
  lemma {:induction false} NewlineAdded(text: string)
    ensures
      var full := if text == "" || Ended(text) then text else text + "\n";
      AllEnded(Split(full)) && LinesOf(Split(full)) == LinesOf(Split(text))
  {
    var pieces := Split(text);
    SplitIsWell(text);
    TextEnds(text, pieces);
    if text == "" || Ended(text) {
      FrontEnded(pieces, |pieces|);
      assert pieces[..|pieces|] == pieces;
    } else {
      var n := |pieces| - 1;
      ClosedPieces(pieces, n);
      ClosedText(pieces, n);
      SplitConcat(pieces[..n] + [pieces[n] + "\n"]);
      ClosedLines(pieces, n);
    }
  }

  lemma {:induction false} ClosedPieces(pieces: seq<string>, n: nat)
    requires n == |pieces| - 1 && WellSplit(pieces) && !Ended(pieces[n])
    ensures var closed := pieces[..n] + [pieces[n] + "\n"]; AllEnded(closed) && WellSplit(closed)
  {
    var last := pieces[n];
    var closed := pieces[..n] + [last + "\n"];
    assert (last + "\n")[..|last|] == last;
    assert last == last[..|last| - 1] + [last[|last| - 1]];
    assert closed[..|closed| - 1] == pieces[..n];
  }

  lemma {:induction false} ClosedLines(pieces: seq<string>, n: nat)
    requires n == |pieces| - 1 && !Ended(pieces[n])
    ensures LinesOf(pieces[..n] + [pieces[n] + "\n"]) == LinesOf(pieces)
  {
    var last := pieces[n];
    assert (last + "\n")[..|last|] == last;
    LinesJoin(pieces[..n], [last + "\n"]);
    LinesCut(pieces, n);
    LastLine(pieces);
    LastLine([last + "\n"]);
    assert LinesOf(pieces) == LinesOf(pieces)[..n] + [LinesOf(pieces)[n]];
  }

  lemma {:induction false} TextEnds(text: string, pieces: seq<string>)
    requires pieces == Split(text) && WellSplit(pieces) && Concat(pieces) == text
    ensures text == "" <==> pieces == []
    ensures text != "" ==> (Ended(text) <==> Ended(pieces[|pieces| - 1]))
  {
    if pieces != [] {
      var n := |pieces| - 1;
      LastPiece(pieces);
      assert text[|text| - 1] == pieces[n][|pieces[n]| - 1];
    }
  }

  lemma {:induction false} LastPiece(pieces: seq<string>)
    requires pieces != []
    ensures Concat(pieces) == Concat(pieces[..|pieces| - 1]) + pieces[|pieces| - 1]
  {
    var n := |pieces| - 1;
    assert pieces == pieces[..n] + [pieces[n]] && [pieces[n]][1..] == [];
    ConcatJoin(pieces[..n], [pieces[n]]);
    assert Concat([pieces[n]]) == pieces[n] + "";
  }

  lemma {:induction false} ClosedText(pieces: seq<string>, n: nat)
    requires n == |pieces| - 1
    ensures Concat(pieces[..n] + [pieces[n] + "\n"]) == Concat(pieces) + "\n"
  {
    assert pieces == pieces[..n] + [pieces[n]] && [pieces[n]][1..] == [] && [pieces[n] + "\n"][1..] == [];
    ConcatJoin(pieces[..n], [pieces[n]]);
    ConcatJoin(pieces[..n], [pieces[n] + "\n"]);
    Regroup(Concat(pieces[..n]), pieces[n], "\n");
  }

  /** The text of the new section, line by line. */
  lemma {:induction false} NewSectionReads(text: string)
    ensures DocOf(NewSectionText(text)) == WithSection(DocOf(text))
  {
    var full := if text == "" || Ended(text) then text else text + "\n";
    var head, ns := ["\n", ADDED_COMMENT + "\n", "plugins:\n"], Raws(NewList());
    NewlineAdded(text);
    SplitIsWell(full);
    HeadReads();
    NewListRead();
    RawsRead(NewList());
    var added := head + ns;
    LinesJoin(head, ns);
    assert AllEnded(Split(full) + added);
    AllEndedIsWell(Split(full) + added);
    ConcatJoin(Split(full), added);
    ConcatJoin(head, ns);
    HeadText(full, Concat(ns));
    SplitConcat(Split(full) + added);
    LinesJoin(Split(full), added);
    assert (Split(full) + added)[|Split(full) + added| - 1] in Split(full) + added;
    Regrouped(DocOf(text).lines);
  }

  lemma {:induction false} Regrouped(lines: seq<Line>)
    ensures lines + ([Line(0, Blank), Line(0, Comment), PLUGINS_LINE] + NewList()) ==
      lines + [Line(0, Blank), Line(0, Comment), PLUGINS_LINE] + NewList()
  {
  }

  lemma {:induction false} AllEndedIsWell(pieces: seq<string>)
    requires AllEnded(pieces)
    ensures WellSplit(pieces)
  {
    if pieces != [] {
      assert pieces[|pieces| - 1] in pieces;
      assert forall p <- pieces[..|pieces| - 1] :: p in pieces;
    }
  }

  lemma {:induction false} HeadText(full: string, rest: string)
    ensures full + (Concat(["\n", ADDED_COMMENT + "\n", "plugins:\n"]) + rest) ==
      full + "\n" + ADDED_COMMENT + "\nplugins:\n" + rest
  {
    var head := ["\n", ADDED_COMMENT + "\n", "plugins:\n"];
    assert head[1..] == [ADDED_COMMENT + "\n", "plugins:\n"] && head[1..][1..] == ["plugins:\n"];
    assert ["plugins:\n"][1..] == [];
    assert Concat(["plugins:\n"]) == "plugins:\n" + "";
    assert Concat(head) == "\n" + ((ADDED_COMMENT + "\n") + "plugins:\n");
    assert "\nplugins:\n" == "\n" + "plugins:\n";
  }

  lemma {:induction false} PieceReads(raw: string, l: Line)
    requires Lex(raw) == l && '\n' !in raw
    ensures IsPiece(raw + "\n") && Ended(raw + "\n") && Lex(Chomp(raw + "\n")) == l
  {
    assert (raw + "\n")[..|raw|] == raw;
  }

  lemma {:induction false} HeadReads()
    ensures
      var head := ["\n", ADDED_COMMENT + "\n", "plugins:\n"];
      AllEnded(head) && LinesOf(head) == [Line(0, Blank), Line(0, Comment), PLUGINS_LINE]
  {
    BlankReads();
    CommentReads();
    PluginsReads();
    ThreeLines("\n", ADDED_COMMENT + "\n", "plugins:\n");
  }

  lemma {:induction false} BlankReads()
    ensures IsPiece("\n") && Ended("\n") && Lex(Chomp("\n")) == Line(0, Blank)
  {
    assert "" + "\n" == "\n";
    PieceReads("", Line(0, Blank));
  }

  lemma {:induction false} CommentReads()
    ensures var piece := ADDED_COMMENT + "\n"; IsPiece(piece) && Ended(piece) && Lex(Chomp(piece)) == Line(0, Comment)
  {
    LexComment();
    PrintableIsOneLine(ADDED_COMMENT);
    PieceReads(ADDED_COMMENT, Line(0, Comment));
  }

  lemma {:induction false} PluginsReads()
    ensures IsPiece("plugins:\n") && Ended("plugins:\n") && Lex(Chomp("plugins:\n")) == PLUGINS_LINE
  {
    LexKey(0, "plugins");
    assert Spaces(0) + ("plugins" + ":") == "plugins:" && "plugins:" + "\n" == "plugins:\n";
    PrintableIsOneLine("plugins:");
    PieceReads("plugins:", PLUGINS_LINE);
  }

  lemma {:induction false} PrintableIsOneLine(raw: string)
    requires Lex(raw).content != Rest
    ensures '\n' !in raw
  {
  }

  lemma {:induction false} ThreeLines(a: string, b: string, c: string)
    ensures LinesOf([a, b, c]) == [Lex(Chomp(a)), Lex(Chomp(b)), Lex(Chomp(c))]
  {
    assert [a, b, c][1..] == [b, c] && [b, c][1..] == [c] && [c][1..] == [];
    assert LinesOf([c]) == [Lex(Chomp(c))] + LinesOf([]);
  }

  lemma {:induction false} ItemPlaced(pieces: seq<string>, lines: seq<Line>, n: nat, e: nat, at: nat, item: Line)
    requires WellSplit(pieces) && lines == LinesOf(pieces) && n < |lines| && FindEnabled(lines[n + 1..]) == At(e)
    requires at == n + 1 + Stop(lines[n + 1..], e) && item == NewItem(lines[n + 1..], e)
    ensures at <= |pieces| && DocOf(Inserted(pieces, at, [item])) == PutIn(DocumentOf(pieces), at, [item])
  {
    PlaceOfItem(lines, n, e);
    NewItemInserted(pieces, at, item);
  }

  lemma {:induction false} PlacedThere(doc: Document, pieces: seq<string>, place: Place, item: Line)
    requires place.Place? && place.more == [item] && 0 < place.at <= |pieces| && |doc.lines| == |pieces|
    requires DocOf(Inserted(pieces, place.at, [item])) == PutIn(doc, place.at, [item])
    ensures DocOf(Inserted(pieces, place.at, place.more)) == PutIn(doc, place.at, place.more)
  {
  }

  lemma {:induction false} PlacedItemReads(pieces: seq<string>, lines: seq<Line>, n: nat, under: seq<Line>, place: Place)
    requires WellSplit(pieces) && lines == LinesOf(pieces) && n < |lines| && under == lines[n + 1..]
    requires place == PlaceForItem(n + 1, under) && place.Place?
    ensures DocOf(Inserted(pieces, place.at, place.more)) == PutIn(DocumentOf(pieces), place.at, place.more)
  {
    var e := FindEnabled(under).n;
    var item := NewItem(under, e);
    ItemPlaced(pieces, lines, n, e, place.at, item);
    PlacedThere(DocumentOf(pieces), pieces, place, item);
  }

  lemma {:induction false} PlacedListReads(pieces: seq<string>, lines: seq<Line>, n: nat, place: Place)
    requires WellSplit(pieces) && lines == LinesOf(pieces) && n < |lines| && lines[n] == PLUGINS_LINE
    requires place == Place(n + 1, NewList())
    ensures DocOf(Inserted(pieces, place.at, place.more)) == PutIn(DocumentOf(pieces), place.at, place.more)
  {
    NewListInserted(pieces, n);
  }

  /** Planning on the text is planning on its lines. */
  lemma {:induction false} PlanReads(text: string, shape: Shape)
    ensures PlanText(text, shape).Some? <==> Plan(DocOf(text), shape).Some?
    ensures PlanText(text, shape).Some? ==> DocOf(PlanText(text, shape).value) == Plan(DocOf(text), shape).value
  {
    if shape.NoPlugins? {
      NewSectionReads(text);
    } else {
      var pieces := Split(text);
      SplitIsWell(text);
      PlanIsPlace(DocOf(text), shape);
      var place := PlaceWithin(LinesOf(pieces), shape);
      if place.Place? {
        var lines := LinesOf(pieces);
        var n := PluginsAt(lines);
        if shape.NoList? {
          PlacedListReads(pieces, lines, n, place);
        } else {
          PlacedItemReads(pieces, lines, n, lines[n + 1..], place);
        }
      }
    }
  }
}
