/** Two files, and how enabling the plugin in them ends. */
module EnableExamples {
  import opened Options
  import opened YamlLines
  import opened ConfigEdit
  import opened EditTheorems
  import opened Documents
  import opened EditOutcome
  import opened YamlText
  import opened Files
  import opened EnableTheorems
  import Setup

  // ---------------------------------------------------------------- texts from their lines

  function Closed(raws: seq<string>): seq<string> {
    if raws == [] then [] else [raws[0] + "\n"] + Closed(raws[1..])
  }

  function TextOfLines(raws: seq<string>): string {
    Concat(Closed(raws))
  }

  predicate LexesTo(raws: seq<string>, lines: seq<Line>) {
    |raws| == |lines| && forall i :: 0 <= i < |raws| ==> Lex(raws[i]) == lines[i] && !lines[i].content.Rest?
  }

  lemma {:induction false} ClosedReads(raws: seq<string>, lines: seq<Line>)
    requires LexesTo(raws, lines)
    ensures AllEnded(Closed(raws)) && LinesOf(Closed(raws)) == lines
  {
    if raws != [] {
      FirstLexes(raws, lines);
      ClosedReads(raws[1..], lines[1..]);
      PieceReads(raws[0], lines[0]);
      FirstPiece(raws[0] + "\n", Closed(raws[1..]));
      Rejoin(lines);
    }
  }

  lemma {:induction false} FirstLexes(raws: seq<string>, lines: seq<Line>)
    requires LexesTo(raws, lines) && raws != []
    ensures LexesTo(raws[1..], lines[1..]) && Lex(raws[0]) == lines[0] && '\n' !in raws[0]
  {
    PrintableIsOneLine(raws[0]);
    forall i | 0 <= i < |raws| - 1 ensures Lex(raws[1..][i]) == lines[1..][i] && !lines[1..][i].content.Rest? {
      assert raws[1..][i] == raws[i + 1] && lines[1..][i] == lines[i + 1];
    }
  }

  lemma {:induction false} ClosedHasNoReturn(raws: seq<string>, lines: seq<Line>)
    requires LexesTo(raws, lines)
    ensures NoReturn(TextOfLines(raws))
  {
    if raws != [] {
      FirstLexes(raws, lines);
      ClosedHasNoReturn(raws[1..], lines[1..]);
      PrintableHasNoReturn(raws[0]);
    }
  }

  lemma {:induction false} PrintableHasNoReturn(raw: string)
    requires !Lex(raw).content.Rest?
    ensures NoReturn(raw)
  {
  }

  /** The text of some lines reads as these lines. */
  lemma {:induction false} TextReads(raws: seq<string>, lines: seq<Line>)
    requires LexesTo(raws, lines)
    ensures DocOf(TextOfLines(raws)) == Document(lines, Newline) && NoReturn(TextOfLines(raws))
  {
    ClosedReads(raws, lines);
    ClosedHasNoReturn(raws, lines);
    AllEndedIsWell(Closed(raws));
    SplitConcat(Closed(raws));
    if raws != [] {
      assert Closed(raws)[|Closed(raws)| - 1] in Closed(raws);
    }
  }

  /** How enabling ends for a file of some lines without a section. */
  lemma {:induction false} EndsFor(raws: seq<string>, lines: seq<Line>, v: Value)
    requires LexesTo(raws, lines) && Once(lines) && LoadLines(lines) == Loaded(v)
    requires v.Object? && Plugins !in v.fields
    ensures
      var text := TextOfLines(raws);
      Setup.Enable(Some(Utf8(text)), BLOCK_YAML) ==
        Setup.Edit(
          if HasDateKey(v) then Setup.RaisedAfter else Setup.Done, Some(Utf8(NewSectionText(text))), Some(text))
  {
    var text := TextOfLines(raws);
    TextReads(raws, lines);
    NewlinesKeepIff(text);
    EnableEnds(Some(Utf8(text)), text, v);
    assert PlanFor(text, v) == Some(NewSectionText(text));
  }

  // ---------------------------------------------------------------- a date

  const DATE := "2024-01-01"

  lemma {:induction false} DateParts(year: string, month: string, day: string)
    requires |year| == 4 && |month| == 2 && |day| == 2
    ensures
      var t := year + "-" + month + "-" + day;
      |t| == 10 && t[4] == '-' && t[7] == '-' && t[..4] == year && t[5..7] == month && t[8..] == day
  {
  }

  lemma {:induction false} DateIsShaped()
    ensures DateShaped(DATE) && Printable(DATE) && ':' !in DATE && '#' !in DATE
  {
    DateParts("2024", "01", "01");
    assert DATE == "2024" + "-" + "01" + "-" + "01";
  }

  lemma {:induction false} DateIsReal()
    ensures DateShaped(DATE) && RealDate(DATE)
  {
    DateIsShaped();
    DateParts("2024", "01", "01");
    assert DATE == "2024" + "-" + "01" + "-" + "01";
    assert "01"[..1] == "0" && "0"[..0] == "";
    assert Number("0") == 0 && Number("01") == 1;
    assert "2024"[..3] == "202" && "202"[..2] == "20" && "20"[..1] == "2" && "2"[..0] == "";
    assert Number("2") == 2 && Number("20") == 20 && Number("202") == 202 && Number("2024") == 2024;
  }

  lemma {:induction false} DateIsKey()
    ensures KeyText(DATE) && Printable(DATE) && NameOf(DATE) == Other(DATE)
  {
    DateIsShaped();
    Unmarked(DATE);
    assert |DATE| == 10;
  }

  lemma {:induction false} WordsArePlain()
    ensures PlainWord("note") && Printable("note") && PlainWord("x") && Printable("x")
    ensures KeyText("a") && Printable("a") && NameOf("a") == Other("a")
  {
    assert ':' !in "note" && '#' !in "note" && ':' !in "x" && '#' !in "x" && ':' !in "a" && '#' !in "a";
    Unmarked("note");
    Unmarked("x");
    Unmarked("a");
    assert |"a"| == 1;
  }

  // ---------------------------------------------------------------- a date for a key

  const DATED := [DATE + (": " + "note")]
  const DATED_LINE := Line(0, Key(Other(DATE), Some(Single("note"))))

  lemma {:induction false} DatedLexes()
    ensures LexesTo(DATED, [DATED_LINE])
  {
    DateIsKey();
    WordsArePlain();
    LexKeyed(0, DATE, "note");
    assert Spaces(0) + (DATE + (": " + "note")) == DATE + (": " + "note");
  }

  lemma {:induction false} OneEntry(line: Line, key: string, value: string)
    requires line == Line(line.indent, Key(Other(key), Some(Single(value))))
    ensures Entries([line], line.indent) == Some([Entry(Other(key), Some(Single(value)), [])])
    ensures FieldsOf([Entry(Other(key), Some(Single(value)), [])]) == Some(map[Other(key) := Atom(value)])
  {
    var e := Entry(Other(key), Some(Single(value)), []);
    ReadOne(line, line.indent);
    assert [e][1..] == [];
    assert FieldsOf([]) == Some(map[]) && ValueOf(e) == Some(Atom(value));
    assert map[Other(key) := Atom(value)] + map[] == map[Other(key) := Atom(value)];
  }

  lemma {:induction false} DatedLoads()
    ensures Once([DATED_LINE]) && LoadLines([DATED_LINE]) == Loaded(Object(map[Other(DATE) := Atom("note")]))
  {
    OneEntry(DATED_LINE, DATE, "note");
    DateIsReal();
    assert !CannotConstruct(DATED_LINE);
  }

  /** A date for a key: the plugin's section is written, the check raises, and the edited
    * file stays. */
  lemma {:induction false} DateKeyRaisesAfter()
    ensures
      var text := TextOfLines(DATED);
      Setup.Enable(Some(Utf8(text)), BLOCK_YAML) ==
        Setup.Edit(Setup.RaisedAfter, Some(Utf8(NewSectionText(text))), Some(text))
  {
    var v := Object(map[Other(DATE) := Atom("note")]);
    DatedLexes();
    DatedLoads();
    DateIsShaped();
    assert Other(DATE) in v.fields && IsDate(Other(DATE));
    EndsFor(DATED, [DATED_LINE], v);
  }

  /** For the whole command: a configuration of this one line, found fit to be used, and
    * no operation that fails, and the rollback is skipped. */
  lemma {:induction false} DateKeyEscapes(files: Contents, i: Setup.Inputs)
    requires Files.At(files, ConfigFile) == Some(Utf8(TextOfLines(DATED))) && i.yaml == BLOCK_YAML
    ensures
      var text := TextOfLines(DATED);
      Setup.BothEdits(files, i) == (files[Backup := Utf8(text)][ConfigFile := Utf8(NewSectionText(text))], None)
  {
    DateKeyRaisesAfter();
  }

  // ---------------------------------------------------------------- a date that is replaced

  /** A mapping with a date for a key, under a key that comes again. */
  const REPLACED := ["a" + ":", Spaces(2) + (DATE + (": " + "x")), "a" + (": " + "note")]
  const OUTER := Line(0, Key(Other("a"), None))
  const INNER := Line(2, Key(Other(DATE), Some(Single("x"))))
  const AGAIN := Line(0, Key(Other("a"), Some(Single("note"))))

  lemma {:induction false} ReplacedLexes()
    ensures LexesTo(REPLACED, [OUTER, INNER, AGAIN])
  {
    OuterLexes();
    InnerLexes();
    AgainLexes();
  }

  lemma {:induction false} OuterLexes()
    ensures Lex("a" + ":") == OUTER
  {
    WordsArePlain();
    LexKey(0, "a");
    assert Spaces(0) + ("a" + ":") == "a" + ":";
  }

  lemma {:induction false} InnerLexes()
    ensures Lex(Spaces(2) + (DATE + (": " + "x"))) == INNER
  {
    DateIsKey();
    WordsArePlain();
    LexKeyed(2, DATE, "x");
  }

  lemma {:induction false} AgainLexes()
    ensures Lex("a" + (": " + "note")) == AGAIN
  {
    WordsArePlain();
    LexKeyed(0, "a", "note");
    assert Spaces(0) + ("a" + (": " + "note")) == "a" + (": " + "note");
  }

  lemma {:induction false} ReplacedReads()
    ensures Entries([OUTER, INNER, AGAIN], 0) ==
      Some([Entry(Other("a"), None, [INNER]), Entry(Other("a"), Some(Single("note")), [])])
  {
    var second := Entry(Other("a"), Some(Single("note")), []);
    assert [OUTER, INNER, AGAIN] == [OUTER] + [INNER, AGAIN] && [INNER, AGAIN] == [INNER] + [AGAIN];
    ReadOne(AGAIN, 0);
    ReadStep(INNER, [AGAIN], 0);
    assert [INNER] + [] == [INNER];
    assert Read([INNER, AGAIN], 0) == Reading([INNER], [second]);
    ReadStep(OUTER, [INNER, AGAIN], 0);
    assert [Entry(Other("a"), None, [INNER])] + [second] == [Entry(Other("a"), None, [INNER]), second];
  }

  /** The later value replaces the mapping, and the date with it. */
  lemma {:induction false} ReplacedLoads()
    ensures Once([OUTER, INNER, AGAIN])
    ensures LoadLines([OUTER, INNER, AGAIN]) == Loaded(Object(map[Other("a") := Atom("note")]))
  {
    var first, second := Entry(Other("a"), None, [INNER]), Entry(Other("a"), Some(Single("note")), []);
    ReplacedReads();
    OneEntry(INNER, DATE, "x");
    OneEntry(AGAIN, "a", "note");
    assert INNER in [INNER] && !INNER.content.Item?;
    assert ValueOf(first).Some?;
    assert [first, second][1..] == [second];
    assert map[Other("a") := ValueOf(first).value] + map[Other("a") := Atom("note")] == map[Other("a") := Atom("note")];
    DateIsReal();
    ShortIsNoDate();
    assert forall l <- [OUTER, INNER, AGAIN] :: !CannotConstruct(l);
  }

  lemma {:induction false} ShortIsNoDate()
    ensures !DateShaped("a") && !DateShaped("x") && !DateShaped("note")
  {
    assert |"a"| == 1 && |"x"| == 1 && |"note"| == 4;
  }

  /** A date key that a later key replaces does no harm: the plugin is enabled. */
  lemma {:induction false} ReplacedDateIsDone()
    ensures
      var text := TextOfLines(REPLACED);
      Setup.Enable(Some(Utf8(text)), BLOCK_YAML) ==
        Setup.Edit(Setup.Done, Some(Utf8(NewSectionText(text))), Some(text))
  {
    var v := Object(map[Other("a") := Atom("note")]);
    ReplacedLexes();
    ReplacedLoads();
    ShortIsNoDate();
    assert !HasDateKey(v);
    EndsFor(REPLACED, [OUTER, INNER, AGAIN], v);
  }
}
