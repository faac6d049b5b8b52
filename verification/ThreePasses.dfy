/** Filling the template by three string replacements in turn, and when that gives what
  * the single pass gives. */
module ThreePasses {
  import opened Options
  import opened Template

  /** `s.replace(t, v)`. */
  function Replace(s: string, t: string, v: string): string
    requires t != ""
    decreases |s|
  {
    if s == "" then ""
    else if t <= s then v + Replace(s[|t|..], t, v)
    else [s[0]] + Replace(s[1..], t, v)
  }

  function InTurn(names: Names, literals: Literals, s: string): string {
    var first := Replace(s, Tag(names, BaseUrl), literals(BaseUrl));
    var second := Replace(first, Tag(names, TokenEnvVar), literals(TokenEnvVar));
    Replace(second, Tag(names, PluginVersion), literals(PluginVersion))
  }

  /** The shape of what `repr` makes of a string: the same quote at both ends, and
    * double ones only around text with a single one and no double one in it. */
  predicate IsRepr(l: string) {
    && |l| >= 2 && l[0] == l[|l| - 1]
    && (l[0] == TICK || (l[0] == QUOTE && QUOTE !in l[1..|l| - 1] && TICK in l[1..|l| - 1]))
  }

  predicate Quoted(l: string) {
    |l| >= 2 && IsQuote(l[0]) && IsQuote(l[|l| - 1])
  }

  ghost predicate AllQuoted(f: Literals) {
    forall p :: Quoted(f(p))
  }

  // ---------------------------------------------------------------- one replacement

  lemma Regroup(a: string, b: string, c: string)
    ensures a + (b + c) == (a + b) + c
  {
  }

  /** An occurrence of `t` lies across the seam. */
  ghost predicate Straddles(x: string, y: string, t: string) {
    exists i :: 0 <= i < |x| && i + |t| > |x| && t <= (x + y)[i..]
  }

  lemma StraddlesTail(x: string, y: string, t: string, n: nat)
    requires n <= |x| && Straddles(x[n..], y, t)
    ensures Straddles(x, y, t)
  {
    var i :| 0 <= i < |x[n..]| && i + |t| > |x[n..]| && t <= (x[n..] + y)[i..];
    assert (x[n..] + y)[i..] == (x + y)[n + i..];
  }

  lemma DropFirst(x: string, y: string, n: nat)
    requires n <= |x|
    ensures (x + y)[n..] == x[n..] + y
  {
  }

  lemma {:induction false} ReplaceConcat(x: string, y: string, t: string, v: string)
    requires t != "" && !Straddles(x, y, t)
    ensures Replace(x + y, t, v) == Replace(x, t, v) + Replace(y, t, v)
    decreases |x|
  {
    if x == "" {
      assert x + y == y;
    } else {
      assert (x + y)[0..] == x + y;
      if t <= x + y {
        DropFirst(x, y, |t|);
        if Straddles(x[|t|..], y, t) { StraddlesTail(x, y, t, |t|); }
        ReplaceConcat(x[|t|..], y, t, v);
        assert t <= x;
        Regroup(v, Replace(x[|t|..], t, v), Replace(y, t, v));
      } else {
        DropFirst(x, y, 1);
        if Straddles(x[1..], y, t) { StraddlesTail(x, y, t, 1); }
        ReplaceConcat(x[1..], y, t, v);
        assert !(t <= x);
        Regroup([x[0]], Replace(x[1..], t, v), Replace(y, t, v));
      }
    }
  }

  lemma ContainsTail(s: string, t: string)
    requires s != "" && Contains(s[1..], t)
    ensures Contains(s, t)
  {
    var i :| 0 <= i <= |s[1..]| && t <= s[1..][i..];
    assert s[1..][i..] == s[i + 1..];
  }

  lemma {:induction false} ReplaceNothing(s: string, t: string, v: string)
    requires t != "" && !Contains(s, t)
    ensures Replace(s, t, v) == s
    decreases |s|
  {
    if s != "" {
      assert s[0..] == s;
      if Contains(s[1..], t) { ContainsTail(s, t); }
      ReplaceNothing(s[1..], t, v);
    }
  }

  lemma ReplaceAll(t: string, v: string)
    requires t != ""
    ensures Replace(t, t, v) == v
  {
    assert t[|t|..] == "";
    assert v + "" == v;
  }

  /** Text without a character that `t` begins with is passed over. */
  lemma {:induction false} ReplaceSkips(x: string, z: string, t: string, v: string)
    requires t != "" && t[0] !in x
    ensures Replace(x + z, t, v) == x + Replace(z, t, v)
  {
    if x == "" {
      assert x + z == z;
    } else {
      DropFirst(x, z, 1);
      assert x == [x[0]] + x[1..];
      ReplaceSkips(x[1..], z, t, v);
      Regroup([x[0]], x[1..], Replace(z, t, v));
    }
  }

  // ---------------------------------------------------------------- one pass over a filled template

  /** No placeholder begins in the template's text, nor with the closing quote of
    * another. */
  ghost predicate Apart(names: Names, tokens: seq<Token>) {
    tokens != [] ==>
      && Apart(names, tokens[1..])
      && match tokens[0]
         case Text(_) => forall r :: !(Tag(names, r) <= Fill(tokens, Tags(names)))
         case Hole(_) => forall r :: !(names(r) + [QUOTE] <= Fill(tokens[1..], Tags(names)))
  }

  lemma SpellsParse(names: Names, s: string)
    ensures Fill(Parse(names, s), Tags(names)) == s
  {
    ParseDecomposes(names, s);
  }

  lemma NoSharedTail(names: Names, s: string, n: nat)
    requires n <= |s| && NoSharedQuotes(names, s)
    ensures NoSharedQuotes(names, s[n..])
  {
    forall i, j, p, q | 0 <= i < j <= |s[n..]| && OccursAt(names, s[n..], i, p) && OccursAt(names, s[n..], j, q)
      ensures i + |Tag(names, p)| <= j
    {
      assert s[n..][i..] == s[n + i..] && s[n..][j..] == s[n + j..];
      assert OccursAt(names, s, n + i, p) && OccursAt(names, s, n + j, q);
    }
  }

  lemma NoNameBehind(names: Names, s: string, p: Placeholder, r: Placeholder)
    requires NoSharedQuotes(names, s) && Tag(names, p) <= s
    ensures !(names(r) + [QUOTE] <= s[|Tag(names, p)|..])
  {
    var n := |Tag(names, p)|;
    if names(r) + [QUOTE] <= s[n..] {
      assert s[n - 1..] == [s[n - 1]] + s[n..] && s[n - 1] == QUOTE;
      assert Tag(names, r) == [QUOTE] + (names(r) + [QUOTE]);
      assert Tag(names, r) <= s[n - 1..];
      assert s[0..] == s;
      assert OccursAt(names, s, 0, p) && OccursAt(names, s, n - 1, r);
    }
  }

  lemma {:induction false} ParseIsApart(names: Names, s: string)
    requires Proper(names) && NoSharedQuotes(names, s)
    ensures Apart(names, Parse(names, s))
    decreases |s|
  {
    if s != "" {
      var m := Match(names, s);
      var n := Stride(names, s);
      NoSharedTail(names, s, n);
      ParseIsApart(names, s[n..]);
      SpellsParse(names, s);
      SpellsParse(names, s[n..]);
      forall r ensures m.None? ==> !(Tag(names, r) <= s) {
        if m.None? { NoTagHere(names, s, r); }
      }
      forall r ensures m.Some? ==> !(names(r) + [QUOTE] <= s[n..]) {
        if m.Some? { NoNameBehind(names, s, m.value, r); }
      }
    }
  }

  /** Letters and a double quote after them are the template's own: literals and tags
    * begin with a quote. */
  lemma {:induction false} LettersAreText(names: Names, tokens: seq<Token>, f: Literals, w: string)
    requires AllQuoted(f)
    requires forall c <- w :: !IsQuote(c)
    requires w + [QUOTE] <= Fill(tokens, f)
    ensures w + [QUOTE] <= Fill(tokens, Tags(names))
  {
    if tokens != [] {
      var x := Chunk(tokens[0], f);
      assert Fill(tokens, f) == x + Fill(tokens[1..], f);
      assert (w + [QUOTE])[0] == x[0];
      if w != "" {
        assert w[0] in w;
        assert tokens[0].Text?;
        assert (w + [QUOTE])[1..] == w[1..] + [QUOTE] && Fill(tokens, f)[1..] == Fill(tokens[1..], f);
        LettersAreText(names, tokens[1..], f, w[1..]);
        assert w + [QUOTE] == [w[0]] + (w[1..] + [QUOTE]);
      }
    }
  }

  lemma TagTail(names: Names, r: Placeholder)
    ensures Tag(names, r)[1..] == names(r) + [QUOTE]
  {
  }

  lemma LastThen(x: string, y: string)
    requires x != ""
    ensures (x + y)[|x| - 1..] == [x[|x| - 1]] + y
  {
  }

  /** A tag across a seam that a quote or a single character is before begins with that
    * character. */
  lemma AcrossTheSeam(names: Names, x: string, y: string, r: Placeholder)
    requires Proper(names) && Straddles(x, y, Tag(names, r)) && (|x| == 1 || IsQuote(x[|x| - 1]))
    ensures x[|x| - 1] == QUOTE && names(r) + [QUOTE] <= y
  {
    var t := Tag(names, r);
    var i :| 0 <= i < |x| && i + |t| > |x| && t <= (x + y)[i..];
    QuotedAtTheEnds(names, r);
    assert t[|x| - 1 - i] == x[|x| - 1];
    assert i == |x| - 1;
    LastThen(x, y);
    TagTail(names, r);
    assert t <= [x[i]] + y;
    assert t[1..] <= ([x[i]] + y)[1..] == y;
  }

  /** Nothing of the kind that `Apart` excludes is there. */
  lemma NoNameAfter(names: Names, tokens: seq<Token>, r: Placeholder)
    requires tokens != [] && Apart(names, tokens) && (tokens[0].Text? ==> tokens[0].c == QUOTE)
    ensures !(names(r) + [QUOTE] <= Fill(tokens[1..], Tags(names)))
  {
    if names(r) + [QUOTE] <= Fill(tokens[1..], Tags(names)) {
      TagBefore(names, r, Fill(tokens[1..], Tags(names)));
      FillHead(tokens, Tags(names));
    }
  }

  lemma NameIsSpelt(names: Names, tokens: seq<Token>, f: Literals, r: Placeholder)
    requires Proper(names) && AllQuoted(f) && names(r) + [QUOTE] <= Fill(tokens, f)
    ensures names(r) + [QUOTE] <= Fill(tokens, Tags(names))
  {
    LettersAreText(names, tokens, f, names(r));
  }

  lemma SeamIsClean(names: Names, tokens: seq<Token>, f: Literals, r: Placeholder)
    requires Proper(names) && tokens != [] && Apart(names, tokens) && AllQuoted(f)
    ensures !Straddles(Chunk(tokens[0], f), Fill(tokens[1..], f), Tag(names, r))
  {
    var x, y := Chunk(tokens[0], f), Fill(tokens[1..], f);
    ChunkEnds(tokens[0], f);
    if Straddles(x, y, Tag(names, r)) {
      AcrossTheSeam(names, x, y, r);
      NameIsSpelt(names, tokens[1..], f, r);
      NoNameAfter(names, tokens, r);
    }
  }

  lemma ChunkEnds(t: Token, f: Literals)
    requires AllQuoted(f)
    ensures
      var x := Chunk(t, f);
      && x != "" && (|x| == 1 || IsQuote(x[|x| - 1]))
      && (t.Text? && x[|x| - 1] == QUOTE ==> t.c == QUOTE)
  {
  }

  lemma TagBefore(names: Names, r: Placeholder, y: string)
    requires names(r) + [QUOTE] <= y
    ensures Tag(names, r) <= [QUOTE] + y
  {
    TagTail(names, r);
  }

  lemma ReplaceShort(c: char, t: string, v: string)
    requires |t| >= 2
    ensures Replace([c], t, v) == [c]
  {
    assert [c][1..] == "";
  }

  /** What a replacement makes of the pieces. */
  ghost predicate PassOf(names: Names, r: Placeholder, v: string, f: Literals, g: Literals) {
    forall p :: g(p) == Replace(f(p), Tag(names, r), v)
  }

  lemma PassHead(names: Names, tokens: seq<Token>, f: Literals, g: Literals, r: Placeholder, v: string)
    requires Proper(names) && tokens != [] && Apart(names, tokens) && AllQuoted(f) && PassOf(names, r, v, f, g)
    ensures
      var t := Tag(names, r);
      Replace(Fill(tokens, f), t, v) == Chunk(tokens[0], g) + Replace(Fill(tokens[1..], f), t, v)
  {
    SeamIsClean(names, tokens, f, r);
    ReplaceConcat(Chunk(tokens[0], f), Fill(tokens[1..], f), Tag(names, r), v);
    if tokens[0].Text? {
      ReplaceShort(tokens[0].c, Tag(names, r), v);
    }
  }

  /** One replacement goes through a filled template piece by piece. */
  lemma {:induction false} PassFills(
    names: Names, tokens: seq<Token>, f: Literals, g: Literals, r: Placeholder, v: string)
    requires Proper(names) && Apart(names, tokens) && AllQuoted(f) && PassOf(names, r, v, f, g)
    ensures Replace(Fill(tokens, f), Tag(names, r), v) == Fill(tokens, g)
  {
    if tokens != [] {
      PassHead(names, tokens, f, g, r, v);
      PassFills(names, tokens[1..], f, g, r, v);
      FillHead(tokens, g);
    }
  }

  lemma FillHead(tokens: seq<Token>, f: Literals)
    requires tokens != []
    ensures Fill(tokens, f) == Chunk(tokens[0], f) + Fill(tokens[1..], f)
  {
  }

  // ---------------------------------------------------------------- what becomes of a literal

  lemma OnlyWhole(l: string, t: string, i: nat)
    requires |l| >= 2 && QUOTE !in l[1..|l| - 1]
    requires |t| >= 2 && t[0] == QUOTE && t[|t| - 1] == QUOTE
    requires i <= |l| && t <= l[i..]
    ensures t == l
  {
    assert forall k :: 1 <= k < |l| - 1 ==> l[k] == l[1..|l| - 1][k - 1];
    assert l[i] == t[0];
    assert l[i + |t| - 1] == t[|t| - 1];
    assert i == 0 && |t| == |l|;
    assert l[0..] == l;
  }

  /** Doubly quoted literals hold no tag: it would have to be all of the literal. */
  lemma DoublyQuotedHoldsNone(names: Names, l: string, r: Placeholder)
    requires Proper(names) && IsRepr(l) && l[0] == QUOTE
    ensures !Contains(l, Tag(names, r))
  {
    var t := Tag(names, r);
    assert names(r) == t[1..|t| - 1];
    if Contains(l, t) {
      var i :| 0 <= i <= |l| && t <= l[i..];
      OnlyWhole(l, t, i);
    }
  }

  predicate Ticked(l: string) {
    |l| >= 2 && l[0] == TICK && l[|l| - 1] == TICK
  }

  lemma NoTickInTag(names: Names, r: Placeholder)
    requires Proper(names)
    ensures TICK !in Tag(names, r)
  {
  }

  lemma SeamChars(x: string, y: string, t: string)
    requires Straddles(x, y, t)
    ensures x != "" && y != "" && x[|x| - 1] in t && y[0] in t
  {
    var i :| 0 <= i < |x| && i + |t| > |x| && t <= (x + y)[i..];
    assert t[|x| - i] == (x + y)[|x|] && t[|x| - 1 - i] == (x + y)[|x| - 1];
  }

  lemma NoSeamAtTick(x: string, y: string, t: string)
    requires TICK !in t && (y == "" || y[0] == TICK || (x != "" && x[|x| - 1] == TICK))
    ensures !Straddles(x, y, t)
  {
    if Straddles(x, y, t) { SeamChars(x, y, t); }
  }

  /** A replacement stays between the single quotes around it. */
  lemma TicksStay(names: Names, l: string, r: Placeholder, v: string)
    requires Proper(names) && Ticked(l)
    ensures Ticked(Replace(l, Tag(names, r), v))
  {
    var t, mid := Tag(names, r), l[1..|l| - 1];
    NoTickInTag(names, r);
    assert l == [TICK] + (mid + [TICK]);
    NoSeamAtTick([TICK], mid + [TICK], t);
    NoSeamAtTick(mid, [TICK], t);
    ReplaceConcat([TICK], mid + [TICK], t, v);
    ReplaceConcat(mid, [TICK], t, v);
    ReplaceShort(TICK, t, v);
  }

  lemma ReplaceKeepsQuotes(names: Names, l: string, r: Placeholder, v: string)
    requires Proper(names) && IsRepr(l)
    ensures Quoted(Replace(l, Tag(names, r), v))
    ensures l[0] == QUOTE ==> Replace(l, Tag(names, r), v) == l
  {
    if l[0] == QUOTE {
      DoublyQuotedHoldsNone(names, l, r);
      ReplaceNothing(l, Tag(names, r), v);
    } else {
      TicksStay(names, l, r, v);
    }
  }

  lemma ReplaceTag(names: Names, p: Placeholder, r: Placeholder, v: string)
    requires Proper(names)
    ensures Replace(Tag(names, p), Tag(names, r), v) == if p == r then v else Tag(names, p)
  {
    var a, t := Tag(names, p), Tag(names, r);
    if p == r {
      ReplaceAll(t, v);
    } else {
      if Contains(a, t) {
        var i :| 0 <= i <= |a| && t <= a[i..];
        QuotedAtTheEnds(names, p);
        assert a[i] == QUOTE;
        assert i == 0;
        assert a[0..] == a;
        OneTagAtMost(names, a, p, r);
      }
      ReplaceNothing(a, t, v);
    }
  }

  /** What the passes after its own make of a literal. */
  function Aftermath(names: Names, literals: Literals, p: Placeholder): string {
    var third := Tag(names, PluginVersion);
    match p
    case BaseUrl =>
      Replace(
        Replace(literals(BaseUrl), Tag(names, TokenEnvVar), literals(TokenEnvVar)), third, literals(PluginVersion))
    case TokenEnvVar => Replace(literals(TokenEnvVar), third, literals(PluginVersion))
    case PluginVersion => literals(PluginVersion)
  }

  /** The pieces after one, two and three passes. */
  function AfterOne(names: Names, literals: Literals): Literals {
    p => if p == BaseUrl then literals(p) else Tag(names, p)
  }

  function AfterTwo(names: Names, literals: Literals): Literals {
    (p: Placeholder) =>
      match p
      case BaseUrl => Replace(literals(p), Tag(names, TokenEnvVar), literals(TokenEnvVar))
      case TokenEnvVar => literals(p)
      case PluginVersion => Tag(names, p)
  }

  function AfterThree(names: Names, literals: Literals): Literals {
    p => Aftermath(names, literals, p)
  }

  lemma StageOne(names: Names, literals: Literals, p: Placeholder)
    requires Proper(names)
    ensures AfterOne(names, literals)(p) == Replace(Tags(names)(p), Tag(names, BaseUrl), literals(BaseUrl))
  {
    ReplaceTag(names, p, BaseUrl, literals(BaseUrl));
  }

  lemma StageTwo(names: Names, literals: Literals, p: Placeholder)
    requires Proper(names)
    ensures AfterTwo(names, literals)(p) ==
      Replace(AfterOne(names, literals)(p), Tag(names, TokenEnvVar), literals(TokenEnvVar))
  {
    ReplaceTag(names, p, TokenEnvVar, literals(TokenEnvVar));
  }

  lemma StageThree(names: Names, literals: Literals, p: Placeholder)
    requires Proper(names)
    ensures AfterThree(names, literals)(p) ==
      Replace(AfterTwo(names, literals)(p), Tag(names, PluginVersion), literals(PluginVersion))
  {
    ReplaceTag(names, p, PluginVersion, literals(PluginVersion));
  }

  lemma StagesAreQuoted(names: Names, literals: Literals, p: Placeholder)
    requires Proper(names) && forall q :: IsRepr(literals(q))
    ensures Quoted(Tags(names)(p)) && Quoted(AfterOne(names, literals)(p)) && Quoted(AfterTwo(names, literals)(p))
  {
    ReplaceKeepsQuotes(names, literals(BaseUrl), TokenEnvVar, literals(TokenEnvVar));
  }

  /** The three passes over a template fill its holes with what becomes of the literals. */
  lemma InTurnFills(names: Names, literals: Literals, tokens: seq<Token>)
    requires Proper(names) && Apart(names, tokens) && forall p :: IsRepr(literals(p))
    ensures InTurn(names, literals, Fill(tokens, Tags(names))) == Fill(tokens, AfterThree(names, literals))
  {
    var f1, f2, f3 := AfterOne(names, literals), AfterTwo(names, literals), AfterThree(names, literals);
    forall p ensures Quoted(Tags(names)(p)) && Quoted(f1(p)) && Quoted(f2(p)) {
      StagesAreQuoted(names, literals, p);
    }
    forall p ensures f1(p) == Replace(Tags(names)(p), Tag(names, BaseUrl), literals(BaseUrl)) {
      StageOne(names, literals, p);
    }
    PassFills(names, tokens, Tags(names), f1, BaseUrl, literals(BaseUrl));
    forall p ensures f2(p) == Replace(f1(p), Tag(names, TokenEnvVar), literals(TokenEnvVar)) {
      StageTwo(names, literals, p);
    }
    PassFills(names, tokens, f1, f2, TokenEnvVar, literals(TokenEnvVar));
    forall p ensures f3(p) == Replace(f2(p), Tag(names, PluginVersion), literals(PluginVersion)) {
      StageThree(names, literals, p);
    }
    PassFills(names, tokens, f2, f3, PluginVersion, literals(PluginVersion));
  }

  // ---------------------------------------------------------------- where the results differ

  predicate Differ(x: string, y: string, k: int) {
    0 <= k < |x| && k < |y| && x[k] != y[k]
  }

  /** They differ before either ends. */
  ghost predicate Disagree(x: string, y: string) {
    exists k :: Differ(x, y, k)
  }

  lemma DisagreeWhateverFollows(x: string, y: string, u: string, v: string)
    requires Disagree(x, y)
    ensures Disagree(x + u, y + v) && x + u != y + v
  {
    var k :| Differ(x, y, k);
    assert Differ(x + u, y + v, k);
  }

  lemma DisagreeBehind(c: char, x: string, y: string)
    requires Disagree(x, y)
    ensures Disagree([c] + x, [c] + y)
  {
    var k :| Differ(x, y, k);
    assert Differ([c] + x, [c] + y, k + 1);
  }

  /** A name and its closing quote cannot be the beginning of a doubly quoted text. */
  lemma {:induction false} NameIsNotText(name: string, inner: string)
    requires QUOTE !in name && TICK !in name && QUOTE !in inner && TICK in inner
    ensures Disagree(name + [QUOTE], inner)
  {
    if name == "" || name[0] != inner[0] {
      assert inner[0] in inner;
      assert Differ(name + [QUOTE], inner, 0);
    } else {
      assert inner == [inner[0]] + inner[1..] && name[0] in name;
      NameIsNotText(name[1..], inner[1..]);
      DisagreeBehind(name[0], name[1..] + [QUOTE], inner[1..]);
      assert name + [QUOTE] == [name[0]] + (name[1..] + [QUOTE]);
    }
  }

  /** The part of a literal that no replacement can reach. */
  function Front(l: string): string
    requires IsRepr(l)
  {
    if l[0] == TICK then [TICK] else l[..|l| - 1]
  }

  lemma TagIsNotFront(names: Names, r: Placeholder, l: string)
    requires Proper(names) && IsRepr(l)
    ensures Disagree(Tag(names, r), Front(l))
  {
    if l[0] == TICK {
      assert Differ(Tag(names, r), Front(l), 0);
    } else {
      var inner := l[1..|l| - 1];
      NameIsNotText(names(r), inner);
      DisagreeBehind(QUOTE, names(r) + [QUOTE], inner);
      assert Tag(names, r) == [QUOTE] + (names(r) + [QUOTE]);
      assert Front(l) == [QUOTE] + inner;
    }
  }

  lemma FrontFirst(l: string)
    requires IsRepr(l)
    ensures |Front(l)| <= |l| && l == Front(l) + l[|Front(l)|..]
  {
  }

  /** A literal, then anything, still begins with its front after a replacement. */
  lemma FrontStays(names: Names, l: string, z: string, r: Placeholder, v: string)
    requires Proper(names) && IsRepr(l)
    ensures Front(l) <= Replace(l + z, Tag(names, r), v)
  {
    var t, back := Tag(names, r), l[|Front(l)|..];
    FrontFirst(l);
    Regroup(Front(l), back, z);
    if l[0] == TICK {
      ReplaceSkips([TICK], back + z, t, v);
    } else {
      var inner := l[1..|l| - 1];
      assert Front(l) == [QUOTE] + inner;
      Regroup([QUOTE], inner, back + z);
      NotAtFront(names, l, z, r);
      var whole := [QUOTE] + (inner + (back + z));
      assert whole[1..] == inner + (back + z);
      ReplaceSkips(inner, back + z, t, v);
    }
  }

  lemma NotAtFront(names: Names, l: string, z: string, r: Placeholder)
    requires Proper(names) && IsRepr(l)
    ensures !(Tag(names, r) <= l + z)
  {
    TagIsNotFront(names, r, l);
    FrontFirst(l);
    assert Front(l) <= l + z;
    DisagreeIsNoPrefix(Tag(names, r), Front(l), l + z);
  }

  lemma DisagreeIsNoPrefix(x: string, y: string, z: string)
    requires Disagree(x, y) && y <= z
    ensures !(x <= z)
  {
    var k :| Differ(x, y, k);
    assert z[k] == y[k];
  }

  lemma FoundAtOnce(names: Names, s: string, r: Placeholder, v: string)
    requires Proper(names) && IsRepr(v) && Tag(names, r) <= s
    ensures Disagree(s, Replace(s, Tag(names, r), v))
  {
    var t := Tag(names, r);
    var rest, back := Replace(s[|t|..], t, v), v[|Front(v)|..];
    TagIsNotFront(names, r, v);
    FrontFirst(v);
    Cut(s, |t|);
    assert s == t + s[|t|..];
    Regroup(Front(v), back, rest);
    assert Replace(s, t, v) == Front(v) + (back + rest);
    DisagreeWhateverFollows(t, Front(v), s[|t|..], back + rest);
  }

  /** A replacement that finds something changes the text for good. */
  lemma {:induction false} FoundIsSeen(names: Names, s: string, r: Placeholder, v: string)
    requires Proper(names) && IsRepr(v) && Contains(s, Tag(names, r))
    ensures Disagree(s, Replace(s, Tag(names, r), v))
    decreases |s|
  {
    var t := Tag(names, r);
    if t <= s {
      FoundAtOnce(names, s, r, v);
    } else {
      assert s != "" by { var i :| 0 <= i <= |s| && t <= s[i..]; }
      ContainsInTail(s, t);
      FoundIsSeen(names, s[1..], r, v);
      DisagreeBehind(s[0], s[1..], Replace(s[1..], t, v));
      assert s == [s[0]] + s[1..];
    }
  }

  lemma Cut(s: string, k: nat)
    requires k <= |s|
    ensures s == s[..k] + s[k..]
  {
  }

  lemma ContainsInTail(s: string, t: string)
    requires s != "" && Contains(s, t) && !(t <= s)
    ensures Contains(s[1..], t)
  {
    var i :| 0 <= i <= |s| && t <= s[i..];
    assert s[0..] == s;
    assert s[1..][i - 1..] == s[i..];
  }

  // ---------------------------------------------------------------- and a second pass over that

  /** Where a first replacement put its literal, a second one finds before it only what
    * was there. */
  lemma NothingNewBefore(names: Names, u: string, v: string, z: string, w: string, r: Placeholder, first: Placeholder)
    requires Proper(names) && IsRepr(v) && u != "" && Tag(names, r) <= u + (v + z)
    ensures Tag(names, r) <= u + (Tag(names, first) + w)
  {
    var t := Tag(names, r);
    QuotedAtTheEnds(names, r);
    if |t| > |u| {
      assert t[|u|] == (u + (v + z))[|u|] == v[0];
      assert |u| == |t| - 1;
      assert t == u + [QUOTE];
      assert (u + (Tag(names, first) + w))[..|t|] == u + [QUOTE];
    } else {
      assert t == (u + (v + z))[..|t|] == u[..|t|];
      assert (u + (Tag(names, first) + w))[..|t|] == u[..|t|];
    }
  }

  lemma NothingBefore(x: string)
    ensures "" + x == x
  {
  }

  lemma LiteralForTag(names: Names, first: Placeholder, v: string, z: string, w: string, r: Placeholder, v2: string)
    requires Proper(names) && IsRepr(v)
    ensures Disagree(Tag(names, first) + w, Replace(v + z, Tag(names, r), v2))
  {
    var after := Replace(v + z, Tag(names, r), v2);
    FrontStays(names, v, z, r, v2);
    TagIsNotFront(names, first, v);
    CutPrefix(after, Front(v));
    DisagreeWhateverFollows(Tag(names, first), Front(v), w, after[|Front(v)|..]);
  }

  lemma CutPrefix(s: string, x: string)
    requires x <= s
    ensures s == x + s[|x|..]
  {
    Cut(s, |x|);
  }

  /** So the first difference stays. */
  lemma {:induction false} SecondIsSeen(
    names: Names, u: string, first: Placeholder, v: string, z: string, w: string, r: Placeholder, v2: string)
    requires Proper(names) && IsRepr(v) && IsRepr(v2)
    ensures Disagree(u + (Tag(names, first) + w), Replace(u + (v + z), Tag(names, r), v2))
    decreases |u|
  {
    var was, now, t := u + (Tag(names, first) + w), u + (v + z), Tag(names, r);
    if u == "" {
      NothingBefore(Tag(names, first) + w);
      NothingBefore(v + z);
      LiteralForTag(names, first, v, z, w, r, v2);
    } else if t <= now {
      NothingNewBefore(names, u, v, z, w, r, first);
      TagThere(names, was, now, r, v2);
    } else {
      assert now[1..] == u[1..] + (v + z) && was == [u[0]] + (u[1..] + (Tag(names, first) + w));
      SecondIsSeen(names, u[1..], first, v, z, w, r, v2);
      DisagreeBehind(u[0], u[1..] + (Tag(names, first) + w), Replace(u[1..] + (v + z), t, v2));
    }
  }

  lemma TagThere(names: Names, was: string, now: string, r: Placeholder, v: string)
    requires Proper(names) && IsRepr(v) && Tag(names, r) <= was && Tag(names, r) <= now
    ensures Disagree(was, Replace(now, Tag(names, r), v))
  {
    var t := Tag(names, r);
    var rest, back := Replace(now[|t|..], t, v), v[|Front(v)|..];
    TagIsNotFront(names, r, v);
    FrontFirst(v);
    Cut(was, |t|);
    Regroup(Front(v), back, rest);
    assert Replace(now, t, v) == Front(v) + (back + rest);
    assert was == t + was[|t|..];
    DisagreeWhateverFollows(t, Front(v), was[|t|..], back + rest);
  }

  /** The first occurrence and what the replacement does from there. */
  lemma {:induction false} FirstFound(s: string, t: string, v: string) returns (u: string, w: string)
    requires t != "" && Contains(s, t)
    ensures s == u + (t + w) && Replace(s, t, v) == u + (v + Replace(w, t, v))
    decreases |s|
  {
    if t <= s {
      u, w := "", s[|t|..];
      CutPrefix(s, t);
      NothingBefore(t + w);
      NothingBefore(v + Replace(w, t, v));
    } else {
      assert s != "" by { var i :| 0 <= i <= |s| && t <= s[i..]; }
      ContainsInTail(s, t);
      u, w := FirstFound(s[1..], t, v);
      FoundLater(s, t, v, u, w);
      u := [s[0]] + u;
    }
  }

  lemma FoundLater(s: string, t: string, v: string, u: string, w: string)
    requires s != "" && t != "" && !(t <= s)
    requires s[1..] == u + (t + w) && Replace(s[1..], t, v) == u + (v + Replace(w, t, v))
    ensures s == [s[0]] + u + (t + w) && Replace(s, t, v) == [s[0]] + u + (v + Replace(w, t, v))
  {
    Cut(s, 1);
    assert s[..1] == [s[0]];
    Regroup([s[0]], u, t + w);
    Regroup([s[0]], u, v + Replace(w, t, v));
  }

  // ---------------------------------------------------------------- the comparison

  /** No placeholder that is replaced later stands in the literal written for `p`. */
  ghost predicate Undisturbed(names: Names, literals: Literals, p: Placeholder) {
    match p
    case BaseUrl =>
      !Contains(literals(p), Tag(names, TokenEnvVar)) && !Contains(literals(p), Tag(names, PluginVersion))
    case TokenEnvVar => !Contains(literals(p), Tag(names, PluginVersion))
    case PluginVersion => true
  }

  lemma AftermathIs(names: Names, literals: Literals, p: Placeholder)
    requires Proper(names) && forall q :: IsRepr(literals(q))
    ensures if Undisturbed(names, literals, p) then Aftermath(names, literals, p) == literals(p)
            else Disagree(literals(p), Aftermath(names, literals, p))
  {
    var l, second, third := literals(p), Tag(names, TokenEnvVar), Tag(names, PluginVersion);
    match p {
      case BaseUrl =>
        if Contains(l, second) {
          var u, w := FirstFound(l, second, literals(TokenEnvVar));
          SecondIsSeen(
            names, u, TokenEnvVar, literals(TokenEnvVar), Replace(w, second, literals(TokenEnvVar)), w,
            PluginVersion, literals(PluginVersion));
        } else {
          ReplaceNothing(l, second, literals(TokenEnvVar));
          ReplacedIs(names, l, PluginVersion, literals(PluginVersion));
        }
      case TokenEnvVar =>
        ReplacedIs(names, l, PluginVersion, literals(PluginVersion));
      case PluginVersion =>
    }
  }

  lemma ReplacedIs(names: Names, l: string, r: Placeholder, v: string)
    requires Proper(names) && IsRepr(v)
    ensures if Contains(l, Tag(names, r)) then Disagree(l, Replace(l, Tag(names, r), v))
            else Replace(l, Tag(names, r), v) == l
  {
    if Contains(l, Tag(names, r)) {
      FoundIsSeen(names, l, r, v);
    } else {
      ReplaceNothing(l, Tag(names, r), v);
    }
  }

  lemma {:induction false} FillsAgreeIff(tokens: seq<Token>, f: Literals, g: Literals)
    requires forall p :: f(p) == g(p) || Disagree(f(p), g(p))
    ensures Fill(tokens, f) == Fill(tokens, g) <==> forall p :: Hole(p) in tokens ==> f(p) == g(p)
  {
    if tokens != [] {
      FillsAgreeIff(tokens[1..], f, g);
      assert tokens == [tokens[0]] + tokens[1..];
      FillHead(tokens, f);
      FillHead(tokens, g);
      match tokens[0] {
        case Text(c) =>
          SameFront([c], Fill(tokens[1..], f), Fill(tokens[1..], g));
          assert forall p :: Hole(p) in tokens <==> Hole(p) in tokens[1..];
        case Hole(p) =>
          assert forall q :: Hole(q) in tokens <==> q == p || Hole(q) in tokens[1..];
          if f(p) == g(p) {
            SameFront(f(p), Fill(tokens[1..], f), Fill(tokens[1..], g));
          } else {
            DisagreeWhateverFollows(f(p), g(p), Fill(tokens[1..], f), Fill(tokens[1..], g));
            DisagreeMeansUnequal(Fill(tokens, f), Fill(tokens, g));
          }
      }
    }
  }

  lemma SameFront(x: string, y: string, z: string)
    ensures x + y == x + z <==> y == z
  {
    if x + y == x + z {
      assert (x + y)[|x|..] == y && (x + z)[|x|..] == z;
    }
  }

  lemma DisagreeMeansUnequal(x: string, y: string)
    requires Disagree(x, y)
    ensures x != y
  {
  }

  /** Three replacements in turn give what the single pass gives exactly when no literal
    * written for a placeholder of the template holds one that is replaced later -
    * provided no two placeholders of the template share a quote. */
  lemma InTurnIsOneIff(names: Names, literals: Literals, s: string)
    requires Proper(names) && NoSharedQuotes(names, s) && forall p :: IsRepr(literals(p))
    ensures InTurn(names, literals, s) == Substitute(names, literals, s) <==>
      forall p :: Contains(s, Tag(names, p)) ==> Undisturbed(names, literals, p)
  {
    var tokens, after := Parse(names, s), AfterThree(names, literals);
    ParseDecomposes(names, s);
    SubstituteFills(names, literals, s, tokens);
    SpellsParse(names, s);
    ParseIsApart(names, s);
    InTurnFills(names, literals, tokens);
    forall p
      ensures literals(p) == after(p) || Disagree(literals(p), after(p))
      ensures literals(p) == after(p) <==> Undisturbed(names, literals, p)
      ensures Hole(p) in tokens <==> Contains(s, Tag(names, p))
    {
      AftermathIs(names, literals, p);
      if !Undisturbed(names, literals, p) { DisagreeMeansUnequal(literals(p), after(p)); }
      GuardedIffSubstituted(names, s, p);
    }
    FillsAgreeIff(tokens, literals, after);
  }

  // ---------------------------------------------------------------- where quotes are shared

  function ShortName(p: Placeholder): string {
    match p
    case BaseUrl => "B"
    case TokenEnvVar => "T"
    case PluginVersion => "V"
  }

  function ShortLiteral(p: Placeholder): string {
    match p
    case BaseUrl => "\"'\""
    case TokenEnvVar => "'t'"
    case PluginVersion => "'v'"
  }

  lemma {:induction false} ReplaceInShort(x: string, t: string, v: string)
    requires |x| < |t|
    ensures Replace(x, t, v) == x
    decreases |x|
  {
    if x != "" {
      ReplaceInShort(x[1..], t, v);
      Cut(x, 1);
    }
  }

  lemma ReplaceFront(t: string, x: string, v: string)
    requires |x| < |t|
    ensures Replace(t + x, t, v) == v + x
  {
    assert (t + x)[|t|..] == x;
    ReplaceInShort(x, t, v);
  }

  const SHARED := "\"B\"T\""

  lemma FirstPassIs()
    ensures Replace(SHARED, Tag(ShortName, BaseUrl), ShortLiteral(BaseUrl)) == "\"'\"T\""
  {
    assert SHARED == Tag(ShortName, BaseUrl) + "T\"";
    ReplaceFront(Tag(ShortName, BaseUrl), "T\"", ShortLiteral(BaseUrl));
  }

  lemma SecondPassIs()
    ensures Replace("\"'\"T\"", Tag(ShortName, TokenEnvVar), ShortLiteral(TokenEnvVar)) == "\"''t'"
  {
    var t, v := Tag(ShortName, TokenEnvVar), ShortLiteral(TokenEnvVar);
    var s := "\"'\"T\"";
    assert s[1..] == "'\"T\"" && s[1..][1..] == t;
    ReplaceFront(t, "", v);
    assert t + "" == t && v + "" == v;
    assert s[0] == QUOTE && s[1] == TICK && t[1] == 'T';
  }

  lemma ThirdPassIs()
    ensures Replace("\"''t'", Tag(ShortName, PluginVersion), ShortLiteral(PluginVersion)) == "\"''t'"
  {
    var t, v := Tag(ShortName, PluginVersion), ShortLiteral(PluginVersion);
    var s := "\"''t'";
    forall i | 0 <= i <= |s|
      ensures !(t <= s[i..])
    {
      if i + |t| <= |s| { assert s[i..][2] == s[i + 2] != QUOTE; }
    }
    ReplaceNothing(s, t, v);
  }

  lemma SinglePassIs()
    ensures Substitute(ShortName, ShortLiteral, SHARED) == "\"'\"T\""
  {
    assert SHARED[3..] == "T\"" && "T\""[1..] == "\"" && "\""[1..] == "";
    assert Substitute(ShortName, ShortLiteral, "\"") == "\"" + "";
    assert Substitute(ShortName, ShortLiteral, "T\"") == "T\"";
    assert Tag(ShortName, BaseUrl) <= SHARED;
  }

  lemma SameLength(s: string, t: string)
    requires |s| == |t|
    ensures Contains(s, t) <==> s == t
  {
    assert s[0..] == s;
  }

  lemma ShortOnesAreFine()
    ensures Proper(ShortName) && forall p :: IsRepr(ShortLiteral(p)) && Undisturbed(ShortName, ShortLiteral, p)
  {
    assert ShortLiteral(BaseUrl)[1] == TICK;
    forall p, q
      ensures !Contains(ShortLiteral(p), Tag(ShortName, q))
    {
      SameLength(ShortLiteral(p), Tag(ShortName, q));
      assert ShortLiteral(p)[1] != Tag(ShortName, q)[1];
    }
  }

  /** With a shared quote, the edge of a literal can complete a placeholder: no literal
    * holds one, and still the two ways differ. */
  lemma EdgeMakesATag()
    ensures Proper(ShortName) && forall p :: IsRepr(ShortLiteral(p)) && Undisturbed(ShortName, ShortLiteral, p)
    ensures InTurn(ShortName, ShortLiteral, SHARED) != Substitute(ShortName, ShortLiteral, SHARED)
  {
    ShortOnesAreFine();
    FirstPassIs();
    SecondPassIs();
    ThirdPassIs();
    SinglePassIs();
  }
}
