/** Filling in the installed module's template. */
module Template {
  import opened Options

  datatype Placeholder = BaseUrl | TokenEnvVar | PluginVersion

  const QUOTE := '"'
  const TICK := '\''

  predicate IsQuote(c: char) {
    c == QUOTE || c == TICK
  }

  /** What a placeholder is called, and the literal each value is written as. */
  type Names = Placeholder -> string

  type Literals = Placeholder -> string

  /** What matters about the names: none is empty or has a quote of either kind in it,
    * and no two are alike. */
  ghost predicate Proper(names: Names) {
    && (forall p :: names(p) != "" && QUOTE !in names(p) && TICK !in names(p))
    && (forall p, q :: names(p) == names(q) ==> p == q)
  }

  /** A placeholder as the template holds it, quotes included. */
  function Tag(names: Names, p: Placeholder): (t: string)
    ensures |t| == |names(p)| + 2 && t[0] == QUOTE && t[|t| - 1] == QUOTE
  {
    [QUOTE] + names(p) + [QUOTE]
  }

  function Tags(names: Names): Literals {
    p => Tag(names, p)
  }

  /** The alternation, tried at the beginning of `s`. */
  function Match(names: Names, s: string): (r: Option<Placeholder>)
    ensures r.Some? ==> Tag(names, r.value) <= s
  {
    if Tag(names, BaseUrl) <= s then Some(BaseUrl)
    else if Tag(names, TokenEnvVar) <= s then Some(TokenEnvVar)
    else if Tag(names, PluginVersion) <= s then Some(PluginVersion)
    else None
  }

  lemma NoTagHere(names: Names, s: string, p: Placeholder)
    requires Match(names, s).None?
    ensures !(Tag(names, p) <= s)
  {
    match p case BaseUrl => case TokenEnvVar => case PluginVersion =>
  }

  lemma QuotedAtTheEnds(names: Names, p: Placeholder)
    requires Proper(names)
    ensures forall k :: 1 <= k < |Tag(names, p)| - 1 ==> !IsQuote(Tag(names, p)[k])
  {
    assert forall k :: 1 <= k < |Tag(names, p)| - 1 ==> Tag(names, p)[k] == names(p)[k - 1];
  }

  /** The order of the alternation does not matter. */
  lemma OneTagAtMost(names: Names, s: string, p: Placeholder, q: Placeholder)
    requires Proper(names) && Tag(names, p) <= s && Tag(names, q) <= s
    ensures p == q
  {
    var a, b := Tag(names, p), Tag(names, q);
    QuotedAtTheEnds(names, p);
    QuotedAtTheEnds(names, q);
    assert s[|a| - 1] == a[|a| - 1] && s[|b| - 1] == b[|b| - 1];
    assert |a| == |b|;
    assert names(p) == a[1..|a| - 1] && names(q) == b[1..|b| - 1];
  }

  /** One pass over the template: what is inserted is never looked at again. */
  function Substitute(names: Names, literals: Literals, s: string): string
    decreases |s|
  {
    if s == "" then ""
    else
      var m := Match(names, s);
      if m.Some? then literals(m.value) + Substitute(names, literals, s[|Tag(names, m.value)|..])
      else [s[0]] + Substitute(names, literals, s[1..])
  }

  predicate Contains(s: string, t: string) {
    exists i :: 0 <= i <= |s| && t <= s[i..]
  }

  /** Refused if a placeholder is missing from the template altogether. */
  function Render(names: Names, literals: Literals, s: string): Option<string> {
    if forall p | p in [BaseUrl, TokenEnvVar, PluginVersion] :: Contains(s, Tag(names, p))
    then Some(Substitute(names, literals, s))
    else None
  }

  // ---------------------------------------------------------------- segments

  datatype Token = Text(c: char) | Hole(p: Placeholder)

  /** Text with something written into its holes. */
  function Fill(tokens: seq<Token>, literals: Literals): string {
    if tokens == [] then ""
    else (match tokens[0] case Text(c) => [c] case Hole(p) => literals(p)) + Fill(tokens[1..], literals)
  }

  /** A decomposition of a template that leaves no placeholder standing in its text:
    * where a character is taken as text, no placeholder begins. */
  ghost predicate Decomposes(names: Names, tokens: seq<Token>, s: string) {
    && Fill(tokens, Tags(names)) == s
    && (tokens != [] ==>
      match tokens[0]
      case Text(c) => Match(names, s).None? && Decomposes(names, tokens[1..], s[1..])
      case Hole(p) => Decomposes(names, tokens[1..], s[|Tag(names, p)|..]))
  }

  function Parse(names: Names, s: string): seq<Token>
    decreases |s|
  {
    if s == "" then []
    else
      var m := Match(names, s);
      if m.Some? then [Hole(m.value)] + Parse(names, s[|Tag(names, m.value)|..])
      else [Text(s[0])] + Parse(names, s[1..])
  }

  /** What one token stands for. */
  function Chunk(t: Token, literals: Literals): string {
    match t case Text(c) => [c] case Hole(p) => literals(p)
  }

  lemma FillCons(t: Token, tokens: seq<Token>, literals: Literals)
    ensures Fill([t] + tokens, literals) == Chunk(t, literals) + Fill(tokens, literals)
  {
    assert ([t] + tokens)[1..] == tokens;
  }

  lemma DecomposesCons(names: Names, t: Token, tokens: seq<Token>, s: string)
    requires s != "" && (t.Hole? ==> Tag(names, t.p) <= s)
    requires t.Text? ==> t.c == s[0] && Match(names, s).None?
    requires Decomposes(names, tokens, s[|Chunk(t, Tags(names))|..])
    ensures Decomposes(names, [t] + tokens, s)
  {
    FillCons(t, tokens, Tags(names));
    var n := |Chunk(t, Tags(names))|;
    assert s == s[..n] + s[n..] && s[..n] == Chunk(t, Tags(names));
    assert ([t] + tokens)[1..] == tokens;
  }

  lemma {:induction false} ParseDecomposes(names: Names, s: string)
    ensures Decomposes(names, Parse(names, s), s)
    decreases |s|
  {
    if s != "" {
      var m := Match(names, s);
      var t := if m.Some? then Hole(m.value) else Text(s[0]);
      var rest := s[|Chunk(t, Tags(names))|..];
      ParseDecomposes(names, rest);
      DecomposesCons(names, t, Parse(names, rest), s);
    }
  }

  /** The rendered text is the template's own text with every hole filled by that
    * placeholder's literal. Where the holes are depends on the template alone, so no
    * value, whatever it looks like, can change what becomes of another. */
  lemma {:induction false} SubstituteFills(names: Names, literals: Literals, s: string, tokens: seq<Token>)
    requires Proper(names) && Decomposes(names, tokens, s)
    ensures Substitute(names, literals, s) == Fill(tokens, literals)
    decreases |tokens|
  {
    if tokens != [] {
      match tokens[0] {
        case Text(c) =>
          SubstituteFills(names, literals, s[1..], tokens[1..]);
        case Hole(p) =>
          assert Tag(names, p) <= s;
          OneTagAtMost(names, s, p, Match(names, s).value);
          SubstituteFills(names, literals, s[|Tag(names, p)|..], tokens[1..]);
      }
    }
  }

  // ---------------------------------------------------------------- the guard

  predicate OccursAt(names: Names, s: string, i: nat, p: Placeholder) {
    i <= |s| && Tag(names, p) <= s[i..]
  }

  lemma MatchIs(names: Names, s: string, p: Placeholder)
    requires Proper(names)
    ensures Match(names, s) == Some(p) <==> Tag(names, p) <= s
  {
    if Tag(names, p) <= s {
      if Match(names, s).None? {
        NoTagHere(names, s, p);
      } else {
        OneTagAtMost(names, s, p, Match(names, s).value);
      }
    }
  }

  /** A placeholder stands free at `i` if no free one ends on its opening quote. */
  ghost predicate FreeAt(names: Names, s: string, i: nat)
    requires i <= |s|
    decreases i
  {
    && Match(names, s[i..]).Some?
    && forall q ::
      var j := i + 1 - |Tag(names, q)|;
      0 <= j < i && OccursAt(names, s, j, q) ==> !FreeAt(names, s, j)
  }

  /** Every free placeholder that begins before `k` has ended by `k`. */
  ghost predicate Over(names: Names, s: string, k: nat)
    requires k <= |s|
  {
    forall j, q :: 0 <= j < k && OccursAt(names, s, j, q) && FreeAt(names, s, j) ==> j + |Tag(names, q)| <= k
  }

  /** How far the scan moves at the beginning of `s`. */
  function Stride(names: Names, s: string): (n: nat)
    requires s != ""
    ensures 1 <= n <= |s|
  {
    var m := Match(names, s);
    if m.Some? then |Tag(names, m.value)| else 1
  }

  lemma FreeWhereScanned(names: Names, s: string, k: nat)
    requires Proper(names) && k < |s| && Over(names, s, k)
    ensures FreeAt(names, s, k) <==> Match(names, s[k..]).Some?
  {
  }

  /** A placeholder that begins within another begins with that one's closing quote. */
  lemma OverlapsByAQuote(names: Names, s: string, i: nat, j: nat, p: Placeholder, q: Placeholder)
    requires Proper(names) && i < j < i + |Tag(names, p)|
    requires OccursAt(names, s, i, p) && OccursAt(names, s, j, q)
    ensures j == i + |Tag(names, p)| - 1
  {
    QuotedAtTheEnds(names, p);
    assert s[i..][j - i] == s[j] == s[j..][0] == QUOTE;
    assert Tag(names, p)[j - i] == QUOTE;
  }

  lemma NotFreeWithin(names: Names, s: string, k: nat, j: nat, p: Placeholder, q: Placeholder)
    requires Proper(names) && k < j < k + |Tag(names, p)| && j <= |s|
    requires OccursAt(names, s, k, p) && OccursAt(names, s, j, q) && FreeAt(names, s, k)
    ensures !FreeAt(names, s, j)
  {
    OverlapsByAQuote(names, s, k, j, p, q);
    assert j + 1 - |Tag(names, p)| == k;
  }

  lemma OverNext(names: Names, s: string, k: nat)
    requires Proper(names) && k < |s| && Over(names, s, k)
    ensures k + Stride(names, s[k..]) <= |s| && Over(names, s, k + Stride(names, s[k..]))
  {
    var m := Match(names, s[k..]);
    var n := k + Stride(names, s[k..]);
    FreeWhereScanned(names, s, k);
    forall j, q | 0 <= j < n && OccursAt(names, s, j, q) && FreeAt(names, s, j) ensures j + |Tag(names, q)| <= n {
      if j == k {
        OneTagAtMost(names, s[k..], q, m.value);
      } else if k < j {
        NotFreeWithin(names, s, k, j, m.value, q);
      }
    }
  }

  lemma NoneSkipped(names: Names, s: string, k: nat, i: nat, p: Placeholder)
    requires Proper(names) && k < |s| && Over(names, s, k) && k < i <= |s|
    requires OccursAt(names, s, i, p) && FreeAt(names, s, i)
    ensures k + Stride(names, s[k..]) <= i
  {
    FreeWhereScanned(names, s, k);
    if Match(names, s[k..]).Some? && i < k + Stride(names, s[k..]) {
      NotFreeWithin(names, s, k, i, Match(names, s[k..]).value, p);
    }
  }

  lemma {:induction false} ScannedIffFree(names: Names, s: string, k: nat, p: Placeholder)
    requires Proper(names) && k <= |s| && Over(names, s, k)
    ensures Hole(p) in Parse(names, s[k..]) <==> exists i :: k <= i <= |s| && OccursAt(names, s, i, p) && FreeAt(names, s, i)
    decreases |s| - k
  {
    if k < |s| {
      var n := k + Stride(names, s[k..]);
      OverNext(names, s, k);
      ScannedIffFree(names, s, n, p);
      FreeWhereScanned(names, s, k);
      MatchIs(names, s[k..], p);
      assert s[k..][n - k..] == s[n..] && s[k..][0] == s[k];
      if i :| k <= i <= |s| && OccursAt(names, s, i, p) && FreeAt(names, s, i) {
        if i > k {
          NoneSkipped(names, s, k, i, p);
        }
      }
    } else {
      assert s[k..] == "";
    }
  }

  /** For every template: a placeholder is substituted exactly if it stands free
    * somewhere. */
  lemma SubstitutedIffFree(names: Names, s: string, p: Placeholder)
    requires Proper(names)
    ensures Hole(p) in Parse(names, s) <==> exists i :: 0 <= i <= |s| && OccursAt(names, s, i, p) && FreeAt(names, s, i)
  {
    ScannedIffFree(names, s, 0, p);
    assert s[0..] == s;
  }

  /** Two placeholders never share a quote. */
  ghost predicate NoSharedQuotes(names: Names, s: string) {
    forall i, j, p, q | 0 <= i < j <= |s| && OccursAt(names, s, i, p) && OccursAt(names, s, j, q) ::
      i + |Tag(names, p)| <= j
  }

  /** Where that is so the guard is right. */
  lemma GuardedIffSubstituted(names: Names, s: string, p: Placeholder)
    requires Proper(names) && NoSharedQuotes(names, s)
    ensures Hole(p) in Parse(names, s) <==> Contains(s, Tag(names, p))
  {
    SubstitutedIffFree(names, s, p);
    if Contains(s, Tag(names, p)) {
      var i :| 0 <= i <= |s| && Tag(names, p) <= s[i..];
      MatchIs(names, s[i..], p);
      assert OccursAt(names, s, i, p) && FreeAt(names, s, i);
    }
    if i :| 0 <= i <= |s| && OccursAt(names, s, i, p) && FreeAt(names, s, i) {
      assert Tag(names, p) <= s[i..];
    }
  }

  /** That is so exactly if none of nine texts is in the template: a placeholder whose
    * closing quote is followed by a name and another quote. */
  lemma UnsharedIff(names: Names, s: string)
    requires Proper(names)
    ensures NoSharedQuotes(names, s) <==> forall p, q :: !Contains(s, Tag(names, p) + (names(q) + [QUOTE]))
  {
    if NoSharedQuotes(names, s) {
      forall p, q ensures !Contains(s, Tag(names, p) + (names(q) + [QUOTE])) {
        if Contains(s, Tag(names, p) + (names(q) + [QUOTE])) {
          SharedThere(names, s, p, q);
        }
      }
    }
    if forall p, q :: !Contains(s, Tag(names, p) + (names(q) + [QUOTE])) {
      forall i, j, p, q | 0 <= i < j <= |s| && OccursAt(names, s, i, p) && OccursAt(names, s, j, q)
        ensures i + |Tag(names, p)| <= j
      {
        if j < i + |Tag(names, p)| {
          OverlapsByAQuote(names, s, i, j, p, q);
          Overlapped(names, s, i, p, q);
        }
      }
    }
  }

  lemma SharedThere(names: Names, s: string, p: Placeholder, q: Placeholder)
    requires Contains(s, Tag(names, p) + (names(q) + [QUOTE]))
    ensures !NoSharedQuotes(names, s)
  {
    var both := Tag(names, p) + (names(q) + [QUOTE]);
    var i :| 0 <= i <= |s| && both <= s[i..];
    var j := i + |Tag(names, p)| - 1;
    TagOverlaps(names, p, q);
    assert s[j..] == s[i..][j - i..] && both[j - i..] <= s[i..][j - i..];
    assert OccursAt(names, s, i, p) && OccursAt(names, s, j, q);
  }

  lemma TagOverlaps(names: Names, p: Placeholder, q: Placeholder)
    ensures var both := Tag(names, p) + (names(q) + [QUOTE]);
      both[|Tag(names, p)| - 1..] == Tag(names, q)
  {
  }

  lemma Overlapped(names: Names, s: string, i: nat, p: Placeholder, q: Placeholder)
    requires OccursAt(names, s, i, p) && OccursAt(names, s, i + |Tag(names, p)| - 1, q)
    ensures Contains(s, Tag(names, p) + (names(q) + [QUOTE]))
  {
    var a, b := Tag(names, p), Tag(names, q);
    var j := i + |a| - 1;
    assert s[j..] == s[i..][|a| - 1..];
    assert names(q) + [QUOTE] == b[1..];
    assert a + b[1..] <= s[i..];
  }

  /** Rendering: refused exactly if some placeholder is not in the template; otherwise
    * every free placeholder is filled, and nothing else is touched. */
  lemma RenderIs(names: Names, literals: Literals, s: string)
    requires Proper(names)
    ensures Render(names, literals, s) ==
      if forall p :: Contains(s, Tag(names, p)) then Some(Fill(Parse(names, s), literals)) else None
  {
    forall p ensures p in [BaseUrl, TokenEnvVar, PluginVersion] {
      match p case BaseUrl => case TokenEnvVar => case PluginVersion =>
    }
    ParseDecomposes(names, s);
    SubstituteFills(names, literals, s, Parse(names, s));
  }

  /** The guard can pass and a placeholder still be left standing. */
  lemma GuardIsNotEnough(names: Names)
    requires Proper(names)
    ensures
      var s := Tag(names, BaseUrl) + names(TokenEnvVar) + [QUOTE] + Tag(names, PluginVersion);
      && Contains(s, Tag(names, BaseUrl)) && Contains(s, Tag(names, TokenEnvVar)) && Contains(s, Tag(names, PluginVersion))
      && Hole(TokenEnvVar) !in Parse(names, s)
  {
    var a, b, c := Tag(names, BaseUrl), names(TokenEnvVar) + [QUOTE], Tag(names, PluginVersion);
    var s := a + names(TokenEnvVar) + [QUOTE] + c;
    assert s == a + (b + c) && s[|a|..] == b + c && s[0..] == s;
    assert s[|a| - 1..] == Tag(names, TokenEnvVar) + c;
    assert s[|a| + |b|..] == c;
    OneTagAtMost(names, s, BaseUrl, Match(names, s).value);
    PlainThenTag(names, b);
  }

  /** Text in which quotes come only at the end parses as plain text. */
  lemma {:induction false} PlainThenTag(names: Names, b: string)
    requires Proper(names)
    requires b == "" || (b[|b| - 1] == QUOTE && QUOTE !in b[..|b| - 1])
    ensures Hole(TokenEnvVar) !in Parse(names, b + Tag(names, PluginVersion))
    decreases |b|
  {
    var t := Tag(names, PluginVersion);
    var s := b + t;
    if b == "" {
      assert s == t;
      OneTagAtMost(names, s, PluginVersion, Match(names, s).value);
      assert s[|t|..] == "";
    } else {
      assert s[1..] == b[1..] + t;
      if |b| > 1 {
        assert b[0] in b[..|b| - 1];
        assert b[1..][..|b| - 2] == b[..|b| - 1][1..];
      }
      PlainThenTag(names, b[1..]);
    }
  }

  // ---------------------------------------------------------------- the names themselves

  function NameOf(p: Placeholder): string {
    match p
    case BaseUrl => "__HERMES_AUTO_BASE_URL__"
    case TokenEnvVar => "__HERMES_AUTO_TOKEN_ENV_VAR__"
    case PluginVersion => "__HERMES_AUTO_PLUGIN_VERSION__"
  }

  lemma NameHasNoQuotes(p: Placeholder)
    ensures QUOTE !in NameOf(p) && TICK !in NameOf(p)
  {
    match p case BaseUrl => case TokenEnvVar => case PluginVersion =>
  }

  lemma NamesAreProper()
    ensures Proper(NameOf)
  {
    assert |NameOf(BaseUrl)| == 24 && |NameOf(TokenEnvVar)| == 29 && |NameOf(PluginVersion)| == 30;
    forall p ensures QUOTE !in NameOf(p) && TICK !in NameOf(p) {
      NameHasNoQuotes(p);
    }
  }
}
