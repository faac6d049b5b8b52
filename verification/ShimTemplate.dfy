/** Templates laid out as the installed one is: placeholders between texts that hold none
  * of their names. Rendering such a template, and that its placeholders share no quotes. */
module ShimTemplate {
  import opened Options
  import opened Template

  /** None of the three names stands in the text. */
  ghost predicate Nameless(names: Names, x: string) {
    forall p :: !Contains(x, names(p))
  }

  /** Some text and the placeholder behind it. */
  datatype Segment = Segment(text: string, p: Placeholder)

  /** The segments with something written for their placeholders, and what comes last. */
  function Laid(segments: seq<Segment>, last: string, literals: Literals): string {
    if segments == [] then last
    else segments[0].text + (literals(segments[0].p) + Laid(segments[1..], last, literals))
  }

  ghost predicate AllNameless(names: Names, segments: seq<Segment>, last: string) {
    Nameless(names, last) && forall s <- segments :: Nameless(names, s.text)
  }

  /** The text begins with a quote if it is not empty. */
  predicate Quotes(y: string) {
    y == "" || y[0] == QUOTE
  }

  lemma {:induction false} ContainsDrop(x: string, i: nat, t: string)
    requires i <= |x| && Contains(x[i..], t)
    ensures Contains(x, t)
  {
    var j :| 0 <= j <= |x[i..]| && t <= x[i..][j..];
    assert x[i..][j..] == x[i + j..];
  }

  lemma {:induction false} NamelessTail(names: Names, x: string, i: nat)
    requires Nameless(names, x) && i <= |x|
    ensures Nameless(names, x[i..])
  {
    forall p ensures !Contains(x[i..], names(p)) {
      if Contains(x[i..], names(p)) { ContainsDrop(x, i, names(p)); }
    }
  }

  /** A name and a quote at the beginning: then the name stands in what comes before the
    * first quote of the rest. */
  lemma {:induction false} NameThere(names: Names, x: string, y: string, p: Placeholder)
    requires Proper(names) && Quotes(y) && names(p) + [QUOTE] <= x + y
    ensures Contains(x, names(p))
  {
    var n, z := names(p), x + y;
    forall k | 0 <= k < |n| ensures z[k] != QUOTE {
      assert z[k] == (n + [QUOTE])[k] == n[k] && n[k] in n;
    }
    assert |n| < |z|;
    if y != "" { assert z[|x|] == QUOTE; }
    assert x[..|n|] == z[..|n|] == n && x[0..] == x;
  }

  lemma {:induction false} TagThere(names: Names, x: string, y: string, p: Placeholder)
    requires Proper(names) && x != "" && Quotes(y) && Tag(names, p) <= x + y
    ensures Contains(x, names(p))
  {
    assert (x + y)[1..] == x[1..] + y && Tag(names, p)[1..] == names(p) + [QUOTE];
    assert Tag(names, p)[1..] <= (x + y)[1..];
    NameThere(names, x[1..], y, p);
    ContainsDrop(x, 1, names(p));
  }

  /** No placeholder begins within such a text. */
  lemma {:induction false} NoTagThere(names: Names, x: string, y: string, p: Placeholder)
    requires Proper(names) && x != "" && Nameless(names, x) && Quotes(y)
    ensures !(Tag(names, p) <= x + y)
  {
    if Tag(names, p) <= x + y { TagThere(names, x, y, p); }
  }

  lemma {:induction false} SubstituteSkips(names: Names, literals: Literals, x: string, y: string)
    requires Proper(names) && Nameless(names, x) && Quotes(y)
    ensures Substitute(names, literals, x + y) == x + Substitute(names, literals, y)
    decreases |x|
  {
    if x == "" {
      assert x + y == y;
    } else {
      forall p ensures !(Tag(names, p) <= x + y) { NoTagThere(names, x, y, p); }
      assert Match(names, x + y).None?;
      NamelessTail(names, x, 1);
      SubstituteSkips(names, literals, x[1..], y);
      assert (x + y)[0] == x[0] && (x + y)[1..] == x[1..] + y;
      assert [x[0]] + (x[1..] + Substitute(names, literals, y)) == x + Substitute(names, literals, y);
    }
  }

  lemma {:induction false} SubstituteFirst(names: Names, literals: Literals, p: Placeholder, z: string)
    requires Proper(names)
    ensures Substitute(names, literals, Tag(names, p) + z) == literals(p) + Substitute(names, literals, z)
  {
    var s := Tag(names, p) + z;
    MatchIs(names, s, p);
    assert s[|Tag(names, p)|..] == z;
  }

  lemma {:induction false} LaidTail(names: Names, segments: seq<Segment>, last: string)
    requires AllNameless(names, segments, last) && segments != []
    ensures AllNameless(names, segments[1..], last) && Nameless(names, segments[0].text)
  {
    assert segments[0] in segments;
    assert forall s <- segments[1..] :: s in segments;
  }

  /** One pass writes every literal in its place, and touches nothing else. */
  lemma {:induction false} SubstituteLaid(names: Names, literals: Literals, segments: seq<Segment>, last: string)
    requires Proper(names) && AllNameless(names, segments, last)
    ensures Substitute(names, literals, Laid(segments, last, Tags(names))) == Laid(segments, last, literals)
    decreases |segments|
  {
    if segments == [] {
      SubstituteSkips(names, literals, last, "");
      assert last + "" == last;
    } else {
      var rest := Laid(segments[1..], last, Tags(names));
      LaidTail(names, segments, last);
      SubstituteLaid(names, literals, segments[1..], last);
      SubstituteSkips(names, literals, segments[0].text, Tag(names, segments[0].p) + rest);
      SubstituteFirst(names, literals, segments[0].p, rest);
    }
  }

  lemma {:induction false} PlaceholderThere(names: Names, segments: seq<Segment>, last: string, k: nat)
    requires k < |segments|
    ensures Contains(Laid(segments, last, Tags(names)), Tag(names, segments[k].p))
  {
    var x, t := segments[0].text, Tag(names, segments[0].p);
    var rest := Laid(segments[1..], last, Tags(names));
    if k == 0 {
      assert (t + rest)[0..] == t + rest;
      assert Contains(t + rest, t);
    } else {
      PlaceholderThere(names, segments[1..], last, k - 1);
      assert segments[1..][k - 1] == segments[k];
      ContainsBehind(t, rest, Tag(names, segments[k].p));
    }
    ContainsBehind(x, t + rest, Tag(names, segments[k].p));
  }

  lemma {:induction false} ContainsBehind(x: string, y: string, t: string)
    requires Contains(y, t)
    ensures Contains(x + y, t)
  {
    var i :| 0 <= i <= |y| && t <= y[i..];
    assert (x + y)[|x| + i..] == y[i..];
  }

  // ---------------------------------------------------------------- no quote is shared

  /** Where a placeholder can occur in a text, a placeholder and the rest. */
  lemma {:induction false} OccursWhere(
    names: Names, x: string, q: Placeholder, x1: string, y1: string, i: nat, p: Placeholder)
    requires Proper(names) && Nameless(names, x) && Nameless(names, x1) && Quotes(y1)
    requires OccursAt(names, x + (Tag(names, q) + (x1 + y1)), i, p)
    ensures i == |x| || i >= |x| + |Tag(names, q)|
    ensures i == |x| ==> p == q
  {
    var t, z := Tag(names, q), x1 + y1;
    var s := x + (t + z);
    if i < |x| {
      NamelessTail(names, x, i);
      assert s[i..] == x[i..] + (t + z);
      NoTagThere(names, x[i..], t + z, p);
    } else if i == |x| {
      assert s[i..] == t + z;
      OneTagAtMost(names, s[i..], p, q);
    } else if i < |x| + |t| {
      assert s[i..] == (t + z)[i - |x|..];
      WithinTag(names, t, z, i - |x|, q, p);
      NameThere(names, x1, y1, p);
    }
  }

  /** A placeholder that begins within another begins with its closing quote. */
  lemma {:induction false} WithinTag(names: Names, t: string, z: string, k: nat, q: Placeholder, p: Placeholder)
    requires Proper(names) && t == Tag(names, q) && 0 < k < |t| && Tag(names, p) <= (t + z)[k..]
    ensures names(p) + [QUOTE] <= z
  {
    var u := Tag(names, p);
    assert (t + z)[k] == u[0] == QUOTE && t[k] == QUOTE;
    forall m | 1 <= m < |t| - 1 ensures t[m] != QUOTE {
      assert t[m] == names(q)[m - 1] && names(q)[m - 1] in names(q);
    }
    assert (t + z)[k..][1..] == z && u[1..] == names(p) + [QUOTE];
    assert u[1..] <= (t + z)[k..][1..];
  }

  lemma {:induction false} LastIsPlain(names: Names, last: string, i: nat, p: Placeholder)
    requires Proper(names) && Nameless(names, last) && i <= |last|
    ensures !OccursAt(names, last, i, p)
  {
    if i < |last| {
      NamelessTail(names, last, i);
      NoTagThere(names, last[i..], "", p);
      assert last[i..] + "" == last[i..];
    }
  }

  /** What follows a placeholder: a text without names, and perhaps another placeholder. */
  lemma {:induction false} Following(names: Names, segments: seq<Segment>, last: string) returns (x: string, y: string)
    requires AllNameless(names, segments, last)
    ensures Laid(segments, last, Tags(names)) == x + y && Nameless(names, x) && Quotes(y)
  {
    if segments == [] {
      x, y := last, "";
      assert last + "" == last;
    } else {
      LaidTail(names, segments, last);
      x, y := segments[0].text, Tag(names, segments[0].p) + Laid(segments[1..], last, Tags(names));
    }
  }

  lemma {:induction false} LaidSharesNoQuotes(names: Names, segments: seq<Segment>, last: string)
    requires Proper(names) && AllNameless(names, segments, last)
    ensures NoSharedQuotes(names, Laid(segments, last, Tags(names)))
    decreases |segments|
  {
    var s := Laid(segments, last, Tags(names));
    if segments == [] {
      forall i, p | 0 <= i <= |s| ensures !OccursAt(names, s, i, p) {
        LastIsPlain(names, last, i, p);
      }
    } else {
      LaidTail(names, segments, last);
      LaidSharesNoQuotes(names, segments[1..], last);
      var x1, y1 := Following(names, segments[1..], last);
      forall i, j, p, q | 0 <= i < j <= |s| && OccursAt(names, s, i, p) && OccursAt(names, s, j, q)
        ensures i + |Tag(names, p)| <= j
      {
        OccursWhere(names, segments[0].text, segments[0].p, x1, y1, i, p);
        OccursWhere(names, segments[0].text, segments[0].p, x1, y1, j, q);
        if i > |segments[0].text| {
          InRest(names, segments[0].text, segments[0].p, x1 + y1, i, p);
          InRest(names, segments[0].text, segments[0].p, x1 + y1, j, q);
        }
      }
    }
  }

  lemma {:induction false} InRest(names: Names, x: string, q: Placeholder, z: string, i: nat, p: Placeholder)
    requires OccursAt(names, x + (Tag(names, q) + z), i, p) && i >= |x| + |Tag(names, q)|
    ensures OccursAt(names, z, i - |x| - |Tag(names, q)|, p)
  {
    var n := |x| + |Tag(names, q)|;
    assert (x + (Tag(names, q) + z))[i..] == z[i - n..];
  }

  // ---------------------------------------------------------------- the installed layout

  /** Each placeholder once, in this order. */
  function Shim(before: string, second: string, third: string): seq<Segment> {
    [Segment(before, BaseUrl), Segment(second, TokenEnvVar), Segment(third, PluginVersion)]
  }

  /** The shim that is written: the template's own text, with each literal in place of its
    * placeholder. Rendering it is never refused. */
  lemma {:induction false} ShimIs(names: Names, literals: Literals, before: string, second: string, third: string, last: string)
    requires Proper(names) && Nameless(names, before) && Nameless(names, second) && Nameless(names, third)
    requires Nameless(names, last)
    ensures
      Render(names, literals, Laid(Shim(before, second, third), last, Tags(names))) ==
      Some(before + (literals(BaseUrl) + (second + (literals(TokenEnvVar) + (third + (literals(PluginVersion) + last))))))
    ensures NoSharedQuotes(names, Laid(Shim(before, second, third), last, Tags(names)))
  {
    var segments := Shim(before, second, third);
    forall p ensures Contains(Laid(segments, last, Tags(names)), Tag(names, p)) {
      match p
      case BaseUrl => PlaceholderThere(names, segments, last, 0);
      case TokenEnvVar => PlaceholderThere(names, segments, last, 1);
      case PluginVersion => PlaceholderThere(names, segments, last, 2);
    }
    SubstituteLaid(names, literals, segments, last);
    LaidSharesNoQuotes(names, segments, last);
    ThreeSegments(before, second, third, last, literals);
  }

  lemma {:induction false} ThreeSegments(before: string, second: string, third: string, last: string, literals: Literals)
    ensures Laid(Shim(before, second, third), last, literals) ==
      before + (literals(BaseUrl) + (second + (literals(TokenEnvVar) + (third + (literals(PluginVersion) + last)))))
  {
    var segments := Shim(before, second, third);
    assert segments[1..] == [Segment(second, TokenEnvVar), Segment(third, PluginVersion)];
    assert segments[1..][1..] == [Segment(third, PluginVersion)] && segments[1..][1..][1..] == [];
    assert Laid([], last, literals) == last;
    assert Laid([Segment(third, PluginVersion)], last, literals) == third + (literals(PluginVersion) + last);
    assert Laid(segments[1..], last, literals) ==
      second + (literals(TokenEnvVar) + (third + (literals(PluginVersion) + last)));
  }
}
