/** Names for candidates picked from a discovery list. */
module CandidateNames {
  import opened Text

  const LIMIT := 64

  predicate Allowed(c: char) {
    'a' <= c <= 'z' || '0' <= c <= '9' || c == '.' || c == '_' || c == '-'
  }

  predicate NotAllowed(c: char) {
    !Allowed(c)
  }

  predicate IsDash(c: char) {
    c == '-'
  }

  predicate WellFormed(name: string) {
    name != "" && forall c <- name :: Allowed(c)
  }

  /** Every maximal run of characters that are not allowed becomes one dash. */
  function Dashed(s: string): (r: string)
    ensures forall c <- r :: Allowed(c)
  {
    if s == "" then ""
    else if Allowed(s[0]) then [s[0]] + Dashed(s[1..])
    else "-" + Dashed(StripLeft(s, NotAllowed))
  }

  lemma {:induction false} DashedKeeps(s: string)
    requires forall c <- s :: Allowed(c)
    ensures Dashed(s) == s
  {
    if s != "" {
      assert s == [s[0]] + s[1..];
      DashedKeeps(s[1..]);
    }
  }

  lemma Regroup(a: string, b: string, c: string)
    ensures a + (b + c) == (a + b) + c
  {
  }

  lemma DashedRunFirst(run: string, b: string)
    requires run != "" && forall c <- run :: !Allowed(c)
    requires b == "" || Allowed(b[0])
    ensures Dashed(run + b) == "-" + Dashed(b)
  {
    assert (run + b)[0] == run[0] && run[0] in run;
    StripLeftOff(run, b, NotAllowed);
  }

  lemma DashedAllowedFirst(a: string, t: string)
    requires a != "" && Allowed(a[0])
    ensures Dashed(a + t) == [a[0]] + Dashed(a[1..] + t)
  {
    assert (a + t)[1..] == a[1..] + t;
  }

  lemma DashedOtherFirst(a: string, t: string)
    requires a != "" && !Allowed(a[0]) && Allowed(a[|a| - 1])
    ensures Dashed(a + t) == "-" + Dashed(StripLeft(a, NotAllowed) + t)
  {
    StripLeftInside(a, t, NotAllowed);
    assert (a + t)[0] == a[0];
  }

  lemma RestIsSmaller(a: string)
    requires a != "" && !Allowed(a[0]) && Allowed(a[|a| - 1])
    ensures var rest := StripLeft(a, NotAllowed);
      0 < |rest| < |a| && Allowed(rest[|rest| - 1])
  {
    StripLeftStops(a, NotAllowed);
  }

  lemma {:induction false} DashedConcat(a: string, t: string)
    requires a == "" || Allowed(a[|a| - 1])
    ensures Dashed(a + t) == Dashed(a) + Dashed(t)
    decreases |a|
  {
    if a == "" {
      assert a + t == t;
    } else if Allowed(a[0]) {
      DashedAllowedFirst(a, t);
      DashedConcat(a[1..], t);
      Regroup([a[0]], Dashed(a[1..]), Dashed(t));
    } else {
      var rest := StripLeft(a, NotAllowed);
      RestIsSmaller(a);
      DashedOtherFirst(a, t);
      DashedConcat(rest, t);
      Regroup("-", Dashed(rest), Dashed(t));
    }
  }

  /** A run of characters that are not allowed, with allowed ones or nothing around it,
    * is one dash, and what is before and after it is dashed on its own. */
  lemma DashedRun(a: string, run: string, b: string)
    requires a == "" || Allowed(a[|a| - 1])
    requires run != "" && forall c <- run :: !Allowed(c)
    requires b == "" || Allowed(b[0])
    ensures Dashed(a + (run + b)) == Dashed(a) + ("-" + Dashed(b))
  {
    DashedConcat(a, run + b);
    DashedRunFirst(run, b);
  }

  /** `lowered` is the provider, a dash and the model, in lower case. */
  function BaseName(lowered: string): string {
    var clean := Strip(Dashed(lowered), IsDash);
    if clean == "" then "candidate" else Upto(clean, LIMIT)
  }

  lemma {:induction false} AllowedAre(c: char)
    ensures Allowed(c) <==> 97 <= c as int <= 122 || 48 <= c as int <= 57 || c in "._-"
  {
    assert "._-"[0] == '.' && "._-"[1] == '_' && "._-"[2] == '-';
  }

  /** The base is the dashed text without the dashes at its ends and cut at 64 characters, or
    * "candidate" if nothing is left of it. */
  lemma {:induction false} BaseIs(lowered: string, clean: string)
    requires StrippedTo(Dashed(lowered), IsDash, clean)
    ensures BaseName(lowered) == if clean == "" then "candidate" else if |clean| <= 64 then clean else clean[..64]
  {
    StripIs(Dashed(lowered), IsDash, clean);
  }

  lemma BaseIsWellFormed(lowered: string)
    ensures var base := BaseName(lowered); WellFormed(base) && |base| <= LIMIT && base[0] != '-'
  {
    var clean := Strip(Dashed(lowered), IsDash);
    if clean != "" {
      assert Upto(clean, LIMIT)[0] == clean[0];
    }
  }

  /** `s[:k]`, where a negative `k` counts from the end. */
  function Upto(s: string, k: int): (r: string)
    ensures r <= s
    ensures k >= 0 ==> |r| <= k
    ensures k > 0 && s != "" ==> r != ""
  {
    if k >= 0 then s[..if k < |s| then k else |s|]
    else s[..if |s| + k > 0 then |s| + k else 0]
  }

  function Ending(n: nat): (s: string)
    ensures |s| == |Decimal(n)| + 1
  {
    "-" + Decimal(n)
  }

  /** The names tried, in order: the base itself, then the base cut short with a
    * dash and 2, 3, ... */
  function Variant(base: string, n: nat): string {
    if n <= 1 then base else CutFor(base, Ending(n))
  }

  function CutFor(base: string, ending: string): string {
    Upto(base, LIMIT - |ending|) + ending
  }

  /** The first variant is the base; the `n`-th is as much of the base as leaves room within 64
    * characters for a dash and the number. */
  lemma {:induction false} VariantIs(base: string, n: nat)
    ensures n <= 1 ==> Variant(base, n) == base
    ensures n >= 2 && |Decimal(n)| <= 63 ==>
      exists cut: nat :: cut <= |base| && Variant(base, n) == base[..cut] + ("-" + Decimal(n))
                         && cut == if |base| <= 63 - |Decimal(n)| then |base| else 63 - |Decimal(n)|
  {
    if n >= 2 && |Decimal(n)| <= 63 {
      var cut := if |base| <= 63 - |Decimal(n)| then |base| else 63 - |Decimal(n)|;
      assert Variant(base, n) == base[..cut] + ("-" + Decimal(n));
    }
  }

  lemma VariantIsWellFormed(base: string, n: nat)
    requires WellFormed(base) && |base| <= LIMIT && n >= 1
    ensures WellFormed(Variant(base, n))
    ensures |Variant(base, n)| <= LIMIT <==> n == 1 || |Decimal(n)| < LIMIT
  {
    DecimalIsDigits(n);
    assert forall c <- Ending(n) :: Allowed(c);
  }

  /** Two numbered names are never the same, however the base had to be cut: what
    * follows the last dash is the number. */
  lemma VariantsDiffer(base: string, m: nat, n: nat)
    requires 2 <= m < n
    ensures Variant(base, m) != Variant(base, n)
  {
    if Variant(base, m) == Variant(base, n) {
      DecimalIsDigits(m);
      DecimalIsDigits(n);
      AfterLastDash(Upto(base, LIMIT - |Ending(m)|), Decimal(m), Upto(base, LIMIT - |Ending(n)|), Decimal(n));
      DecimalInjective(m, n);
    }
  }

  lemma AfterLastDash(a: string, s: string, b: string, t: string)
    requires a + ("-" + s) == b + ("-" + t) && '-' !in s && '-' !in t
    ensures s == t
  {
    var whole := a + ("-" + s);
    assert |a| + |s| == |b| + |t|;
    assert whole[|a|] == '-' && whole[|b|] == '-';
    assert forall i :: |a| < i < |whole| ==> whole[i] == s[i - |a| - 1];
    assert forall i :: |b| < i < |whole| ==> whole[i] == t[i - |b| - 1];
    assert whole[|a| + 1..] == s && whole[|b| + 1..] == t;
  }

  /** The pigeonhole: numbered names that are all taken are that many names. */
  lemma {:induction false} TakenVariants(base: string, n: nat, used: set<string>)
    requires n >= 2
    requires forall m :: 2 <= m < n ==> Variant(base, m) in used
    ensures n - 2 <= |used|
  {
    if n > 2 {
      var last := Variant(base, n - 1);
      forall m | 2 <= m < n - 1 ensures Variant(base, m) in used - {last} {
        VariantsDiffer(base, m, n - 1);
      }
      TakenVariants(base, n - 1, used - {last});
    }
  }

  ghost predicate TakenBelow(base: string, n: nat, used: set<string>)
  {
    forall m :: 1 <= m < n ==> Variant(base, m) in used
  }

  lemma OneMoreTaken(base: string, n: nat, used: set<string>)
    requires n >= 1
    requires TakenBelow(base, n, used) && Variant(base, n) in used
    ensures TakenBelow(base, n + 1, used) && n - 1 <= |used|
  {
    forall m | 1 <= m < n + 1 ensures Variant(base, m) in used {}
    TakenVariants(base, n + 1, used);
  }

  /** The ids given out so far in one configuration session. */
  class UsedNames {
    var used: set<string>

    constructor ()
      ensures used == {}
    {
      used := {};
    }

    /** The first variant that is free. The search ends after at most as many numbered
      * names as there are names in use. */
    method CandidateId(lowered: string) returns (value: string, ghost n: nat)
      modifies this
      ensures 1 <= n <= |old(used)| + 2
      ensures value == Variant(BaseName(lowered), n)
      ensures value !in old(used)
      ensures TakenBelow(BaseName(lowered), n, old(used))
      ensures used == old(used) + {value}
    {
      var base := BaseName(lowered);
      value := base;
      n := 1;
      var suffix := 2;
      while value in used
        invariant used == old(used) && suffix == n + 1 && value == Variant(base, n)
        invariant n <= |used| + 2
        invariant TakenBelow(base, n, used)
        decreases |used| + 2 - n
      {
        OneMoreTaken(base, n, used);
        value := CutFor(base, Ending(suffix));
        suffix, n := suffix + 1, n + 1;
      }
      used := used + {value};
    }
  }

  lemma NameIsStripped(name: string)
    requires WellFormed(name)
    ensures Strip(name, IsSpace) == name
  {
    assert forall c <- name :: !IsSpace(c);
    assert name[0] in name && name[|name| - 1] in name;
    NothingToStrip(name, IsSpace);
  }

  /** Naming every entry of a discovery list, whatever repeats in it, gives pairwise
    * distinct names, each a variant of its own entry's base and at most as far down
    * the variants as there are entries before it, plus two. */
  method NameAll(picked: seq<string>) returns (names: seq<string>, ghost tries: seq<nat>)
    ensures |names| == |tries| == |picked|
    ensures Distinct(names)
    ensures EachItsOwn(picked, names, tries)
  {
    names, tries := [], [];
    var taken := new UsedNames();
    while |names| < |picked|
      invariant |names| == |tries| <= |picked|
      invariant Given(picked, names, tries, taken.used)
    {
      ghost var before := taken.used;
      var name, n := taken.CandidateId(picked[|names|]);
      GivenNext(picked, names, tries, before, name, n);
      names, tries := names + [name], tries + [n];
    }
  }

  /** What has been named so far, and that those names are the ones in use. */
  ghost predicate Given(picked: seq<string>, names: seq<string>, tries: seq<nat>, used: set<string>) {
    && Distinct(names) && EachItsOwn(picked, names, tries)
    && Within(names, used) && |used| <= |names|
  }

  ghost predicate Within<T>(s: seq<T>, all: set<T>) {
    forall x <- s :: x in all
  }

  lemma WithinNext<T>(s: seq<T>, all: set<T>, x: T)
    requires Within(s, all) && |all| <= |s| && x !in all
    ensures Within(s + [x], all + {x}) && |all + {x}| <= |s| + 1 && x !in s
  {
  }

  lemma GivenNext(picked: seq<string>, names: seq<string>, tries: seq<nat>, used: set<string>, name: string, n: nat)
    requires Given(picked, names, tries, used) && |names| < |picked|
    requires name !in used && 1 <= n <= |used| + 2 && name == Variant(BaseName(picked[|names|]), n)
    ensures Given(picked, names + [name], tries + [n], used + {name})
  {
    WithinNext(names, used, name);
    DistinctAppend(names, name);
    EachItsOwnAppend(picked, names, tries, name, n);
  }

  predicate Distinct(names: seq<string>) {
    forall i, j :: 0 <= i < j < |names| ==> names[i] != names[j]
  }

  ghost predicate NthVariant(lowered: string, name: string, n: nat, before: nat) {
    1 <= n <= before + 2 && name == Variant(BaseName(lowered), n)
  }

  ghost predicate EachItsOwn(picked: seq<string>, names: seq<string>, tries: seq<nat>) {
    |names| == |tries| <= |picked|
    && forall i :: 0 <= i < |names| ==> NthVariant(picked[i], names[i], tries[i], i)
  }

  lemma EachItsOwnAppend(picked: seq<string>, names: seq<string>, tries: seq<nat>, name: string, n: nat)
    requires EachItsOwn(picked, names, tries) && |names| < |picked|
    requires NthVariant(picked[|names|], name, n, |names|)
    ensures EachItsOwn(picked, names + [name], tries + [n])
  {
    forall i | 0 <= i < |names| + 1
      ensures NthVariant(picked[i], (names + [name])[i], (tries + [n])[i], i)
    {
      if i < |names| {
        assert (names + [name])[i] == names[i] && (tries + [n])[i] == tries[i];
      }
    }
  }

  /** Such a name is one the configuration takes as it is, and short enough. */
  lemma NthVariantIsUsable(lowered: string, name: string, n: nat, before: nat)
    requires NthVariant(lowered, name, n, before)
    ensures WellFormed(name) && Strip(name, IsSpace) == name
    ensures |Decimal(before + 2)| < LIMIT ==> |name| <= LIMIT
  {
    BaseIsWellFormed(lowered);
    VariantIsWellFormed(BaseName(lowered), n);
    NameIsStripped(name);
    DecimalGrows(n, before + 2);
  }

  lemma DistinctAppend(names: seq<string>, name: string)
    requires Distinct(names) && name !in names
    ensures Distinct(names + [name])
  {
  }
}
