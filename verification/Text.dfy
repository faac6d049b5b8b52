/** The parts of the string library that the rest relies on. */
module Text {
  /** White space as `str.strip` sees it. */
  predicate IsSpace(c: char) {
    var n := c as int;
    9 <= n <= 13 || 28 <= n <= 32 || n == 0x85 || n == 0xA0 || n == 0x1680 || 0x2000 <= n <= 0x200A
    || n == 0x2028 || n == 0x2029 || n == 0x202F || n == 0x205F || n == 0x3000
  }

  function StripLeft(s: string, drop: char -> bool): (r: string)
    ensures |r| <= |s| && r == s[|s| - |r|..]
    ensures forall i :: 0 <= i < |s| - |r| ==> drop(s[i])
    ensures r != "" ==> !drop(r[0])
  {
    if s != "" && drop(s[0]) then StripLeft(s[1..], drop) else s
  }

  function StripRight(s: string, drop: char -> bool): (r: string)
    ensures r <= s
    ensures forall i :: |r| <= i < |s| ==> drop(s[i])
    ensures r != "" ==> !drop(r[|r| - 1])
  {
    if s != "" && drop(s[|s| - 1]) then StripRight(s[..|s| - 1], drop) else s
  }

  function Strip(s: string, drop: char -> bool): (r: string)
    ensures forall c <- r :: c in s
    ensures r != "" ==> !drop(r[0]) && !drop(r[|r| - 1])
    ensures r == "" ==> forall c <- s :: drop(c)
  {
    StripRight(StripLeft(s, drop), drop)
  }

  lemma Halves(s: string, k: nat)
    requires k <= |s|
    ensures s == s[..k] + s[k..]
  {
  }

  lemma StripRightTakes(s: string, drop: char -> bool) returns (back: string)
    ensures s == StripRight(s, drop) + back && forall c <- back :: drop(c)
  {
    var k := |StripRight(s, drop)|;
    back := s[k..];
    Halves(s, k);
  }

  /** `kept` is what is left of `s` when everything to drop has been taken off its ends. */
  ghost predicate StrippedTo(s: string, drop: char -> bool, kept: string) {
    && (kept != "" ==> !drop(kept[0]) && !drop(kept[|kept| - 1]))
    && exists front, back :: TakenOff(s, drop, front, kept, back)
  }

  ghost predicate TakenOff(s: string, drop: char -> bool, front: string, kept: string, back: string) {
    s == front + (kept + back) && (forall c <- front :: drop(c)) && forall c <- back :: drop(c)
  }

  /** Stripping gives just that, and there is no other such text. */
  lemma {:induction false} StripIs(s: string, drop: char -> bool, kept: string)
    ensures StrippedTo(s, drop, kept) <==> kept == Strip(s, drop)
  {
    var f, b := StripTakesTheEnds(s, drop);
    assert TakenOff(s, drop, f, Strip(s, drop), b);
    if StrippedTo(s, drop, kept) {
      var front, back :| TakenOff(s, drop, front, kept, back);
      StripsTo(s, drop, front, kept, back);
    }
  }

  lemma {:induction false} StripsTo(s: string, drop: char -> bool, front: string, kept: string, back: string)
    requires TakenOff(s, drop, front, kept, back)
    requires kept != "" ==> !drop(kept[0]) && !drop(kept[|kept| - 1])
    ensures Strip(s, drop) == kept
  {
    if kept == "" {
      assert s == front + back;
      AllOff(s, drop);
    } else {
      assert (kept + back)[0] == kept[0];
      StripLeftOff(front, kept + back, drop);
      StripRightOff(kept, back, drop);
    }
  }

  lemma {:induction false} AllOff(s: string, drop: char -> bool)
    requires forall c <- s :: drop(c)
    ensures StripLeft(s, drop) == ""
  {
    if s != "" { AllOff(s[1..], drop); }
  }

  lemma {:induction false} StripRightOff(kept: string, run: string, drop: char -> bool)
    requires (forall c <- run :: drop(c)) && kept != "" && !drop(kept[|kept| - 1])
    ensures StripRight(kept + run, drop) == kept
  {
    if run == "" {
      assert kept + run == kept;
    } else {
      var n := |run| - 1;
      assert (kept + run)[..|kept + run| - 1] == kept + run[..n] && (kept + run)[|kept + run| - 1] == run[n];
      StripRightOff(kept, run[..n], drop);
    }
  }

  /** What is stripped stood at the two ends. */
  lemma StripTakesTheEnds(s: string, drop: char -> bool) returns (front: string, back: string)
    ensures s == front + (Strip(s, drop) + back)
    ensures (forall c <- front :: drop(c)) && forall c <- back :: drop(c)
  {
    var left := StripLeft(s, drop);
    front := s[..|s| - |left|];
    Halves(s, |s| - |left|);
    back := StripRightTakes(left, drop);
  }

  lemma {:induction false} StripLeftOff(run: string, rest: string, drop: char -> bool)
    requires (forall c <- run :: drop(c)) && (rest == "" || !drop(rest[0]))
    ensures StripLeft(run + rest, drop) == rest
  {
    if run == "" {
      assert run + rest == rest;
    } else {
      assert (run + rest)[1..] == run[1..] + rest;
      StripLeftOff(run[1..], rest, drop);
    }
  }

  /** Stripping stops at the last character that stays, at the latest. */
  lemma {:induction false} StripLeftStops(a: string, drop: char -> bool)
    requires a != "" && !drop(a[|a| - 1])
    ensures StripLeft(a, drop) != "" && StripLeft(a, drop)[|StripLeft(a, drop)| - 1] == a[|a| - 1]
  {
    if drop(a[0]) {
      StripLeftStops(a[1..], drop);
    }
  }

  lemma {:induction false} StripLeftInside(a: string, rest: string, drop: char -> bool)
    requires a != "" && !drop(a[|a| - 1])
    ensures StripLeft(a + rest, drop) == StripLeft(a, drop) + rest
  {
    assert (a + rest)[0] == a[0] && (a + rest)[1..] == a[1..] + rest;
    if drop(a[0]) {
      StripLeftInside(a[1..], rest, drop);
    }
  }

  lemma NothingToStrip(s: string, drop: char -> bool)
    requires s != "" ==> !drop(s[0]) && !drop(s[|s| - 1])
    ensures Strip(s, drop) == s
  {
    var left := StripLeft(s, drop);
    if s != "" {
      assert left == s;
    }
  }

  // ---------------------------------------------------------------- numbers

  function Digit(d: nat): char
    requires d < 10
  {
    '0' + d as char
  }

  function Decimal(n: nat): string {
    if n < 10 then [Digit(n)] else Decimal(n / 10) + [Digit(n % 10)]
  }

  lemma {:induction false} DecimalIsDigits(n: nat)
    ensures Decimal(n) != "" && '-' !in Decimal(n)
    ensures forall c <- Decimal(n) :: '0' <= c <= '9'
  {
    if n >= 10 {
      DecimalIsDigits(n / 10);
    }
  }

  /** The number some digits stand for. */
  function Reads(digits: string): int {
    if digits == "" then 0
    else 10 * Reads(digits[..|digits| - 1]) + (digits[|digits| - 1] as int - '0' as int)
  }

  /** The digits are the number's, and the first is not a zero unless it is the only one. */
  lemma {:induction false} DecimalReads(n: nat)
    ensures (forall c <- Decimal(n) :: '0' <= c <= '9') && Reads(Decimal(n)) == n
    ensures Decimal(n) != "" && (Decimal(n)[0] == '0' <==> n == 0)
  {
    DecimalIsDigits(n);
    if n >= 10 {
      DecimalReads(n / 10);
      var s := Decimal(n);
      assert s[..|s| - 1] == Decimal(n / 10) && s[|s| - 1] == Digit(n % 10);
    }
  }

  lemma {:induction false} DecimalInjective(a: nat, b: nat)
    requires Decimal(a) == Decimal(b)
    ensures a == b
  {
    var s := Decimal(a);
    DecimalIsDigits(a / 10);
    DecimalIsDigits(b / 10);
    if a >= 10 && b >= 10 {
      assert s[..|s| - 1] == Decimal(a / 10) == Decimal(b / 10);
      assert s[|s| - 1] == Digit(a % 10) == Digit(b % 10);
      DecimalInjective(a / 10, b / 10);
    } else if a < 10 && b < 10 {
      assert s[0] == Digit(a) == Digit(b);
    }
  }

  lemma {:induction false} DecimalGrows(a: nat, b: nat)
    requires a <= b
    ensures |Decimal(a)| <= |Decimal(b)|
  {
    if a >= 10 {
      DecimalGrows(a / 10, b / 10);
    }
  }
}
