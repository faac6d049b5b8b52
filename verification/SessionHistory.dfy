/** Which sessions a bounded, least-recently-routed-first table remembers, as a
  * function of the keys routed so far.
  */
module SessionHistory {
  /** A salted hash of the root session id; hashing is taken to be injective. */
  type Key = nat

  function Without(keys: seq<Key>, k: Key): seq<Key> {
    if keys == [] then []
    else (if keys[0] == k then [] else [keys[0]]) + Without(keys[1..], k)
  }

  /** Assign and `move_to_end`. */
  function Touch(keys: seq<Key>, k: Key): seq<Key> {
    Without(keys, k) + [k]
  }

  /** Keep the last `n`. */
  function Trim<T>(s: seq<T>, n: nat): seq<T> {
    if |s| > n then s[|s| - n..] else s
  }

  /** The table's keys after routing `routed`, evicting as it goes. */
  function Remembered(routed: seq<Key>, n: nat): seq<Key> {
    if routed == [] then []
    else Trim(Touch(Remembered(routed[..|routed| - 1], n), routed[|routed| - 1]), n)
  }

  /** All distinct keys, ordered by their last occurrence. */
  function Recency(routed: seq<Key>): seq<Key> {
    if routed == [] then []
    else Touch(Recency(routed[..|routed| - 1]), routed[|routed| - 1])
  }

  function LastIndex(routed: seq<Key>, k: Key): (i: nat)
    requires k in routed
    ensures i < |routed| && routed[i] == k && forall j :: i < j < |routed| ==> routed[j] != k
  {
    if routed[|routed| - 1] == k then |routed| - 1 else LastIndex(routed[..|routed| - 1], k)
  }

  /** Every key's last index, as a map. */
  function Latest(routed: seq<Key>): map<Key, nat> {
    if routed == [] then map[] else Latest(routed[..|routed| - 1])[routed[|routed| - 1] := |routed| - 1]
  }

  lemma {:induction false} LatestIs(routed: seq<Key>, k: Key)
    ensures k in Latest(routed) <==> k in routed
    ensures k in routed ==> Latest(routed)[k] == LastIndex(routed, k)
  {
    if routed != [] {
      var before, last := routed[..|routed| - 1], routed[|routed| - 1];
      assert routed == before + [last];
      LatestIs(before, k);
    }
  }

  lemma LatestOneMore(routed: seq<Key>, k: Key)
    ensures Latest(routed + [k]) == Latest(routed)[k := |routed|]
  {
    assert (routed + [k])[..|routed|] == routed;
  }

  function Keys(s: seq<Key>): set<Key> {
    set k | k in s
  }

  ghost predicate Distinct<T>(s: seq<T>) {
    forall i, j :: 0 <= i < j < |s| ==> s[i] != s[j]
  }

  lemma {:induction false} WithoutIs(keys: seq<Key>, k: Key)
    ensures forall x :: x in Without(keys, k) <==> x in keys && x != k
    ensures Distinct(keys) ==> Distinct(Without(keys, k))
    ensures k !in keys ==> Without(keys, k) == keys
    ensures |Without(keys, k)| <= |keys|
  {
    if keys != [] {
      WithoutIs(keys[1..], k);
      if Distinct(keys) && keys[0] != k {
        var rest := Without(keys[1..], k);
        assert keys[0] !in keys[1..];
        assert forall j :: 0 <= j < |rest| ==> rest[j] != keys[0];
      }
    }
  }

  lemma {:induction false} WithoutConcat(a: seq<Key>, b: seq<Key>, k: Key)
    ensures Without(a + b, k) == Without(a, k) + Without(b, k)
  {
    if a == [] {
      assert a + b == b;
    } else {
      assert (a + b)[1..] == a[1..] + b;
      WithoutConcat(a[1..], b, k);
    }
  }

  lemma {:induction false} WithoutLength(keys: seq<Key>, k: Key)
    requires Distinct(keys)
    ensures |Without(keys, k)| == if k in keys then |keys| - 1 else |keys|
  {
    if keys != [] {
      WithoutLength(keys[1..], k);
      WithoutIs(keys[1..], k);
    }
  }

  lemma {:induction false} RecencyHas(routed: seq<Key>, k: Key)
    ensures k in Recency(routed) <==> k in routed
  {
    if routed != [] {
      var before, last := routed[..|routed| - 1], routed[|routed| - 1];
      assert routed == before + [last];
      RecencyHas(before, k);
      WithoutIs(Recency(before), last);
    }
  }

  lemma {:induction false} RecencyDistinct(routed: seq<Key>)
    ensures Distinct(Recency(routed))
  {
    if routed != [] {
      var before, last := routed[..|routed| - 1], routed[|routed| - 1];
      RecencyDistinct(before);
      WithoutIs(Recency(before), last);
      assert last !in Without(Recency(before), last);
    }
  }

  lemma RecencyIs(routed: seq<Key>)
    ensures Distinct(Recency(routed))
    ensures forall k :: k in Recency(routed) <==> k in routed
  {
    RecencyDistinct(routed);
    forall k ensures k in Recency(routed) <==> k in routed { RecencyHas(routed, k); }
  }

  /** Evicting at every step or once at the end makes no difference. */
  lemma {:induction false} RememberedIsLastOfRecency(routed: seq<Key>, n: nat)
    requires n >= 1
    ensures Remembered(routed, n) == Trim(Recency(routed), n)
  {
    if routed != [] {
      var before := routed[..|routed| - 1];
      RememberedIsLastOfRecency(before, n);
      RecencyIs(before);
      TouchTrimmed(Recency(before), routed[|routed| - 1], n);
    }
  }

  /** Routing one more key, seen from the table. */
  lemma RememberOneMore(routed: seq<Key>, n: nat, key: Key)
    ensures Remembered(routed + [key], n) == Trim(Touch(Remembered(routed, n), key), n)
  {
    assert (routed + [key])[..|routed|] == routed;
  }

  lemma TouchDistinct(keys: seq<Key>, k: Key)
    requires Distinct(keys)
    ensures Distinct(Touch(keys, k))
  {
    WithoutIs(keys, k);
    assert k !in Without(keys, k);
  }

  lemma TouchKeys(keys: seq<Key>, k: Key)
    ensures Keys(Touch(keys, k)) == Keys(keys) + {k}
  {
    WithoutIs(keys, k);
    forall x ensures x in Touch(keys, k) <==> x in keys || x == k {
      assert x in Touch(keys, k) <==> x in Without(keys, k) || x == k;
    }
  }

  lemma {:induction false} RememberedDistinct(routed: seq<Key>, n: nat)
    ensures Distinct(Remembered(routed, n))
  {
    if routed != [] {
      var before, last := routed[..|routed| - 1], routed[|routed| - 1];
      RememberedDistinct(before, n);
      TouchDistinct(Remembered(before, n), last);
    }
  }

  lemma TouchTrimmed(keys: seq<Key>, k: Key, n: nat)
    requires Distinct(keys) && n >= 1
    ensures Trim(Touch(Trim(keys, n), k), n) == Trim(Touch(keys, k), n)
  {
    if |keys| > n {
      var old_, kept := keys[..|keys| - n], keys[|keys| - n..];
      assert keys == old_ + kept;
      WithoutConcat(old_, kept, k);
      WithoutLength(kept, k);
      assert Touch(keys, k) == Without(old_, k) + Touch(kept, k);
      if k in kept {
        assert |Touch(kept, k)| == n;
      } else {
        assert |Touch(kept, k)| == n + 1;
      }
    }
  }

  /** The order of `Recency` is the order of last occurrences. */
  lemma {:induction false} RecencyOrder(routed: seq<Key>, i: nat, j: nat)
    requires i < j < |Recency(routed)|
    ensures Recency(routed)[i] in routed && Recency(routed)[j] in routed
    ensures LastIndex(routed, Recency(routed)[i]) < LastIndex(routed, Recency(routed)[j])
  {
    var before, k := routed[..|routed| - 1], routed[|routed| - 1];
    var r := Recency(routed);
    RecencyIs(before);
    WithoutIs(Recency(before), k);
    assert r[i] in Without(Recency(before), k);
    if j < |r| - 1 {
      assert r[j] in Without(Recency(before), k);
      var a, b := WithoutOrder(Recency(before), k, i, j);
      RecencyOrder(before, a, b);
    }
  }

  lemma {:induction false} WithoutOrder(keys: seq<Key>, k: Key, i: nat, j: nat) returns (a: nat, b: nat)
    requires i < j < |Without(keys, k)|
    ensures a < b < |keys| && keys[a] == Without(keys, k)[i] && keys[b] == Without(keys, k)[j]
  {
    if keys[0] == k {
      a, b := WithoutOrder(keys[1..], k, i, j);
      a, b := a + 1, b + 1;
    } else if i == 0 {
      a := 0;
      b := WithoutAt(keys[1..], k, j - 1);
      b := b + 1;
    } else {
      a, b := WithoutOrder(keys[1..], k, i - 1, j - 1);
      a, b := a + 1, b + 1;
    }
  }

  lemma {:induction false} WithoutAt(keys: seq<Key>, k: Key, j: nat) returns (b: nat)
    requires j < |Without(keys, k)|
    ensures b < |keys| && keys[b] == Without(keys, k)[j]
  {
    if keys[0] == k {
      b := WithoutAt(keys[1..], k, j);
      b := b + 1;
    } else if j == 0 {
      b := 0;
    } else {
      b := WithoutAt(keys[1..], k, j - 1);
      b := b + 1;
    }
  }

  lemma {:induction false} DistinctSize(s: seq<Key>)
    requires Distinct(s)
    ensures |Keys(s)| == |s|
  {
    if s != [] {
      DistinctSize(s[1..]);
      assert Keys(s) == {s[0]} + Keys(s[1..]);
    }
  }

  /** The keys that follow `k` in `Recency` are those routed after `k`'s last occurrence. */
  lemma {:induction false} RecencyTail(routed: seq<Key>, p: nat)
    requires p < |Recency(routed)|
    ensures Recency(routed)[p] in routed
    ensures Keys(Recency(routed)[p + 1..]) == Keys(routed[LastIndex(routed, Recency(routed)[p]) + 1..])
  {
    var r := Recency(routed);
    var k := r[p];
    RecencyIs(routed);
    var last := LastIndex(routed, k);
    var behind, after := r[p + 1..], routed[last + 1..];
    forall x | x in behind ensures x in after {
      var j :| p + 1 <= j < |r| && r[j] == x;
      RecencyOrder(routed, p, j);
      assert after[LastIndex(routed, x) - last - 1] == x;
    }
    forall x | x in after ensures x in behind {
      var j :| last + 1 <= j < |routed| && routed[j] == x;
      assert x in r;
      var q :| 0 <= q < |r| && r[q] == x;
      if q < p { RecencyOrder(routed, q, p); }
      assert behind[q - p - 1] == x;
    }
  }

  /** A session is remembered exactly when fewer than `n` other sessions have been
    * routed since it last was. */
  lemma RememberedIff(routed: seq<Key>, n: nat, k: Key)
    requires n >= 1
    ensures k in Remembered(routed, n)
       <==> k in routed && |Keys(routed[LastIndex(routed, k) + 1..])| < n
  {
    RememberedIsLastOfRecency(routed, n);
    RecencyDistinct(routed);
    RecencyHas(routed, k);
    if k in routed {
      var r := Recency(routed);
      var p :| 0 <= p < |r| && r[p] == k;
      RecencyTail(routed, p);
      DistinctSize(r[p + 1..]);
      InTrim(r, n, p);
    }
  }

  lemma InTrim(s: seq<Key>, n: nat, p: nat)
    requires Distinct(s) && p < |s|
    ensures s[p] in Trim(s, n) <==> |s| - p <= n
  {
    if |s| > n && p >= |s| - n { assert Trim(s, n)[p - (|s| - n)] == s[p]; }
  }
}
