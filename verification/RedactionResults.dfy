/** What stands in a record, entry by entry and value by value, in terms of the event alone. */
module RedactionResults {
  import opened Options
  import opened Redaction

  ghost predicate Banned(folded: string) {
    folded in {"messages", "content", "prompt", "tool_calls", "tool_result", "tool_output",
               "arguments", "authorization", "api_key", "token", "secret"}
  }

  ghost predicate SessionId(folded: string) {
    folded == "root_session_id" || folded == "session_id"
  }

  /** The key can be shown, and is shown as `name`: itself, or at most 64 characters of its text. */
  ghost predicate Called(key: Key, name: string) {
    match key
    case Name(text) => name == text
    case OtherKey(Shown(text)) => name <= text && (name == text || |name| == 64) && |name| <= 64
    case OtherKey(Broken(_)) => false
  }

  ghost predicate Passes(env: Env, entry: (Key, Value), name: string) {
    Called(entry.0, name) && !Banned(env.fold(name)) && !SessionId(env.fold(name))
  }

  ghost predicate HashedTo(env: Env, entry: (Key, Value), digest: string) {
    entry.1.Str? && env.digest(entry.1.text) == Hex(digest)
    && exists name :: Called(entry.0, name) && SessionId(env.fold(name))
  }

  ghost predicate DroppedAs(env: Env, entry: (Key, Value), name: string) {
    Called(entry.0, name) &&
    (Banned(env.fold(name)) || (SessionId(env.fold(name)) && (!entry.1.Str? || env.digest(entry.1.text).Unavailable?)))
  }

  ghost predicate ThrowsItself(env: Env, entry: (Key, Value), kind: string) {
    entry.0 == OtherKey(Broken(kind)) ||
    (entry.1.Str? && env.digest(entry.1.text) == Raises(kind)
     && exists name :: Called(entry.0, name) && SessionId(env.fold(name)))
  }

  lemma {:induction false} CalledIsNameOf(key: Key, name: string)
    ensures Called(key, name) <==> !(key.OtherKey? && key.repr.Broken?) && name == NameOf(key)
  {
  }

  lemma {:induction false} FatesAre(env: Env, entry: (Key, Value))
    ensures forall name :: Passes(env, entry, name) <==> FateOf(env, entry) == Kept && name == NameOf(entry.0)
    ensures forall d :: HashedTo(env, entry, d) <==> FateOf(env, entry) == Hashed(d)
    ensures forall name :: DroppedAs(env, entry, name) <==> FateOf(env, entry) == Dropped && name == NameOf(entry.0)
    ensures forall kind :: ThrowsItself(env, entry, kind) <==> FateOf(env, entry) == Thrown(kind)
  {
    var name := NameOf(entry.0);
    forall n ensures Called(entry.0, n) <==> !(entry.0.OtherKey? && entry.0.repr.Broken?) && n == name {
      CalledIsNameOf(entry.0, n);
    }
    assert Banned(env.fold(name)) <==> env.fold(name) in BANNED_KEYS;
    assert SessionId(env.fold(name)) <==> env.fold(name) in SESSION_ID_KEYS;
  }

  // ---------------------------------------------------------------- the fields of a mapping

  /** Some entry of the mapping is dropped. */
  ghost predicate DropsSome(env: Env, entries: seq<(Key, Value)>) {
    exists i, name :: 0 <= i < |entries| && DroppedAs(env, entries[i], name)
  }

  /** The entry writes the field `name` of the result. */
  ghost predicate WritesTo(env: Env, entry: (Key, Value), name: string) {
    Passes(env, entry, name) || (name == "root_session_hash" && exists d :: HashedTo(env, entry, d))
  }

  /** Entry `i` is the last to write `name`. */
  ghost predicate LastTo(env: Env, entries: seq<(Key, Value)>, i: nat, name: string) {
    i < |entries| && WritesTo(env, entries[i], name)
    && forall j :: i < j < |entries| ==> !WritesTo(env, entries[j], name)
  }

  lemma {:induction false} WritesAre(env: Env, entry: (Key, Value), name: string)
    ensures WritesTo(env, entry, name) <==> Writes(env, entry) == Some(name)
  {
    FatesAre(env, entry);
    assert FateOf(env, entry).Hashed? ==> HashedTo(env, entry, FateOf(env, entry).digest);
  }

  lemma {:induction false} DropsAre(env: Env, entries: seq<(Key, Value)>)
    ensures DropsSome(env, entries) <==> Drops(env, entries)
  {
    forall i | 0 <= i < |entries|
      ensures FateOf(env, entries[i]).Dropped? <==> exists name :: DroppedAs(env, entries[i], name)
    {
      FatesAre(env, entries[i]);
      assert FateOf(env, entries[i]).Dropped? ==> DroppedAs(env, entries[i], NameOf(entries[i].0));
    }
  }

  lemma {:induction false} LastIs(env: Env, entries: seq<(Key, Value)>, i: nat, name: string)
    requires LastTo(env, entries, i, name)
    ensures LastWriter(env, entries, name) == Some(i)
  {
    LastWriterIs(env, entries, name);
    forall j | 0 <= j < |entries| ensures WritesTo(env, entries[j], name) <==> Writes(env, entries[j]) == Some(name) {
      WritesAre(env, entries[j], name);
    }
  }

  /** What a mapping becomes. */
  function FieldsOf(env: Env, h: Heap, entries: seq<(Key, Value)>, depth: nat, seen: set<Ref>): seq<(string, Tree)>
    requires depth <= MAX_DEPTH
  {
    Finish(h, entries, Entries(env, h, entries, depth, seen))
  }

  /** Of the session ids in a mapping the last one that has a digest leaves it, and nothing
    * else of itself, unless an entry of that very name comes later. */
  lemma {:induction false} SessionIdIsHashed(
    env: Env, h: Heap, entries: seq<(Key, Value)>, depth: nat, seen: set<Ref>, i: nat, digest: string)
    requires Sane(env) && depth <= 12
    requires LastTo(env, entries, i, "root_session_hash") && HashedTo(env, entries[i], digest)
    ensures Lookup(FieldsOf(env, h, entries, depth, seen), "root_session_hash") == Some(Text(digest))
  {
    LastIs(env, entries, i, "root_session_hash");
    FatesAre(env, entries[i]);
    FinishLookup(env, h, entries, depth, seen, "root_session_hash");
    assert SESSION_HASH_KEY == "root_session_hash";
    assert REDACTED_KEY[0] == '_' && SESSION_HASH_KEY[0] == 'r';
  }

  /** Of the entries that pass under one name the last one leaves what its own value becomes
    * one level down, unless a session id's digest comes later or the list of drops takes its
    * place. */
  lemma {:induction false} OthersAreKept(
    env: Env, h: Heap, entries: seq<(Key, Value)>, depth: nat, seen: set<Ref>, i: nat, name: string)
    requires depth <= 12 && LastTo(env, entries, i, name) && Passes(env, entries[i], name)
    requires name == "_redacted" ==> !DropsSome(env, entries)
    ensures Lookup(FieldsOf(env, h, entries, depth, seen), name)
      == Some(RedactNode(env, h, entries[i].1, depth + 1, seen))
  {
    LastIs(env, entries, i, name);
    FatesAre(env, entries[i]);
    DropsAre(env, entries);
    FinishLookup(env, h, entries, depth, seen, name);
  }

  /** No other field comes into the result. */
  lemma {:induction false} NothingElse(
    env: Env, h: Heap, entries: seq<(Key, Value)>, depth: nat, seen: set<Ref>, name: string)
    requires depth <= 12
    ensures Lookup(FieldsOf(env, h, entries, depth, seen), name).Some? <==>
      (name == "_redacted" && DropsSome(env, entries)) || exists i :: 0 <= i < |entries| && WritesTo(env, entries[i], name)
  {
    FinishLookup(env, h, entries, depth, seen, name);
    DropsAre(env, entries);
    SomeWriter(env, entries, name);
  }

  lemma {:induction false} SomeWriter(env: Env, entries: seq<(Key, Value)>, name: string)
    ensures LastWriter(env, entries, name).Some? <==> exists i :: 0 <= i < |entries| && WritesTo(env, entries[i], name)
  {
    LastWriterIs(env, entries, name);
    var last := LastWriter(env, entries, name);
    if last.Some? {
      WritesAre(env, entries[last.value], name);
    } else if i :| 0 <= i < |entries| && WritesTo(env, entries[i], name) {
      WritesAre(env, entries[i], name);
    }
  }

  // ---------------------------------------------------------------- the list of what was dropped

  /** `ks` are indices below `n`, going up. */
  ghost predicate Upward(ks: seq<nat>, n: nat) {
    (forall a, b :: 0 <= a < b < |ks| ==> ks[a] < ks[b]) && forall a :: 0 <= a < |ks| ==> ks[a] < n
  }

  /** The names of the dropped entries, in the order of the entries. */
  ghost predicate DropsInOrder(env: Env, entries: seq<(Key, Value)>, names: seq<string>, ks: seq<nat>) {
    && Upward(ks, |entries|) && |names| == |ks|
    && (forall a :: 0 <= a < |ks| ==> DroppedAs(env, entries[ks[a]], names[a]))
    && (forall i, name :: 0 <= i < |entries| && DroppedAs(env, entries[i], name) ==> i in ks)
  }

  /** The strings among some values, in their order. */
  ghost predicate StringsInOrder(values: seq<Value>, names: seq<string>, ks: seq<nat>) {
    && Upward(ks, |values|) && |names| == |ks|
    && (forall a :: 0 <= a < |ks| ==> values[ks[a]] == Str(names[a]))
    && (forall i :: 0 <= i < |values| && values[i].Str? ==> i in ks)
  }

  /** `once` has each name of `all`, where it first stands there. */
  ghost predicate OnceEach(all: seq<string>, once: seq<string>, ks: seq<nat>) {
    && Upward(ks, |all|) && |once| == |ks|
    && (forall a :: 0 <= a < |ks| ==> once[a] == all[ks[a]] && all[ks[a]] !in all[..ks[a]])
    && (forall i :: 0 <= i < |all| ==> all[i] in once)
  }

  lemma {:induction false} DroppedNames(env: Env, h: Heap, entries: seq<(Key, Value)>, depth: nat, seen: set<Ref>)
    returns (ks: seq<nat>)
    requires depth <= MAX_DEPTH
    ensures DropsInOrder(env, entries, Entries(env, h, entries, depth, seen).dropped, ks)
  {
    if entries == [] {
      ks := [];
    } else {
      var n := |entries| - 1;
      ks := DroppedNames(env, h, entries[..n], depth, seen);
      FatesAre(env, entries[n]);
      var before := Entries(env, h, entries[..n], depth, seen).dropped;
      if FateOf(env, entries[n]).Dropped? {
        DropsMore(env, entries, before, ks, NameOf(entries[n].0));
        ks := ks + [n];
      } else {
        DropsNoMore(env, entries, before, ks);
      }
    }
  }

  lemma {:induction false} DropsMore(env: Env, entries: seq<(Key, Value)>, names: seq<string>, ks: seq<nat>, name: string)
    requires entries != [] && DropsInOrder(env, entries[..|entries| - 1], names, ks)
    requires DroppedAs(env, entries[|entries| - 1], name)
    ensures DropsInOrder(env, entries, names + [name], ks + [|entries| - 1])
  {
    var n := |entries| - 1;
    var more := ks + [n];
    assert n in more && forall i :: i in ks ==> i in more;
    assert forall i :: 0 <= i < n ==> entries[..n][i] == entries[i];
  }

  lemma {:induction false} DropsNoMore(env: Env, entries: seq<(Key, Value)>, names: seq<string>, ks: seq<nat>)
    requires entries != [] && DropsInOrder(env, entries[..|entries| - 1], names, ks)
    requires var last := entries[|entries| - 1]; forall name :: !DroppedAs(env, last, name)
    ensures DropsInOrder(env, entries, names, ks)
  {
    var n := |entries| - 1;
    assert forall i :: 0 <= i < n ==> entries[..n][i] == entries[i];
  }

  lemma {:induction false} StringsJoin(a: seq<Value>, b: seq<Value>)
    ensures Strings(a + b) == Strings(a) + Strings(b)
  {
    if a == [] {
      assert a + b == b;
    } else {
      var first := if a[0].Str? then [a[0].text] else [];
      assert (a + b)[0] == a[0] && (a + b)[1..] == a[1..] + b;
      StringsJoin(a[1..], b);
      Joined(first, Strings(a[1..]), Strings(b));
    }
  }

  lemma Joined<T>(a: seq<T>, b: seq<T>, c: seq<T>)
    ensures a + (b + c) == a + b + c
  {
  }

  lemma {:induction false} StringsAre(values: seq<Value>) returns (ks: seq<nat>)
    ensures StringsInOrder(values, Strings(values), ks)
  {
    if values == [] {
      ks := [];
    } else {
      var n := |values| - 1;
      ks := StringsAre(values[..n]);
      StringsJoin(values[..n], [values[n]]);
      assert values[..n] + [values[n]] == values && Strings([]) == [];
      assert forall i :: 0 <= i < n ==> values[..n][i] == values[i];
      if values[n].Str? {
        var more := ks + [n];
        assert forall i :: i in ks ==> i in more;
        assert n in more;
        ks := more;
      }
    }
  }

  lemma {:induction false} MergeEnd(all: seq<string>, n: nat)
    requires n < |all|
    ensures Merge([], all[..n + 1]) ==
      if all[n] in Merge([], all[..n]) then Merge([], all[..n]) else Merge([], all[..n]) + [all[n]]
  {
    var so_far := Merge([], all[..n]);
    MergeConcat([], all[..n], [all[n]]);
    assert all[..n] + [all[n]] == all[..n + 1];
    assert [all[n]][1..] == [];
    assert Merge(so_far, [all[n]]) == Merge(if all[n] in so_far then so_far else so_far + [all[n]], []);
  }

  lemma {:induction false} MergedIsOnce(all: seq<string>) returns (ks: seq<nat>)
    ensures OnceEach(all, Merge([], all), ks)
  {
    if all == [] {
      ks := [];
    } else {
      var n := |all| - 1;
      ks := MergedIsOnce(all[..n]);
      ks := MergedMore(all[..n], all[n], Merge([], all[..n]), ks);
      assert all[..n] + [all[n]] == all;
    }
  }

  lemma {:induction false} MergedMore(all: seq<string>, x: string, once: seq<string>, ks: seq<nat>) returns (ls: seq<nat>)
    requires once == Merge([], all) && OnceEach(all, once, ks)
    ensures OnceEach(all + [x], Merge([], all + [x]), ls)
  {
    MergeEnd(all + [x], |all|);
    assert (all + [x])[..|all|] == all && (all + [x])[..|all| + 1] == all + [x];
    MergeHas([], all, x);
    OneMore(all, x, once, ks);
    ls := if x in once then ks else ks + [|all|];
  }

  lemma {:induction false} OneMore(all: seq<string>, x: string, once: seq<string>, ks: seq<nat>)
    requires OnceEach(all, once, ks) && (x in once <==> x in all)
    ensures x in once ==> OnceEach(all + [x], once, ks)
    ensures x !in once ==> OnceEach(all + [x], once + [x], ks + [|all|])
  {
    forall a | 0 <= a < |ks| ensures (all + [x])[..ks[a]] == all[..ks[a]] {
    }
    assert (all + [x])[..|all|] == all;
  }

  /** What an older list of that name in the event named: the strings of the value of the first
    * such key, if that is a list. */
  ghost predicate OlderNames(h: Heap, entries: seq<(Key, Value)>, names: seq<string>) {
    (exists i: nat :: i < |entries| && OlderAt(h, entries, i, names)) ||
    (names == [] && forall i :: 0 <= i < |entries| ==> entries[i].0 != Name("_redacted"))
  }

  ghost predicate OlderAt(h: Heap, entries: seq<(Key, Value)>, i: nat, names: seq<string>)
    requires i < |entries|
  {
    && entries[i].0 == Name("_redacted")
    && (forall j :: 0 <= j < i ==> entries[j].0 != Name("_redacted"))
    && if entries[i].1.At? && h(entries[i].1.ref).Sequence? && h(entries[i].1.ref).isList
       then exists ks :: StringsInOrder(h(entries[i].1.ref).items, names, ks)
       else names == []
  }

  lemma {:induction false} PriorIsOlder(h: Heap, entries: seq<(Key, Value)>)
    ensures OlderNames(h, entries, Prior(h, entries))
  {
    if entries != [] {
      if entries[0].0 == Name("_redacted") {
        if entries[0].1.At? && h(entries[0].1.ref).Sequence? && h(entries[0].1.ref).isList {
          var ks := StringsAre(h(entries[0].1.ref).items);
        }
        assert OlderAt(h, entries, 0, Prior(h, entries));
      } else {
        PriorIsOlder(h, entries[1..]);
        var rest := entries[1..];
        assert OlderNames(h, rest, Prior(h, rest)) && Prior(h, rest) == Prior(h, entries);
        if i: nat :| i < |rest| && OlderAt(h, rest, i, Prior(h, entries)) {
          forall j | 0 <= j < i + 1 ensures entries[j].0 != Name("_redacted") {
            if j > 0 { assert entries[j] == rest[j - 1]; }
          }
          assert OlderAt(h, entries, i + 1, Prior(h, entries));
        } else {
          forall i | 0 <= i < |entries| ensures entries[i].0 != Name("_redacted") {
            if i > 0 { assert rest[i - 1] == entries[i] && rest[i - 1].0 != Name("_redacted"); }
          }
        }
      }
    }
  }

  /** If anything is dropped the list names what an older list in the event named, in its order,
    * and then every key dropped here, in theirs; each once. */
  lemma {:induction false} DropsAreListed(env: Env, h: Heap, entries: seq<(Key, Value)>, depth: nat, seen: set<Ref>)
    returns (older: seq<string>, dropped: seq<string>, list: seq<string>, ks: seq<nat>, ls: seq<nat>)
    requires depth <= 12 && DropsSome(env, entries)
    ensures Lookup(FieldsOf(env, h, entries, depth, seen), "_redacted").Some?
    ensures Lookup(FieldsOf(env, h, entries, depth, seen), "_redacted").value.Items?
    ensures |Lookup(FieldsOf(env, h, entries, depth, seen), "_redacted").value.items| == |list|
    ensures forall a :: 0 <= a < |list| ==>
      Lookup(FieldsOf(env, h, entries, depth, seen), "_redacted").value.items[a] == Text(list[a])
    ensures OlderNames(h, entries, older) && DropsInOrder(env, entries, dropped, ks)
    ensures OnceEach(older + dropped, list, ls)
  {
    DropsAre(env, entries);
    older, dropped := Prior(h, entries), Entries(env, h, entries, depth, seen).dropped;
    LevelListsItsDrops(env, h, entries, depth, seen, "");
    PriorIsOlder(h, entries);
    ks := DroppedNames(env, h, entries, depth, seen);
    MergeConcat([], older, dropped);
    list := Merge([], older + dropped);
    ls := MergedIsOnce(older + dropped);
    assert list == Listed(env, h, entries, depth, seen);
  }

  // ---------------------------------------------------------------- the order of the fields

  function Names(fields: seq<(string, Tree)>): seq<string> {
    seq(|fields|, k requires 0 <= k < |fields| => fields[k].0)
  }

  lemma {:induction false} PutNames(fields: seq<(string, Tree)>, name: string, value: Tree)
    ensures Names(Put(fields, name, value)) ==
      if name in Names(fields) then Names(fields) else Names(fields) + [name]
  {
    if fields != [] {
      assert Names(fields) == [fields[0].0] + Names(fields[1..]);
      if fields[0].0 != name {
        PutNames(fields[1..], name, value);
        assert Names(Put(fields, name, value)) == [fields[0].0] + Names(Put(fields[1..], name, value));
      } else {
        assert Names(Put(fields, name, value)) == Names(fields);
      }
    }
  }

  /** The names the entries write, in the order of the entries. */
  ghost predicate WritesInOrder(env: Env, entries: seq<(Key, Value)>, names: seq<string>, ks: seq<nat>) {
    && Upward(ks, |entries|) && |names| == |ks|
    && (forall a :: 0 <= a < |ks| ==> WritesTo(env, entries[ks[a]], names[a]))
    && (forall i, name :: 0 <= i < |entries| && WritesTo(env, entries[i], name) ==> i in ks)
  }

  lemma {:induction false} FieldNames(env: Env, h: Heap, entries: seq<(Key, Value)>, depth: nat, seen: set<Ref>)
    returns (written: seq<string>, ks: seq<nat>, ls: seq<nat>)
    requires depth <= MAX_DEPTH
    ensures WritesInOrder(env, entries, written, ks)
    ensures OnceEach(written, Names(Entries(env, h, entries, depth, seen).fields), ls)
  {
    if entries == [] {
      written, ks, ls := [], [], [];
    } else {
      var n := |entries| - 1;
      var before := Entries(env, h, entries[..n], depth, seen).fields;
      written, ks, ls := FieldNames(env, h, entries[..n], depth, seen);
      var writes := Writes(env, entries[n]);
      forall name ensures WritesTo(env, entries[n], name) <==> writes == Some(name) {
        WritesAre(env, entries[n], name);
      }
      if writes.Some? {
        ls := NamesMore(written, before, ls, writes.value, Outcome(env, h, entries[n], depth, seen));
        WritesMore(env, entries, written, ks, writes.value);
        written, ks := written + [writes.value], ks + [n];
      } else {
        WritesNoMore(env, entries, written, ks);
      }
    }
  }

  lemma {:induction false} NamesMore(
    written: seq<string>, fields: seq<(string, Tree)>, ks: seq<nat>, name: string, value: Tree) returns (ls: seq<nat>)
    requires OnceEach(written, Names(fields), ks)
    ensures OnceEach(written + [name], Names(Put(fields, name, value)), ls)
  {
    var names := Names(fields);
    PutNames(fields, name, value);
    HasOnce(written, names, ks, name);
    OneMore(written, name, names, ks);
    ls := if name in names then ks else ks + [|written|];
  }

  lemma {:induction false} WritesNoMore(env: Env, entries: seq<(Key, Value)>, names: seq<string>, ks: seq<nat>)
    requires entries != [] && WritesInOrder(env, entries[..|entries| - 1], names, ks)
    requires var last := entries[|entries| - 1]; forall name :: !WritesTo(env, last, name)
    ensures WritesInOrder(env, entries, names, ks)
  {
    var n := |entries| - 1;
    assert forall i :: 0 <= i < n ==> entries[..n][i] == entries[i];
  }

  lemma {:induction false} HasOnce(all: seq<string>, once: seq<string>, ks: seq<nat>, x: string)
    requires OnceEach(all, once, ks)
    ensures x in once <==> x in all
  {
  }

  lemma {:induction false} WritesMore(env: Env, entries: seq<(Key, Value)>, names: seq<string>, ks: seq<nat>, name: string)
    requires entries != [] && WritesInOrder(env, entries[..|entries| - 1], names, ks)
    requires WritesTo(env, entries[|entries| - 1], name)
    ensures WritesInOrder(env, entries, names + [name], ks + [|entries| - 1])
  {
    var n := |entries| - 1;
    var more := ks + [n];
    assert n in more && forall i :: i in ks ==> i in more;
    assert forall i :: 0 <= i < n ==> entries[..n][i] == entries[i];
  }

  /** The fields stand in the order in which their names were first written; the list of what
    * was dropped stands where a field of that name stood, and otherwise last. */
  lemma {:induction false} FieldsStandInOrder(env: Env, h: Heap, entries: seq<(Key, Value)>, depth: nat, seen: set<Ref>)
    returns (written: seq<string>, ks: seq<nat>, ls: seq<nat>)
    requires depth <= 12
    ensures WritesInOrder(env, entries, written, ks)
    ensures OnceEach(if DropsSome(env, entries) then written + ["_redacted"] else written,
                     Names(FieldsOf(env, h, entries, depth, seen)), ls)
  {
    var fields := Entries(env, h, entries, depth, seen).fields;
    written, ks, ls := FieldNames(env, h, entries, depth, seen);
    DropsAre(env, entries);
    DropsIff(env, h, entries, depth, seen);
    if DropsSome(env, entries) {
      ls := NamesMore(written, fields, ls, "_redacted", Texts(Listed(env, h, entries, depth, seen)));
    }
  }

  // ---------------------------------------------------------------- values

  /** What any value becomes at any depth, its own parts being taken one level further down. */
  lemma {:induction false} ValuesBecome(env: Env, h: Heap, v: Value, depth: nat, seen: set<Ref>)
    ensures var t := RedactNode(env, h, v, depth, seen);
      if depth > 12 then t == Text("<truncated: depth > 12>")
      else match v
        case Str(text) => t == Text(text)
        case Atom(n) => t == Scalar(n)
        case Opaque(Some(repr), _) => t == Text(if |repr| <= 64 then repr else repr[..64])
        case Opaque(None, kind) => t == Text("<unreprable " + kind + ">")
        case At(r) =>
          if r in seen then t == Text("<cycle>")
          else match h(r)
            case Sequence(_, items) =>
              t.Items? && |t.items| == |items| &&
              forall i :: 0 <= i < |items| ==> t.items[i] == RedactNode(env, h, items[i], depth + 1, seen + {r})
            case Mapping(entries) => t == Fields(FieldsOf(env, h, entries, depth, seen + {r}))
  {
  }

  // ---------------------------------------------------------------- exceptions

  /** The entry raises, itself or on the way down from its value. */
  ghost predicate RaisesAt(env: Env, h: Heap, entry: (Key, Value), depth: nat, seen: set<Ref>, kind: string) {
    ThrowsItself(env, entry, kind) ||
    exists name :: Passes(env, entry, name) && FirstRaise(env, h, entry.1, depth + 1, seen) == Some(kind)
  }

  lemma {:induction false} EntryRaisesIff(env: Env, h: Heap, entry: (Key, Value), depth: nat, seen: set<Ref>, kind: string)
    requires depth <= MAX_DEPTH
    ensures EntryRaises(env, h, entry, depth, seen) == Some(kind) <==> RaisesAt(env, h, entry, depth, seen, kind)
  {
    FatesAre(env, entry);
    assert FateOf(env, entry).Kept? ==> Passes(env, entry, NameOf(entry.0));
  }

  lemma {:induction false} FirstEntryRaises(
    env: Env, h: Heap, entries: seq<(Key, Value)>, depth: nat, seen: set<Ref>, kind: string)
    requires depth <= MAX_DEPTH
    ensures EntriesRaise(env, h, entries, depth, seen) == Some(kind) <==>
      exists i :: 0 <= i < |entries| && EntryRaises(env, h, entries[i], depth, seen) == Some(kind)
                  && forall j :: 0 <= j < i ==> EntryRaises(env, h, entries[j], depth, seen) == None
    ensures EntriesRaise(env, h, entries, depth, seen) == None <==>
      forall i :: 0 <= i < |entries| ==> EntryRaises(env, h, entries[i], depth, seen) == None
  {
    if entries != [] {
      var n := |entries| - 1;
      FirstEntryRaises(env, h, entries[..n], depth, seen, kind);
      assert forall i :: 0 <= i < n ==> entries[..n][i] == entries[i];
    }
  }

  lemma {:induction false} FirstItemRaises(env: Env, h: Heap, items: seq<Value>, depth: nat, seen: set<Ref>, kind: string)
    requires depth <= MAX_DEPTH
    ensures ItemsRaise(env, h, items, depth, seen) == Some(kind) <==>
      exists i :: 0 <= i < |items| && FirstRaise(env, h, items[i], depth + 1, seen) == Some(kind)
                  && forall j :: 0 <= j < i ==> FirstRaise(env, h, items[j], depth + 1, seen) == None
    ensures ItemsRaise(env, h, items, depth, seen) == None <==>
      forall i :: 0 <= i < |items| ==> FirstRaise(env, h, items[i], depth + 1, seen) == None
  {
    if items != [] {
      var n := |items| - 1;
      FirstItemRaises(env, h, items[..n], depth, seen, kind);
      assert forall i :: 0 <= i < n ==> items[..n][i] == items[i];
    }
  }

  /** Entry `i` raises this, and none before it raises anything. */
  ghost predicate RaisesFirst(
    env: Env, h: Heap, entries: seq<(Key, Value)>, i: nat, depth: nat, seen: set<Ref>, kind: string)
  {
    i < |entries| && RaisesAt(env, h, entries[i], depth, seen, kind)
    && forall j, other :: 0 <= j < i ==> !RaisesAt(env, h, entries[j], depth, seen, other)
  }

  lemma {:induction false} QuietIff(env: Env, h: Heap, entry: (Key, Value), depth: nat, seen: set<Ref>)
    requires depth <= MAX_DEPTH
    ensures EntryRaises(env, h, entry, depth, seen) == None <==> forall other :: !RaisesAt(env, h, entry, depth, seen, other)
  {
    forall other ensures EntryRaises(env, h, entry, depth, seen) == Some(other) <==> RaisesAt(env, h, entry, depth, seen, other) {
      EntryRaisesIff(env, h, entry, depth, seen, other);
    }
  }

  lemma {:induction false} EntriesRaiseFirst(
    env: Env, h: Heap, entries: seq<(Key, Value)>, depth: nat, seen: set<Ref>, kind: string)
    requires depth <= MAX_DEPTH
    ensures EntriesRaise(env, h, entries, depth, seen) == Some(kind)
      <==> exists i: nat :: RaisesFirst(env, h, entries, i, depth, seen, kind)
  {
    FirstEntryRaises(env, h, entries, depth, seen, kind);
    forall j | 0 <= j < |entries|
      ensures EntryRaises(env, h, entries[j], depth, seen) == Some(kind) <==> RaisesAt(env, h, entries[j], depth, seen, kind)
      ensures EntryRaises(env, h, entries[j], depth, seen) == None
         <==> forall other :: !RaisesAt(env, h, entries[j], depth, seen, other)
    {
      EntryRaisesIff(env, h, entries[j], depth, seen, kind);
      QuietIff(env, h, entries[j], depth, seen);
    }
    if EntriesRaise(env, h, entries, depth, seen) == Some(kind) {
      var i: nat :| i < |entries| && EntryRaises(env, h, entries[i], depth, seen) == Some(kind)
                    && forall j :: 0 <= j < i ==> EntryRaises(env, h, entries[j], depth, seen) == None;
      assert RaisesFirst(env, h, entries, i, depth, seen, kind);
    }
  }

  /** The exception a traversal meets first: none beyond the depth limit, in a cycle or at a
    * leaf, and otherwise that of the first item or entry that raises one. */
  lemma {:induction false} FirstRaiseIs(env: Env, h: Heap, v: Value, depth: nat, seen: set<Ref>, kind: string)
    ensures FirstRaise(env, h, v, depth, seen) == Some(kind) <==>
      depth <= 12 && v.At? && v.ref !in seen &&
      match h(v.ref)
      case Sequence(_, items) =>
        exists i :: 0 <= i < |items| && FirstRaise(env, h, items[i], depth + 1, seen + {v.ref}) == Some(kind)
                    && forall j :: 0 <= j < i ==> FirstRaise(env, h, items[j], depth + 1, seen + {v.ref}) == None
      case Mapping(entries) =>
        exists i: nat :: RaisesFirst(env, h, entries, i, depth, seen + {v.ref}, kind)
  {
    if depth <= 12 && v.At? && v.ref !in seen {
      var inner := seen + {v.ref};
      match h(v.ref)
      case Sequence(_, items) => FirstItemRaises(env, h, items, depth, inner, kind);
      case Mapping(entries) =>
        EntriesRaiseFirst(env, h, entries, depth, inner, kind);
    }
  }

  /** The record of an event: what its value becomes, or, if anything raises, a note of the
    * first exception and nothing of the event. */
  lemma {:induction false} RecordIs(env: Env, h: Heap, event: Value)
    ensures match FirstRaise(env, h, event, 0, {})
      case None => Redact(env, h, event) == RedactNode(env, h, event, 0, {})
      case Some(kind) =>
        Redact(env, h, event) == Fields([("_redacted", Items([Text("<event>")])), ("_redaction_error", Text(kind))])
  {
    assert Texts([WHOLE_EVENT]).items == [Text("<event>")];
  }

  /** An event with a session id as its only one leaves the digest and not the id. */
  lemma {:induction false} EventSessionIdIsHashed(env: Env, h: Heap, r: Ref, i: nat, digest: string)
    requires Sane(env) && h(r).Mapping? && FirstRaise(env, h, At(r), 0, {}) == None
    requires LastTo(env, h(r).entries, i, "root_session_hash") && HashedTo(env, h(r).entries[i], digest)
    ensures Redact(env, h, At(r)).Fields?
    ensures Lookup(Redact(env, h, At(r)).fields, "root_session_hash") == Some(Text(digest))
  {
    RecordIs(env, h, At(r));
    ValuesBecome(env, h, At(r), 0, {});
    assert {} + {r} == {r};
    SessionIdIsHashed(env, h, h(r).entries, 0, {r}, i, digest);
  }
}
