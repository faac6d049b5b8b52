/** `redact` over Python object graphs: nodes live in a heap, may be shared and
  * may be cyclic. The result is a finite tree.
  */
module Redaction {
  import opened Options

  type Ref = nat

  /** `repr()` of an object, which may raise an exception of some type. */
  datatype Repr = Shown(text: string) | Broken(kind: string)

  datatype Key = Name(text: string) | OtherKey(repr: Repr)

  /** `Atom` stands for the booleans, numbers and None that pass through;
    * `Opaque` for everything else, with its `repr()` if that works at all. */
  datatype Value =
    | Str(text: string)
    | Atom(code: int)
    | Opaque(repr: Option<string>, kind: string)
    | At(ref: Ref)

  datatype Node =
    | Mapping(entries: seq<(Key, Value)>)
    | Sequence(isList: bool, items: seq<Value>)

  type Heap = Ref -> Node

  /** Fields keep insertion order, as dictionaries do. */
  datatype Tree =
    | Text(text: string)
    | Scalar(code: int)
    | Items(items: seq<Tree>)
    | Fields(fields: seq<(string, Tree)>)

  /** The salted digest of a text: `Unavailable` when the salt is refused, `Raises`
    * for an exception of another type - a salt file that is not ASCII, an id that
    * UTF-8 cannot encode. */
  datatype Digest = Hex(text: string) | Unavailable | Raises(kind: string)

  /** `fold` is Unicode case folding. */
  datatype Env = Env(fold: string -> string, digest: string -> Digest)

  const MAX_DEPTH := 12
  const REPR_LIMIT := 64
  const REDACTED_KEY := "_redacted"
  const ERROR_KEY := "_redaction_error"
  const WHOLE_EVENT := "<event>"
  const SESSION_HASH_KEY := "root_session_hash"
  const TRUNCATED := "<truncated: depth > 12>"
  const CYCLE := "<cycle>"

  const BANNED_KEYS := {
    "messages", "content", "prompt", "tool_calls", "tool_result", "tool_output",
    "arguments", "authorization", "api_key", "token", "secret"
  }
  const SESSION_ID_KEYS := {"root_session_id", "session_id"}

  /** What case folding and hexadecimal digests cannot do to this module's own strings. */
  ghost predicate Sane(env: Env) {
    && (forall s <- {REDACTED_KEY, ERROR_KEY, WHOLE_EVENT, SESSION_HASH_KEY, TRUNCATED} ::
         env.fold(s) !in BANNED_KEYS && env.fold(s) !in SESSION_ID_KEYS)
    && (forall s :: env.digest(s).Hex? ==> |env.digest(s).text| == 64)
  }

  // ---------------------------------------------------------------- specification

  function Clip(s: string): string {
    if |s| > REPR_LIMIT then s[..REPR_LIMIT] else s
  }

  function NameOf(key: Key): string {
    match key
    case Name(text) => text
    case OtherKey(Shown(text)) => Clip(text)
    case OtherKey(Broken(_)) => ""
  }

  /** `result[name] = value` on an insertion-ordered dictionary. */
  function Put(fields: seq<(string, Tree)>, name: string, value: Tree): seq<(string, Tree)> {
    if fields == [] then [(name, value)]
    else if fields[0].0 == name then [(name, value)] + fields[1..]
    else [fields[0]] + Put(fields[1..], name, value)
  }

  datatype Fate = Dropped | Hashed(digest: string) | Kept | Thrown(kind: string)

  /** What becomes of one entry, by its key alone or, for a session id, its value. */
  function FateOf(env: Env, entry: (Key, Value)): Fate {
    var folded := env.fold(NameOf(entry.0));
    if entry.0.OtherKey? && entry.0.repr.Broken? then Thrown(entry.0.repr.kind)
    else if folded in BANNED_KEYS then Dropped
    else if folded in SESSION_ID_KEYS then
      if !entry.1.Str? then Dropped
      else match env.digest(entry.1.text)
        case Hex(text) => Hashed(text)
        case Unavailable => Dropped
        case Raises(kind) => Thrown(kind)
    else Kept
  }

  datatype Level = Level(fields: seq<(string, Tree)>, dropped: seq<string>)

  /** The result when nothing is raised on the way. */
  function RedactNode(env: Env, h: Heap, v: Value, depth: nat, seen: set<Ref>): Tree
    decreases MAX_DEPTH + 1 - depth, 1, 0
  {
    if depth > MAX_DEPTH then Text(TRUNCATED)
    else match v
      case Str(s) => Text(s)
      case Atom(n) => Scalar(n)
      case Opaque(Some(repr), _) => Text(Clip(repr))
      case Opaque(None, kind) => Text("<unreprable " + kind + ">")
      case At(r) =>
        if r in seen then Text(CYCLE)
        else match h(r)
          case Mapping(entries) => Fields(Finish(h, entries, Entries(env, h, entries, depth, seen + {r})))
          case Sequence(_, items) =>
            Items(Trees(env, h, items, depth, seen + {r}))
  }

  function Trees(env: Env, h: Heap, items: seq<Value>, depth: nat, seen: set<Ref>): (trees: seq<Tree>)
    requires depth <= MAX_DEPTH
    ensures |trees| == |items|
    decreases MAX_DEPTH + 1 - depth, 0, 0
  {
    seq(|items|, i requires 0 <= i < |items| => RedactNode(env, h, items[i], depth + 1, seen))
  }

  function Entries(env: Env, h: Heap, entries: seq<(Key, Value)>, depth: nat, seen: set<Ref>): Level
    requires depth <= MAX_DEPTH
    decreases MAX_DEPTH + 1 - depth, 0, |entries|
  {
    if entries == [] then Level([], [])
    else
      var last := entries[|entries| - 1];
      var before := Entries(env, h, entries[..|entries| - 1], depth, seen);
      match FateOf(env, last)
      case Thrown(_) => before
      case Dropped => before.(dropped := before.dropped + [NameOf(last.0)])
      case Hashed(digest) => before.(fields := Put(before.fields, SESSION_HASH_KEY, Text(digest)))
      case Kept =>
        before.(fields := Put(before.fields, NameOf(last.0), RedactNode(env, h, last.1, depth + 1, seen)))
  }

  function Strings(values: seq<Value>): seq<string> {
    if values == [] then []
    else (if values[0].Str? then [values[0].text] else []) + Strings(values[1..])
  }

  /** `node.get("_redacted")`, if that is a list: the strings in it. */
  function Prior(h: Heap, entries: seq<(Key, Value)>): seq<string> {
    if entries == [] then []
    else if entries[0].0 == Name(REDACTED_KEY) then
      if entries[0].1.At? && h(entries[0].1.ref).Sequence? && h(entries[0].1.ref).isList
      then Strings(h(entries[0].1.ref).items) else []
    else Prior(h, entries[1..])
  }

  /** Append what is not there yet. */
  function Merge(merged: seq<string>, more: seq<string>): seq<string>
    decreases |more|
  {
    if more == [] then merged
    else Merge(if more[0] in merged then merged else merged + [more[0]], more[1..])
  }

  function Texts(names: seq<string>): Tree {
    Items(seq(|names|, i requires 0 <= i < |names| => Text(names[i])))
  }

  function Finish(h: Heap, entries: seq<(Key, Value)>, level: Level): seq<(string, Tree)> {
    if level.dropped == [] then level.fields
    else Put(level.fields, REDACTED_KEY, Texts(Merge(Merge([], Prior(h, entries)), level.dropped)))
  }

  /** The first exception on the way down and along, by its type. */
  function FirstRaise(env: Env, h: Heap, v: Value, depth: nat, seen: set<Ref>): Option<string>
    decreases MAX_DEPTH + 1 - depth, 1, 0
  {
    if depth > MAX_DEPTH || !v.At? || v.ref in seen then None
    else match h(v.ref)
      case Mapping(entries) => EntriesRaise(env, h, entries, depth, seen + {v.ref})
      case Sequence(_, items) => ItemsRaise(env, h, items, depth, seen + {v.ref})
  }

  function ItemsRaise(env: Env, h: Heap, items: seq<Value>, depth: nat, seen: set<Ref>): Option<string>
    requires depth <= MAX_DEPTH
    decreases MAX_DEPTH + 1 - depth, 0, |items|
  {
    if items == [] then None
    else
      var before := ItemsRaise(env, h, items[..|items| - 1], depth, seen);
      if before.Some? then before else FirstRaise(env, h, items[|items| - 1], depth + 1, seen)
  }

  function EntriesRaise(env: Env, h: Heap, entries: seq<(Key, Value)>, depth: nat, seen: set<Ref>): Option<string>
    requires depth <= MAX_DEPTH
    decreases MAX_DEPTH + 1 - depth, 0, |entries|
  {
    if entries == [] then None
    else
      var before := EntriesRaise(env, h, entries[..|entries| - 1], depth, seen);
      if before.Some? then before else EntryRaises(env, h, entries[|entries| - 1], depth, seen)
  }

  function EntryRaises(env: Env, h: Heap, entry: (Key, Value), depth: nat, seen: set<Ref>): Option<string>
    requires depth <= MAX_DEPTH
    decreases MAX_DEPTH + 1 - depth, 0, 0
  {
    match FateOf(env, entry)
    case Thrown(kind) => Some(kind)
    case Kept => FirstRaise(env, h, entry.1, depth + 1, seen)
    case _ => None
  }

  datatype Attempt = Finished(tree: Tree) | Raised(kind: string)

  function Try(env: Env, h: Heap, v: Value, depth: nat, seen: set<Ref>): Attempt {
    match FirstRaise(env, h, v, depth, seen)
    case Some(kind) => Raised(kind)
    case None => Finished(RedactNode(env, h, v, depth, seen))
  }

  /** What stands for an event lost to an exception. */
  function Lost(kind: string): Tree {
    Fields([(REDACTED_KEY, Texts([WHOLE_EVENT])), (ERROR_KEY, Text(kind))])
  }

  function Redact(env: Env, h: Heap, event: Value): Tree {
    match Try(env, h, event, 0, {})
    case Finished(tree) => tree
    case Raised(kind) => Lost(kind)
  }

  // ---------------------------------------------------------------- the code's own loops

  method RedactEvent(env: Env, h: Heap, event: Value) returns (t: Tree)
    ensures t == Redact(env, h, event)
  {
    var result := RedactNodeLoop(env, h, event, 0, {});
    match result {
      case Finished(tree) => t := tree;
      case Raised(kind) =>
        t := Fields([(REDACTED_KEY, Items([Text(WHOLE_EVENT)])), (ERROR_KEY, Text(kind))]);
        assert Texts([WHOLE_EVENT]).items == [Text(WHOLE_EVENT)];
    }
  }

  method RedactNodeLoop(env: Env, h: Heap, v: Value, depth: nat, seen: set<Ref>) returns (t: Attempt)
    ensures t == Try(env, h, v, depth, seen)
    decreases MAX_DEPTH + 1 - depth, 1
  {
    if depth > MAX_DEPTH {
      return Finished(Text(TRUNCATED));
    }
    match v {
      case Str(s) => return Finished(Text(s));
      case Atom(n) => return Finished(Scalar(n));
      case Opaque(Some(repr), _) => return Finished(Text(Clip(repr)));
      case Opaque(None, kind) => return Finished(Text("<unreprable " + kind + ">"));
      case At(r) =>
        if r in seen {
          return Finished(Text(CYCLE));
        }
        match h(r) {
          case Mapping(entries) => t := RedactMappingLoop(env, h, entries, depth, seen + {r});
          case Sequence(_, items) => t := RedactItemsLoop(env, h, items, depth, seen + {r});
        }
    }
  }

  method RedactItemsLoop(env: Env, h: Heap, items: seq<Value>, depth: nat, seen: set<Ref>) returns (t: Attempt)
    requires depth <= MAX_DEPTH
    ensures t == match ItemsRaise(env, h, items, depth, seen)
                 case Some(kind) => Raised(kind)
                 case None => Finished(Items(Trees(env, h, items, depth, seen)))
    decreases MAX_DEPTH + 1 - depth, 0
  {
    var trees: seq<Tree> := [];
    for i := 0 to |items|
      invariant |trees| == i && ItemsRaise(env, h, items[..i], depth, seen) == None
      invariant forall k :: 0 <= k < i ==> trees[k] == RedactNode(env, h, items[k], depth + 1, seen)
    {
      assert items[..i + 1][..i] == items[..i];
      var result := RedactNodeLoop(env, h, items[i], depth + 1, seen);
      if result.Raised? {
        ItemsRaiseEarly(env, h, items, depth, seen, i + 1);
        return result;
      }
      trees := trees + [result.tree];
    }
    assert items[..|items|] == items;
    assert trees == Trees(env, h, items, depth, seen);
    t := Finished(Items(trees));
  }

  lemma {:induction false} ItemsRaiseEarly(env: Env, h: Heap, items: seq<Value>, depth: nat, seen: set<Ref>, k: nat)
    requires depth <= MAX_DEPTH && k <= |items| && ItemsRaise(env, h, items[..k], depth, seen).Some?
    ensures ItemsRaise(env, h, items, depth, seen) == ItemsRaise(env, h, items[..k], depth, seen)
    decreases |items|
  {
    if k == |items| {
      assert items[..k] == items;
    } else {
      assert items[..|items| - 1][..k] == items[..k];
      ItemsRaiseEarly(env, h, items[..|items| - 1], depth, seen, k);
    }
  }

  lemma {:induction false} EntriesRaiseEarly(
    env: Env, h: Heap, entries: seq<(Key, Value)>, depth: nat, seen: set<Ref>, k: nat)
    requires depth <= MAX_DEPTH && k <= |entries| && EntriesRaise(env, h, entries[..k], depth, seen).Some?
    ensures EntriesRaise(env, h, entries, depth, seen) == EntriesRaise(env, h, entries[..k], depth, seen)
    decreases |entries|
  {
    if k == |entries| {
      assert entries[..k] == entries;
    } else {
      assert entries[..|entries| - 1][..k] == entries[..k];
      EntriesRaiseEarly(env, h, entries[..|entries| - 1], depth, seen, k);
    }
  }

  method RedactMappingLoop(env: Env, h: Heap, entries: seq<(Key, Value)>, depth: nat, seen: set<Ref>)
    returns (t: Attempt)
    requires depth <= MAX_DEPTH
    ensures t == match EntriesRaise(env, h, entries, depth, seen)
                 case Some(kind) => Raised(kind)
                 case None => Finished(Fields(Finish(h, entries, Entries(env, h, entries, depth, seen))))
    decreases MAX_DEPTH + 1 - depth, 0
  {
    var fields: seq<(string, Tree)> := [];
    var dropped: seq<string> := [];
    for i := 0 to |entries|
      invariant Level(fields, dropped) == Entries(env, h, entries[..i], depth, seen)
      invariant EntriesRaise(env, h, entries[..i], depth, seen) == None
    {
      assert entries[..i + 1][..i] == entries[..i];
      var (key, value) := entries[i];
      if key.OtherKey? && key.repr.Broken? {
        EntriesRaiseEarly(env, h, entries, depth, seen, i + 1);
        return Raised(key.repr.kind);
      }
      var name := NameOf(key);
      var folded := env.fold(name);
      if folded in BANNED_KEYS {
        dropped := dropped + [name];
      } else if folded in SESSION_ID_KEYS {
        var digest := if value.Str? then env.digest(value.text) else Unavailable;
        match digest {
          case Raises(kind) =>
            EntriesRaiseEarly(env, h, entries, depth, seen, i + 1);
            return Raised(kind);
          case Unavailable => dropped := dropped + [name];
          case Hex(text) => fields := Put(fields, SESSION_HASH_KEY, Text(text));
        }
      } else {
        var result := RedactNodeLoop(env, h, value, depth + 1, seen);
        if result.Raised? {
          EntriesRaiseEarly(env, h, entries, depth, seen, i + 1);
          return result;
        }
        fields := Put(fields, name, result.tree);
      }
    }
    assert entries[..|entries|] == entries;
    fields := FinishLoop(h, entries, fields, dropped);
    t := Finished(Fields(fields));
  }

  method FinishLoop(h: Heap, entries: seq<(Key, Value)>, fields: seq<(string, Tree)>, dropped: seq<string>)
    returns (result: seq<(string, Tree)>)
    ensures result == Finish(h, entries, Level(fields, dropped))
  {
    result := fields;
    if dropped != [] {
      var merged: seq<string> := [];
      var listed := Prior(h, entries) + dropped;
      for i := 0 to |listed|
        invariant Merge(merged, listed[i..]) == Merge([], listed)
      {
        if listed[i] !in merged {
          merged := merged + [listed[i]];
        }
      }
      MergeConcat([], Prior(h, entries), dropped);
      result := Put(fields, REDACTED_KEY, Texts(merged));
    }
  }

  lemma {:induction false} MergeConcat(merged: seq<string>, a: seq<string>, b: seq<string>)
    ensures Merge(merged, a + b) == Merge(Merge(merged, a), b)
    decreases |a|
  {
    if a == [] {
      assert a + b == b;
    } else {
      assert (a + b)[1..] == a[1..] + b;
      MergeConcat(if a[0] in merged then merged else merged + [a[0]], a[1..], b);
    }
  }

  // ---------------------------------------------------------------- dictionaries

  function Lookup(fields: seq<(string, Tree)>, name: string): Option<Tree> {
    if fields == [] then None
    else if fields[0].0 == name then Some(fields[0].1)
    else Lookup(fields[1..], name)
  }

  ghost predicate Unique(fields: seq<(string, Tree)>) {
    forall i, j :: 0 <= i < j < |fields| ==> fields[i].0 != fields[j].0
  }

  lemma {:induction false} LookupAt(fields: seq<(string, Tree)>, k: nat)
    requires Unique(fields) && k < |fields|
    ensures Lookup(fields, fields[k].0) == Some(fields[k].1)
  {
    if k > 0 { LookupAt(fields[1..], k - 1); }
  }

  lemma {:induction false} LookupFinds(fields: seq<(string, Tree)>, name: string) returns (k: nat)
    requires Lookup(fields, name).Some?
    ensures k < |fields| && fields[k] == (name, Lookup(fields, name).value)
  {
    if fields[0].0 == name {
      k := 0;
    } else {
      k := LookupFinds(fields[1..], name);
      k := k + 1;
    }
  }

  lemma {:induction false} PutLookup(fields: seq<(string, Tree)>, name: string, value: Tree, other: string)
    ensures Lookup(Put(fields, name, value), other) == if other == name then Some(value) else Lookup(fields, other)
  {
    if fields != [] && fields[0].0 != name {
      PutLookup(fields[1..], name, value, other);
    }
  }

  lemma {:induction false} PutUnique(fields: seq<(string, Tree)>, name: string, value: Tree)
    requires Unique(fields)
    ensures Unique(Put(fields, name, value))
    ensures forall k :: 0 <= k < |Put(fields, name, value)| ==>
      Put(fields, name, value)[k].0 == name || exists j :: 0 <= j < |fields| && fields[j].0 == Put(fields, name, value)[k].0
  {
    if fields != [] && fields[0].0 != name {
      PutUnique(fields[1..], name, value);
    }
  }

  lemma {:induction false} PutNew(fields: seq<(string, Tree)>, name: string, value: Tree)
    requires forall k :: 0 <= k < |fields| ==> fields[k].0 != name
    ensures Put(fields, name, value) == fields + [(name, value)]
  {
    if fields != [] { PutNew(fields[1..], name, value); }
  }

  // ---------------------------------------------------------------- one level

  function Writes(env: Env, entry: (Key, Value)): Option<string> {
    match FateOf(env, entry)
    case Hashed(_) => Some(SESSION_HASH_KEY)
    case Kept => Some(NameOf(entry.0))
    case _ => None
  }

  function LastWriter(env: Env, entries: seq<(Key, Value)>, name: string): Option<nat> {
    if entries == [] then None
    else if Writes(env, entries[|entries| - 1]) == Some(name) then Some(|entries| - 1)
    else LastWriter(env, entries[..|entries| - 1], name)
  }

  ghost predicate Drops(env: Env, entries: seq<(Key, Value)>) {
    exists i :: 0 <= i < |entries| && FateOf(env, entries[i]).Dropped?
  }

  function Outcome(env: Env, h: Heap, entry: (Key, Value), depth: nat, seen: set<Ref>): Tree {
    match FateOf(env, entry)
    case Hashed(digest) => Text(digest)
    case _ => RedactNode(env, h, entry.1, depth + 1, seen)
  }

  lemma {:induction false} LastWriterIs(env: Env, entries: seq<(Key, Value)>, name: string)
    ensures
      match LastWriter(env, entries, name)
      case None => forall j :: 0 <= j < |entries| ==> Writes(env, entries[j]) != Some(name)
      case Some(i) => i < |entries| && Writes(env, entries[i]) == Some(name)
                      && forall j :: i < j < |entries| ==> Writes(env, entries[j]) != Some(name)
  {
    if entries != [] { LastWriterIs(env, entries[..|entries| - 1], name); }
  }

  lemma {:induction false} EntriesLookup(env: Env, h: Heap, entries: seq<(Key, Value)>, depth: nat, seen: set<Ref>, name: string)
    requires depth <= MAX_DEPTH
    ensures
      var fields := Entries(env, h, entries, depth, seen).fields;
      match LastWriter(env, entries, name)
      case None => Lookup(fields, name) == None
      case Some(i) => i < |entries| && Lookup(fields, name) == Some(Outcome(env, h, entries[i], depth, seen))
  {
    if entries != [] {
      var before := Entries(env, h, entries[..|entries| - 1], depth, seen).fields;
      var last := entries[|entries| - 1];
      EntriesLookup(env, h, entries[..|entries| - 1], depth, seen, name);
      if Writes(env, last).Some? {
        PutLookup(before, Writes(env, last).value, Outcome(env, h, last, depth, seen), name);
      }
    }
  }

  lemma {:induction false} EntriesUnique(env: Env, h: Heap, entries: seq<(Key, Value)>, depth: nat, seen: set<Ref>)
    requires depth <= MAX_DEPTH
    ensures Unique(Entries(env, h, entries, depth, seen).fields)
  {
    if entries != [] {
      var before := Entries(env, h, entries[..|entries| - 1], depth, seen).fields;
      var last := entries[|entries| - 1];
      EntriesUnique(env, h, entries[..|entries| - 1], depth, seen);
      if Writes(env, last).Some? {
        PutUnique(before, Writes(env, last).value, Outcome(env, h, last, depth, seen));
      }
    }
  }

  /** The names dropped at a level are exactly those of the entries whose fate that is. */
  lemma {:induction false} EntriesDropped(env: Env, h: Heap, entries: seq<(Key, Value)>, depth: nat, seen: set<Ref>, name: string)
    requires depth <= MAX_DEPTH
    ensures name in Entries(env, h, entries, depth, seen).dropped
       <==> exists i :: 0 <= i < |entries| && FateOf(env, entries[i]).Dropped? && NameOf(entries[i].0) == name
  {
    if entries != [] {
      var n := |entries| - 1;
      EntriesDropped(env, h, entries[..n], depth, seen, name);
      assert forall i :: 0 <= i < n ==> entries[..n][i] == entries[i];
    }
  }

  lemma DropsIff(env: Env, h: Heap, entries: seq<(Key, Value)>, depth: nat, seen: set<Ref>)
    requires depth <= MAX_DEPTH
    ensures Drops(env, entries) <==> Entries(env, h, entries, depth, seen).dropped != []
  {
    var dropped := Entries(env, h, entries, depth, seen).dropped;
    if dropped != [] {
      EntriesDropped(env, h, entries, depth, seen, dropped[0]);
    }
    if i :| 0 <= i < |entries| && FateOf(env, entries[i]).Dropped? {
      EntriesDropped(env, h, entries, depth, seen, NameOf(entries[i].0));
    }
  }

  lemma {:induction false} MergeHas(merged: seq<string>, more: seq<string>, name: string)
    ensures name in Merge(merged, more) <==> name in merged || name in more
    decreases |more|
  {
    if more != [] {
      MergeHas(if more[0] in merged then merged else merged + [more[0]], more[1..], name);
    }
  }

  function Listed(env: Env, h: Heap, entries: seq<(Key, Value)>, depth: nat, seen: set<Ref>): seq<string>
    requires depth <= MAX_DEPTH
  {
    Merge(Merge([], Prior(h, entries)), Entries(env, h, entries, depth, seen).dropped)
  }

  lemma FinishLookup(env: Env, h: Heap, entries: seq<(Key, Value)>, depth: nat, seen: set<Ref>, name: string)
    requires depth <= MAX_DEPTH
    ensures
      var fields := Finish(h, entries, Entries(env, h, entries, depth, seen));
      && Unique(fields)
      && (if Drops(env, entries) && name == REDACTED_KEY then
           Lookup(fields, name) == Some(Texts(Listed(env, h, entries, depth, seen)))
         else match LastWriter(env, entries, name)
           case None => Lookup(fields, name) == None
           case Some(i) => i < |entries| && Lookup(fields, name) == Some(Outcome(env, h, entries[i], depth, seen)))
  {
    var level := Entries(env, h, entries, depth, seen);
    DropsIff(env, h, entries, depth, seen);
    EntriesUnique(env, h, entries, depth, seen);
    EntriesLookup(env, h, entries, depth, seen, name);
    if level.dropped != [] {
      var list := Texts(Listed(env, h, entries, depth, seen));
      PutUnique(level.fields, REDACTED_KEY, list);
      PutLookup(level.fields, REDACTED_KEY, list, name);
    }
  }

  /** The list left at a level names every key dropped there, and nothing else but
    * what an existing `_redacted` list named. */
  lemma LevelListsItsDrops(env: Env, h: Heap, entries: seq<(Key, Value)>, depth: nat, seen: set<Ref>, name: string)
    requires depth <= MAX_DEPTH && Drops(env, entries)
    ensures name in Listed(env, h, entries, depth, seen) <==>
      name in Prior(h, entries) ||
      exists i :: 0 <= i < |entries| && FateOf(env, entries[i]).Dropped? && NameOf(entries[i].0) == name
    ensures Lookup(Finish(h, entries, Entries(env, h, entries, depth, seen)), REDACTED_KEY)
         == Some(Texts(Listed(env, h, entries, depth, seen)))
  {
    FinishLookup(env, h, entries, depth, seen, REDACTED_KEY);
    EntriesDropped(env, h, entries, depth, seen, name);
    MergeHas([], Prior(h, entries), name);
    MergeHas(Merge([], Prior(h, entries)), Entries(env, h, entries, depth, seen).dropped, name);
  }

  // ---------------------------------------------------------------- nothing banned survives

  /** No key at any level folds to a banned or session-id key. */
  ghost predicate Clean(env: Env, t: Tree) {
    match t
    case Text(_) => true
    case Scalar(_) => true
    case Items(items) => forall i :: 0 <= i < |items| ==> Clean(env, items[i])
    case Fields(fields) =>
      Unique(fields) && forall i :: 0 <= i < |fields| ==>
        env.fold(fields[i].0) !in BANNED_KEYS && env.fold(fields[i].0) !in SESSION_ID_KEYS && Clean(env, fields[i].1)
  }

  /** At most `n` levels below the root. */
  ghost predicate Fits(t: Tree, n: int) {
    match t
    case Text(_) => true
    case Scalar(_) => true
    case Items(items) => n >= 1 && forall i :: 0 <= i < |items| ==> Fits(items[i], n - 1)
    case Fields(fields) => n >= 1 && forall i :: 0 <= i < |fields| ==> Fits(fields[i].1, n - 1)
  }

  /** Whatever the graph, cyclic or shared: the result is a clean tree of at most
    * 14 levels below its root. */
  lemma {:induction false} NodeIsClean(env: Env, h: Heap, v: Value, depth: nat, seen: set<Ref>)
    requires Sane(env) && depth <= MAX_DEPTH + 1
    ensures Clean(env, RedactNode(env, h, v, depth, seen))
    ensures Fits(RedactNode(env, h, v, depth, seen), MAX_DEPTH + 2 - depth)
    decreases MAX_DEPTH + 1 - depth, 1
  {
    var t := RedactNode(env, h, v, depth, seen);
    if depth <= MAX_DEPTH && v.At? && v.ref !in seen {
      var inner := seen + {v.ref};
      match h(v.ref)
      case Sequence(_, items) =>
        forall i | 0 <= i < |items| ensures Clean(env, t.items[i]) && Fits(t.items[i], MAX_DEPTH + 1 - depth) {
          NodeIsClean(env, h, items[i], depth + 1, inner);
        }
      case Mapping(entries) =>
        FinishLookup(env, h, entries, depth, inner, REDACTED_KEY);
        forall k | 0 <= k < |t.fields|
          ensures env.fold(t.fields[k].0) !in BANNED_KEYS && env.fold(t.fields[k].0) !in SESSION_ID_KEYS
          ensures Clean(env, t.fields[k].1) && Fits(t.fields[k].1, MAX_DEPTH + 1 - depth)
        {
          FieldIsClean(env, h, entries, depth, inner, t.fields, k);
        }
    }
  }

  lemma WrittenNameIsClean(env: Env, entry: (Key, Value))
    requires Sane(env) && Writes(env, entry).Some?
    ensures env.fold(Writes(env, entry).value) !in BANNED_KEYS
    ensures env.fold(Writes(env, entry).value) !in SESSION_ID_KEYS
  {
  }

  lemma OutcomeIsClean(env: Env, h: Heap, entry: (Key, Value), depth: nat, seen: set<Ref>)
    requires Sane(env) && depth <= MAX_DEPTH && Writes(env, entry).Some?
    ensures Clean(env, Outcome(env, h, entry, depth, seen)) && Fits(Outcome(env, h, entry, depth, seen), MAX_DEPTH + 1 - depth)
    decreases MAX_DEPTH + 1 - depth, 0, 0
  {
    if FateOf(env, entry).Kept? { NodeIsClean(env, h, entry.1, depth + 1, seen); }
  }

  lemma FieldIsClean(env: Env, h: Heap, entries: seq<(Key, Value)>, depth: nat, seen: set<Ref>,
                     fields: seq<(string, Tree)>, k: nat)
    requires Sane(env) && depth <= MAX_DEPTH && k < |fields|
    requires fields == Finish(h, entries, Entries(env, h, entries, depth, seen))
    ensures env.fold(fields[k].0) !in BANNED_KEYS && env.fold(fields[k].0) !in SESSION_ID_KEYS
    ensures Clean(env, fields[k].1) && Fits(fields[k].1, MAX_DEPTH + 1 - depth)
    decreases MAX_DEPTH + 1 - depth, 0, 1
  {
    var name := fields[k].0;
    FinishLookup(env, h, entries, depth, seen, name);
    LookupAt(fields, k);
    if Drops(env, entries) && name == REDACTED_KEY {
      assert fields[k].1 == Texts(Listed(env, h, entries, depth, seen));
    } else {
      LastWriterIs(env, entries, name);
      var i := LastWriter(env, entries, name).value;
      WrittenNameIsClean(env, entries[i]);
      OutcomeIsClean(env, h, entries[i], depth, seen);
    }
  }

  // ---------------------------------------------------------------- a second pass

  /** Value `v` of heap `h` is the tree `t` as a Python object: lists and
    * string-keyed dictionaries. */
  ghost predicate Represents(h: Heap, v: Value, t: Tree)
    decreases t
  {
    match t
    case Text(s) => v == Str(s)
    case Scalar(n) => v == Atom(n)
    case Items(items) =>
      v.At? && h(v.ref).Sequence? && h(v.ref).isList && |h(v.ref).items| == |items| &&
      forall i :: 0 <= i < |items| ==> Represents(h, h(v.ref).items[i], items[i])
    case Fields(fields) =>
      v.At? && h(v.ref).Mapping? && |h(v.ref).entries| == |fields| &&
      forall i :: 0 <= i < |fields| ==>
        h(v.ref).entries[i].0 == Name(fields[i].0) && Represents(h, h(v.ref).entries[i].1, fields[i].1)
  }

  lemma {:induction false} RepresentsOne(h: Heap, v: Value, t: Tree, u: Tree)
    requires Represents(h, v, t) && Represents(h, v, u)
    ensures t == u
    decreases t
  {
    match t
    case Text(_) =>
    case Scalar(_) =>
    case Items(items) =>
      forall i | 0 <= i < |items| ensures items[i] == u.items[i] {
        RepresentsOne(h, h(v.ref).items[i], items[i], u.items[i]);
      }
    case Fields(fields) =>
      forall i | 0 <= i < |fields| ensures fields[i] == u.fields[i] {
        RepresentsOne(h, h(v.ref).entries[i].1, fields[i].1, u.fields[i].1);
      }
  }

  /** All a second pass does to a clean tree: cut it off below the depth limit. */
  function Cut(t: Tree, depth: nat): Tree {
    if depth > MAX_DEPTH then Text(TRUNCATED)
    else match t
      case Text(_) => t
      case Scalar(_) => t
      case Items(items) => Items(seq(|items|, i requires 0 <= i < |items| => Cut(items[i], depth + 1)))
      case Fields(fields) =>
        Fields(seq(|fields|, i requires 0 <= i < |fields| => (fields[i].0, Cut(fields[i].1, depth + 1))))
  }

  /** The objects on the way down are all larger than `t`, so none of them recurs. */
  ghost predicate AllAbove(h: Heap, seen: set<Ref>, t: Tree) {
    forall a <- seen :: exists u :: Represents(h, At(a), u) && t < u
  }

  lemma AllAboveDown(h: Heap, v: Value, seen: set<Ref>, t: Tree, child: Tree)
    requires v.At? && Represents(h, v, t) && AllAbove(h, seen, t) && child < t
    ensures AllAbove(h, seen + {v.ref}, child)
  {
    forall a <- seen + {v.ref} ensures exists u :: Represents(h, At(a), u) && child < u {
      if a in seen {
        var u :| Represents(h, At(a), u) && t < u;
        assert child < u;
      } else {
        assert Represents(h, At(a), t);
      }
    }
  }

  lemma {:induction false} SecondPassCuts(env: Env, h: Heap, v: Value, t: Tree, depth: nat, seen: set<Ref>)
    requires Clean(env, t) && Represents(h, v, t) && AllAbove(h, seen, t)
    ensures RedactNode(env, h, v, depth, seen) == Cut(t, depth)
    decreases t, 1
  {
    if depth <= MAX_DEPTH && v.At? {
      if v.ref in seen {
        var u :| Represents(h, At(v.ref), u) && t < u;
        RepresentsOne(h, v, t, u);
      } else {
        match t
        case Items(items) =>
          forall i | 0 <= i < |items|
            ensures RedactNode(env, h, h(v.ref).items[i], depth + 1, seen + {v.ref}) == Cut(items[i], depth + 1)
          {
            AllAboveDown(h, v, seen, t, items[i]);
            SecondPassCuts(env, h, h(v.ref).items[i], items[i], depth + 1, seen + {v.ref});
          }
        case Fields(fields) =>
          forall i | 0 <= i < |fields|
            ensures FieldIs(h, seen + {v.ref}, h(v.ref).entries[i], fields[i].0, fields[i].1)
          {
            AllAboveDown(h, v, seen, t, fields[i].1);
          }
          SecondPassFields(env, h, h(v.ref).entries, t, |fields|, depth, seen + {v.ref});
          assert h(v.ref).entries[..|fields|] == h(v.ref).entries;
      }
    }
  }

  lemma KeptEntryAppends(
    env: Env, h: Heap, entries: seq<(Key, Value)>, n: nat, depth: nat, seen: set<Ref>, before: seq<(string, Tree)>)
    requires depth <= MAX_DEPTH && n < |entries| && FateOf(env, entries[n]).Kept?
    requires Entries(env, h, entries[..n], depth, seen) == Level(before, [])
    requires forall k :: 0 <= k < |before| ==> before[k].0 != NameOf(entries[n].0)
    ensures Entries(env, h, entries[..n + 1], depth, seen) ==
      Level(before + [(NameOf(entries[n].0), RedactNode(env, h, entries[n].1, depth + 1, seen))], [])
  {
    assert entries[..n + 1][..n] == entries[..n];
    PutNew(before, NameOf(entries[n].0), RedactNode(env, h, entries[n].1, depth + 1, seen));
  }

  ghost predicate FieldIs(h: Heap, seen: set<Ref>, entry: (Key, Value), name: string, t: Tree) {
    entry.0 == Name(name) && Represents(h, entry.1, t) && AllAbove(h, seen, t)
  }

  lemma NewName(fields: seq<(string, Tree)>, k: nat, depth: nat)
    requires Unique(fields) && k < |fields| && depth <= MAX_DEPTH
    ensures
      var before := Cut(Fields(fields), depth).fields[..k];
      forall j :: 0 <= j < |before| ==> before[j].0 != fields[k].0
  {
    var cut := Cut(Fields(fields), depth).fields;
    forall j | 0 <= j < k ensures cut[..k][j].0 != fields[k].0 {
      assert cut[..k][j] == cut[j] && cut[j].0 == fields[j].0;
    }
  }

  lemma {:induction false} SecondPassFields(
    env: Env, h: Heap, entries: seq<(Key, Value)>, t: Tree, n: nat, depth: nat, seen: set<Ref>)
    requires depth <= MAX_DEPTH && t.Fields? && Clean(env, t) && |entries| == |t.fields| && n <= |entries|
    requires forall i :: 0 <= i < |entries| ==> FieldIs(h, seen, entries[i], t.fields[i].0, t.fields[i].1)
    ensures Entries(env, h, entries[..n], depth, seen) == Level(Cut(t, depth).fields[..n], [])
    decreases t, 0, n
  {
    if n > 0 {
      var k := n - 1;
      SecondPassFields(env, h, entries, t, k, depth, seen);
      assert FieldIs(h, seen, entries[k], t.fields[k].0, t.fields[k].1);
      SecondPassCuts(env, h, entries[k].1, t.fields[k].1, depth + 1, seen);
      CleanIsKept(env, t, k, entries[k]);
      NewName(t.fields, k, depth);
      assert Cut(t, depth).fields[k] == (t.fields[k].0, Cut(t.fields[k].1, depth + 1));
      NextField(env, h, entries, Cut(t, depth).fields, k, depth, seen);
    }
  }

  lemma CleanIsKept(env: Env, t: Tree, k: nat, entry: (Key, Value))
    requires t.Fields? && Clean(env, t) && k < |t.fields| && entry.0 == Name(t.fields[k].0)
    ensures FateOf(env, entry).Kept?
  {
  }

  lemma NextField(
    env: Env, h: Heap, entries: seq<(Key, Value)>, fields: seq<(string, Tree)>, k: nat, depth: nat, seen: set<Ref>)
    requires depth <= MAX_DEPTH && k < |entries| && k < |fields| && FateOf(env, entries[k]).Kept?
    requires Entries(env, h, entries[..k], depth, seen) == Level(fields[..k], [])
    requires forall j :: 0 <= j < |fields[..k]| ==> fields[..k][j].0 != NameOf(entries[k].0)
    requires fields[k] == (NameOf(entries[k].0), RedactNode(env, h, entries[k].1, depth + 1, seen))
    ensures Entries(env, h, entries[..k + 1], depth, seen) == Level(fields[..k + 1], [])
  {
    KeptEntryAppends(env, h, entries, k, depth, seen, fields[..k]);
    assert fields[..k + 1] == fields[..k] + [fields[k]];
  }

  // ---------------------------------------------------------------- idempotence, exactly

  /** The entry decides the result's field of its name: no later entry writes
    * that name, and it is not replaced by the list of dropped keys. */
  ghost predicate Survives(env: Env, entries: seq<(Key, Value)>, i: nat)
    requires i < |entries|
  {
    Writes(env, entries[i]).Some? &&
    var name := Writes(env, entries[i]).value;
    LastWriter(env, entries, name) == Some(i) && !(name == REDACTED_KEY && Drops(env, entries))
  }

  /** No level within one of the depth limit drops a key, and none at the limit
    * replaces a session id by its digest. */
  ghost predicate Stable(env: Env, h: Heap, v: Value, depth: nat, seen: set<Ref>)
    decreases MAX_DEPTH + 1 - depth, 1
  {
    depth <= MAX_DEPTH && v.At? && v.ref !in seen ==>
      match h(v.ref)
      case Sequence(_, items) => forall i :: 0 <= i < |items| ==> Stable(env, h, items[i], depth + 1, seen + {v.ref})
      case Mapping(entries) =>
        && (Drops(env, entries) ==> depth <= MAX_DEPTH - 2)
        && (forall i :: 0 <= i < |entries| && Survives(env, entries, i) ==>
             StableEntry(env, h, entries[i], depth, seen + {v.ref}))
  }

  ghost predicate StableEntry(env: Env, h: Heap, entry: (Key, Value), depth: nat, seen: set<Ref>)
    requires depth <= MAX_DEPTH
    decreases MAX_DEPTH + 1 - depth, 0
  {
    if FateOf(env, entry).Hashed? then depth < MAX_DEPTH else Stable(env, h, entry.1, depth + 1, seen)
  }

  lemma CutTexts(names: seq<string>, depth: nat)
    requires depth <= MAX_DEPTH && exists i :: 0 <= i < |names| && names[i] != TRUNCATED
    ensures Cut(Texts(names), depth + 1) == Texts(names) <==> depth <= MAX_DEPTH - 2
  {
    if depth == MAX_DEPTH - 1 {
      var i :| 0 <= i < |names| && names[i] != TRUNCATED;
      assert Cut(Texts(names), depth + 1).items[i] == Text(TRUNCATED) != Texts(names).items[i];
    }
  }

  lemma ListedIsNotCut(env: Env, h: Heap, entries: seq<(Key, Value)>, depth: nat, seen: set<Ref>)
    requires Sane(env) && depth <= MAX_DEPTH && Drops(env, entries)
    ensures
      var list := Texts(Listed(env, h, entries, depth, seen));
      Cut(list, depth + 1) == list <==> depth <= MAX_DEPTH - 2
  {
    var i :| 0 <= i < |entries| && FateOf(env, entries[i]).Dropped?;
    var name := NameOf(entries[i].0);
    LevelListsItsDrops(env, h, entries, depth, seen, name);
    assert name != TRUNCATED;
    CutTexts(Listed(env, h, entries, depth, seen), depth);
  }

  ghost predicate FixedField(fields: seq<(string, Tree)>, name: string, depth: nat) {
    match Lookup(fields, name)
    case None => true
    case Some(t) => Cut(t, depth + 1) == t
  }

  lemma FieldsFixedIff(fields: seq<(string, Tree)>, depth: nat)
    requires Unique(fields) && depth <= MAX_DEPTH
    ensures Cut(Fields(fields), depth) == Fields(fields) <==> forall name :: FixedField(fields, name, depth)
  {
    var cut := Cut(Fields(fields), depth);
    if cut == Fields(fields) {
      forall name ensures FixedField(fields, name, depth) {
        if Lookup(fields, name).Some? {
          var k := LookupFinds(fields, name);
          assert cut.fields[k] == fields[k];
        }
      }
    }
    if forall name :: FixedField(fields, name, depth) {
      forall k | 0 <= k < |fields| ensures cut.fields[k] == fields[k] {
        LookupAt(fields, k);
        assert FixedField(fields, fields[k].0, depth);
      }
      assert cut.fields == fields;
    }
  }

  lemma ItemsFixedIff(items: seq<Tree>, depth: nat)
    requires depth <= MAX_DEPTH
    ensures Cut(Items(items), depth) == Items(items) <==>
      forall i :: 0 <= i < |items| ==> Cut(items[i], depth + 1) == items[i]
  {
    var cut := Cut(Items(items), depth).items;
    assert cut == items <==> forall i :: 0 <= i < |items| ==> cut[i] == items[i];
  }

  lemma {:induction false} FirstPassFixedIff(env: Env, h: Heap, v: Value, depth: nat, seen: set<Ref>)
    requires Sane(env) && depth <= MAX_DEPTH + 1
    ensures
      var t := RedactNode(env, h, v, depth, seen);
      Cut(t, depth) == t <==> Stable(env, h, v, depth, seen)
    decreases MAX_DEPTH + 1 - depth, 1
  {
    if depth <= MAX_DEPTH && v.At? && v.ref !in seen {
      var t := RedactNode(env, h, v, depth, seen);
      var inner := seen + {v.ref};
      match h(v.ref)
      case Sequence(_, items) =>
        forall i | 0 <= i < |items|
          ensures Cut(t.items[i], depth + 1) == t.items[i] <==> Stable(env, h, items[i], depth + 1, inner)
        {
          FirstPassFixedIff(env, h, items[i], depth + 1, inner);
          assert t.items[i] == Trees(env, h, items, depth, inner)[i] == RedactNode(env, h, items[i], depth + 1, inner);
        }
        ItemsFixedIff(t.items, depth);
      case Mapping(entries) =>
        MappingFixedIff(env, h, v, entries, depth, seen);
    }
  }

  lemma OutcomeFixedIff(env: Env, h: Heap, entry: (Key, Value), depth: nat, seen: set<Ref>)
    requires Sane(env) && depth <= MAX_DEPTH && Writes(env, entry).Some?
    ensures
      var t := Outcome(env, h, entry, depth, seen);
      Cut(t, depth + 1) == t <==> StableEntry(env, h, entry, depth, seen)
    decreases MAX_DEPTH + 1 - depth, 0, 0
  {
    if FateOf(env, entry).Kept? {
      FirstPassFixedIff(env, h, entry.1, depth + 1, seen);
    }
  }

  /** One field of a level, by who wrote it. */
  lemma FieldFixedIff(env: Env, h: Heap, entries: seq<(Key, Value)>, depth: nat, seen: set<Ref>, name: string)
    requires Sane(env) && depth <= MAX_DEPTH
    ensures
      var fields := Finish(h, entries, Entries(env, h, entries, depth, seen));
      && Unique(fields)
      && (FixedField(fields, name, depth) <==>
          if Drops(env, entries) && name == REDACTED_KEY then depth <= MAX_DEPTH - 2
          else match LastWriter(env, entries, name)
            case None => true
            case Some(i) => i < |entries| && StableEntry(env, h, entries[i], depth, seen))
    decreases MAX_DEPTH + 1 - depth, 0, 1
  {
    FinishLookup(env, h, entries, depth, seen, name);
    LastWriterIs(env, entries, name);
    if Drops(env, entries) && name == REDACTED_KEY {
      ListedIsNotCut(env, h, entries, depth, seen);
    } else if LastWriter(env, entries, name).Some? {
      OutcomeFixedIff(env, h, entries[LastWriter(env, entries, name).value], depth, seen);
    }
  }

  lemma MappingFixedIff(env: Env, h: Heap, v: Value, entries: seq<(Key, Value)>, depth: nat, seen: set<Ref>)
    requires Sane(env) && depth <= MAX_DEPTH && v.At? && v.ref !in seen && h(v.ref) == Mapping(entries)
    ensures
      var t := RedactNode(env, h, v, depth, seen);
      Cut(t, depth) == t <==> Stable(env, h, v, depth, seen)
    decreases MAX_DEPTH + 1 - depth, 0, 2
  {
    var inner := seen + {v.ref};
    var fields := Finish(h, entries, Entries(env, h, entries, depth, inner));
    FieldFixedIff(env, h, entries, depth, inner, REDACTED_KEY);
    FieldsFixedIff(fields, depth);
    if Stable(env, h, v, depth, seen) {
      forall name ensures FixedField(fields, name, depth) {
        FieldFixedIff(env, h, entries, depth, inner, name);
        LastWriterIs(env, entries, name);
        var writer := LastWriter(env, entries, name);
        assert writer.Some? && !(Drops(env, entries) && name == REDACTED_KEY) ==> Survives(env, entries, writer.value);
      }
    }
    if forall name :: FixedField(fields, name, depth) {
      assert FixedField(fields, REDACTED_KEY, depth);
      forall i | 0 <= i < |entries| && Survives(env, entries, i) ensures StableEntry(env, h, entries[i], depth, inner) {
        var name := Writes(env, entries[i]).value;
        FieldFixedIff(env, h, entries, depth, inner, name);
        assert FixedField(fields, name, depth);
      }
    }
  }

  /** A second pass raises nothing. */
  lemma {:induction false} CleanNeverRaises(env: Env, h: Heap, v: Value, t: Tree, depth: nat, seen: set<Ref>)
    requires Clean(env, t) && Represents(h, v, t)
    ensures FirstRaise(env, h, v, depth, seen) == None
    decreases t, 1, 0
  {
    if depth <= MAX_DEPTH && v.At? && v.ref !in seen {
      match t
      case Items(items) =>
        ItemsNeverRaise(env, h, h(v.ref).items, t, |items|, depth, seen + {v.ref});
        assert h(v.ref).items[..|items|] == h(v.ref).items;
      case Fields(fields) =>
        FieldsNeverRaise(env, h, h(v.ref).entries, t, |fields|, depth, seen + {v.ref});
        assert h(v.ref).entries[..|fields|] == h(v.ref).entries;
    }
  }

  lemma {:induction false} ItemsNeverRaise(
    env: Env, h: Heap, items: seq<Value>, t: Tree, n: nat, depth: nat, seen: set<Ref>)
    requires depth <= MAX_DEPTH && t.Items? && Clean(env, t) && |items| == |t.items| && n <= |items|
    requires forall i :: 0 <= i < |items| ==> Represents(h, items[i], t.items[i])
    ensures ItemsRaise(env, h, items[..n], depth, seen) == None
    decreases t, 0, n
  {
    if n > 0 {
      ItemsNeverRaise(env, h, items, t, n - 1, depth, seen);
      assert items[..n][..n - 1] == items[..n - 1];
      CleanNeverRaises(env, h, items[n - 1], t.items[n - 1], depth + 1, seen);
    }
  }

  lemma {:induction false} FieldsNeverRaise(
    env: Env, h: Heap, entries: seq<(Key, Value)>, t: Tree, n: nat, depth: nat, seen: set<Ref>)
    requires depth <= MAX_DEPTH && t.Fields? && Clean(env, t) && |entries| == |t.fields| && n <= |entries|
    requires forall i :: 0 <= i < |entries| ==>
      entries[i].0 == Name(t.fields[i].0) && Represents(h, entries[i].1, t.fields[i].1)
    ensures EntriesRaise(env, h, entries[..n], depth, seen) == None
    decreases t, 0, n
  {
    if n > 0 {
      FieldsNeverRaise(env, h, entries, t, n - 1, depth, seen);
      assert entries[..n][..n - 1] == entries[..n - 1];
      assert NameOf(entries[n - 1].0) == t.fields[n - 1].0;
      CleanNeverRaises(env, h, entries[n - 1].1, t.fields[n - 1].1, depth + 1, seen);
    }
  }

  lemma LostIsClean(env: Env, kind: string)
    requires Sane(env)
    ensures Clean(env, Lost(kind)) && Fits(Lost(kind), MAX_DEPTH + 2)
    ensures Cut(Lost(kind), 0) == Lost(kind)
  {
    var list := Texts([WHOLE_EVENT]);
    assert list.items == [Text(WHOLE_EVENT)];
    assert Cut(list, 1) == list;
    assert Fits(list, MAX_DEPTH + 1);
  }

  /** Whatever the event, lost or not: its record is a clean tree of at most 14
    * levels below the root. */
  lemma EventIsClean(env: Env, h: Heap, event: Value)
    requires Sane(env)
    ensures Clean(env, Redact(env, h, event)) && Fits(Redact(env, h, event), MAX_DEPTH + 2)
  {
    NodeIsClean(env, h, event, 0, {});
    match FirstRaise(env, h, event, 0, {}) {
      case Some(kind) => LostIsClean(env, kind);
      case None =>
    }
  }

  /** Redacting twice equals redacting once exactly when the event was lost, or no
    * surviving mapping at depth 11 or 12 drops a key and none at depth 12 digests
    * a session id. */
  lemma IdempotentIff(env: Env, h: Heap, event: Value, h2: Heap, again: Value)
    requires Sane(env) && Represents(h2, again, Redact(env, h, event))
    ensures Redact(env, h2, again) == Redact(env, h, event) <==>
      FirstRaise(env, h, event, 0, {}).Some? || Stable(env, h, event, 0, {})
  {
    var t := Redact(env, h, event);
    EventIsClean(env, h, event);
    CleanNeverRaises(env, h2, again, t, 0, {});
    SecondPassCuts(env, h2, again, t, 0, {});
    match FirstRaise(env, h, event, 0, {}) {
      case Some(kind) => LostIsClean(env, kind);
      case None => FirstPassFixedIff(env, h, event, 0, {});
    }
  }

  // ---------------------------------------------------------------- which events are lost

  /** Some entry the traversal comes to raises: its key cannot be shown, or it is a
    * session id whose digest raises. */
  ghost predicate Meets(env: Env, h: Heap, v: Value, depth: nat, seen: set<Ref>)
    decreases MAX_DEPTH + 1 - depth
  {
    depth <= MAX_DEPTH && v.At? && v.ref !in seen &&
    match h(v.ref)
    case Sequence(_, items) => exists i :: 0 <= i < |items| && Meets(env, h, items[i], depth + 1, seen + {v.ref})
    case Mapping(entries) =>
      exists i :: 0 <= i < |entries| &&
        (FateOf(env, entries[i]).Thrown? ||
         (FateOf(env, entries[i]).Kept? && Meets(env, h, entries[i].1, depth + 1, seen + {v.ref})))
  }

  lemma {:induction false} RaisesIffMeets(env: Env, h: Heap, v: Value, depth: nat, seen: set<Ref>)
    ensures FirstRaise(env, h, v, depth, seen).Some? <==> Meets(env, h, v, depth, seen)
    decreases MAX_DEPTH + 1 - depth, 1, 0
  {
    if depth <= MAX_DEPTH && v.At? && v.ref !in seen {
      match h(v.ref)
      case Sequence(_, items) => ItemsRaiseIff(env, h, items, depth, seen + {v.ref});
      case Mapping(entries) => EntriesRaiseIff(env, h, entries, depth, seen + {v.ref});
    }
  }

  lemma {:induction false} ItemsRaiseIff(env: Env, h: Heap, items: seq<Value>, depth: nat, seen: set<Ref>)
    requires depth <= MAX_DEPTH
    ensures ItemsRaise(env, h, items, depth, seen).Some? <==>
      exists i :: 0 <= i < |items| && Meets(env, h, items[i], depth + 1, seen)
    decreases MAX_DEPTH + 1 - depth, 0, |items|
  {
    if items != [] {
      var n := |items| - 1;
      ItemsRaiseIff(env, h, items[..n], depth, seen);
      RaisesIffMeets(env, h, items[n], depth + 1, seen);
      assert forall i :: 0 <= i < n ==> items[..n][i] == items[i];
    }
  }

  lemma {:induction false} EntriesRaiseIff(env: Env, h: Heap, entries: seq<(Key, Value)>, depth: nat, seen: set<Ref>)
    requires depth <= MAX_DEPTH
    ensures EntriesRaise(env, h, entries, depth, seen).Some? <==>
      exists i :: 0 <= i < |entries| &&
        (FateOf(env, entries[i]).Thrown? ||
         (FateOf(env, entries[i]).Kept? && Meets(env, h, entries[i].1, depth + 1, seen)))
    decreases MAX_DEPTH + 1 - depth, 0, |entries|
  {
    if entries != [] {
      var n := |entries| - 1;
      EntriesRaiseIff(env, h, entries[..n], depth, seen);
      RaisesIffMeets(env, h, entries[n].1, depth + 1, seen);
      assert forall i :: 0 <= i < n ==> entries[..n][i] == entries[i];
    }
  }

  /** The names a record lists at its root. */
  function ListedAtRoot(t: Tree): Option<Tree> {
    if t.Fields? then Lookup(t.fields, REDACTED_KEY) else None
  }

  /** An event whose root drops a key lists what was dropped there exactly when
    * nothing raises; otherwise the record names no key at all. */
  lemma EventListsItsDropsIff(env: Env, h: Heap, r: Ref)
    requires Sane(env) && h(r).Mapping? && Drops(env, h(r).entries)
    ensures
      var list := Listed(env, h, h(r).entries, 0, {r});
      ListedAtRoot(Redact(env, h, At(r))) == Some(Texts(list)) <==> !Meets(env, h, At(r), 0, {})
    ensures Meets(env, h, At(r), 0, {}) ==> exists kind :: Redact(env, h, At(r)) == Lost(kind)
  {
    var entries := h(r).entries;
    var list := Listed(env, h, entries, 0, {r});
    RaisesIffMeets(env, h, At(r), 0, {});
    assert {} + {r} == {r};
    var i :| 0 <= i < |entries| && FateOf(env, entries[i]).Dropped?;
    var name := NameOf(entries[i].0);
    LevelListsItsDrops(env, h, entries, 0, {r}, name);
    if Meets(env, h, At(r), 0, {}) {
      assert name != WHOLE_EVENT;
      TextsDiffer(list, name);
    }
  }

  lemma TextsDiffer(list: seq<string>, name: string)
    requires name in list && name != WHOLE_EVENT
    ensures Texts(list) != Texts([WHOLE_EVENT])
  {
    var k :| 0 <= k < |list| && list[k] == name;
    assert Texts(list).items[k] == Text(name);
    assert Texts([WHOLE_EVENT]).items == [Text(WHOLE_EVENT)];
  }

  /** An event that carries a session id and a token. */
  function Login(r: Ref): Node {
    Mapping([(Name("session_id"), Str("s")), (Name("token"), Atom(1))])
  }

  /** A digest that raises loses it, and the record does not say that a token was there. */
  lemma RaisingDigestLosesTheEvent(env: Env, kind: string)
    requires Sane(env) && env.fold("session_id") == "session_id" && env.fold("token") == "token"
    requires env.digest("s") == Raises(kind)
    ensures Redact(env, Login, At(0)) == Lost(kind)
    ensures ListedAtRoot(Redact(env, Login, At(0))) == Some(Texts([WHOLE_EVENT]))
  {
    var entries := Login(0).entries;
    assert EntriesRaise(env, Login, entries[..1], 0, {0}) == Some(kind) by {
      assert entries[..1][0] == entries[0] && entries[..1][..0] == [];
      assert FateOf(env, entries[0]) == Thrown(kind);
    }
    EntriesRaiseEarly(env, Login, entries, 0, {0}, 1);
    assert {} + {0} == {0};
  }

  // ---------------------------------------------------------------- what cannot be told from the result

  /** What is known of a session id: nothing of one that is not a string. */
  function DigestOf(env: Env, v: Value): Digest {
    if v.Str? then env.digest(v.text) else Unavailable
  }

  /** The two entries differ at most in the value of a banned key, or in session ids with
    * one and the same digest. */
  ghost predicate AlikeEntry(env: Env, a: (Key, Value), b: (Key, Value)) {
    a.0 == b.0 &&
    (|| a.1 == b.1
     || env.fold(NameOf(a.0)) in BANNED_KEYS
     || (env.fold(NameOf(a.0)) in SESSION_ID_KEYS && DigestOf(env, a.1) == DigestOf(env, b.1)))
  }

  ghost predicate AlikeNode(env: Env, a: Node, b: Node) {
    (a.Sequence? && a == b) ||
    (a.Mapping? && b.Mapping? && |a.entries| == |b.entries| &&
     forall i :: 0 <= i < |a.entries| ==> AlikeEntry(env, a.entries[i], b.entries[i]))
  }

  ghost predicate Alike(env: Env, h: Heap, k: Heap) {
    forall r :: AlikeNode(env, h(r), k(r))
  }

  lemma {:induction false} SecretsDoNotShow(env: Env, h: Heap, k: Heap, v: Value, depth: nat, seen: set<Ref>)
    requires Sane(env) && Alike(env, h, k)
    ensures RedactNode(env, h, v, depth, seen) == RedactNode(env, k, v, depth, seen)
    decreases MAX_DEPTH + 1 - depth, 1, 0
  {
    if depth <= MAX_DEPTH && v.At? && v.ref !in seen {
      assert AlikeNode(env, h(v.ref), k(v.ref));
      var inner := seen + {v.ref};
      match h(v.ref)
      case Sequence(_, items) =>
        forall i | 0 <= i < |items|
          ensures RedactNode(env, h, items[i], depth + 1, inner) == RedactNode(env, k, items[i], depth + 1, inner)
        {
          SecretsDoNotShow(env, h, k, items[i], depth + 1, inner);
        }
      case Mapping(entries) =>
        EntriesDoNotShow(env, h, k, entries, k(v.ref).entries, depth, inner);
        PriorDoesNotShow(env, h, k, entries, k(v.ref).entries);
    }
  }

  /** Nor do they influence what is raised. */
  lemma {:induction false} SecretsRaiseNothing(env: Env, h: Heap, k: Heap, v: Value, depth: nat, seen: set<Ref>)
    requires Alike(env, h, k)
    ensures FirstRaise(env, h, v, depth, seen) == FirstRaise(env, k, v, depth, seen)
    decreases MAX_DEPTH + 1 - depth, 1, 0
  {
    if depth <= MAX_DEPTH && v.At? && v.ref !in seen {
      assert AlikeNode(env, h(v.ref), k(v.ref));
      match h(v.ref)
      case Sequence(_, items) => ItemsRaiseAlike(env, h, k, items, depth, seen + {v.ref});
      case Mapping(entries) => EntriesRaiseAlike(env, h, k, entries, k(v.ref).entries, depth, seen + {v.ref});
    }
  }

  lemma {:induction false} ItemsRaiseAlike(env: Env, h: Heap, k: Heap, items: seq<Value>, depth: nat, seen: set<Ref>)
    requires Alike(env, h, k) && depth <= MAX_DEPTH
    ensures ItemsRaise(env, h, items, depth, seen) == ItemsRaise(env, k, items, depth, seen)
    decreases MAX_DEPTH + 1 - depth, 0, |items|
  {
    if items != [] {
      ItemsRaiseAlike(env, h, k, items[..|items| - 1], depth, seen);
      SecretsRaiseNothing(env, h, k, items[|items| - 1], depth + 1, seen);
    }
  }

  lemma {:induction false} EntriesRaiseAlike(
    env: Env, h: Heap, k: Heap, a: seq<(Key, Value)>, b: seq<(Key, Value)>, depth: nat, seen: set<Ref>)
    requires Alike(env, h, k) && depth <= MAX_DEPTH && |a| == |b|
    requires forall i :: 0 <= i < |a| ==> AlikeEntry(env, a[i], b[i])
    ensures EntriesRaise(env, h, a, depth, seen) == EntriesRaise(env, k, b, depth, seen)
    decreases MAX_DEPTH + 1 - depth, 0, |a|
  {
    if a != [] {
      var n := |a| - 1;
      EntriesRaiseAlike(env, h, k, a[..n], b[..n], depth, seen);
      assert AlikeEntry(env, a[n], b[n]);
      if FateOf(env, a[n]).Kept? {
        SecretsRaiseNothing(env, h, k, a[n].1, depth + 1, seen);
      }
    }
  }

  /** Events that differ only in banned values, and in session ids with equal digests, leave
    * the same record. */
  lemma EventSecretsDoNotShow(env: Env, h: Heap, k: Heap, event: Value)
    requires Sane(env) && Alike(env, h, k)
    ensures Redact(env, h, event) == Redact(env, k, event)
  {
    SecretsRaiseNothing(env, h, k, event, 0, {});
    SecretsDoNotShow(env, h, k, event, 0, {});
  }

  lemma {:induction false} EntriesDoNotShow(
    env: Env, h: Heap, k: Heap, a: seq<(Key, Value)>, b: seq<(Key, Value)>, depth: nat, seen: set<Ref>)
    requires Sane(env) && Alike(env, h, k) && depth <= MAX_DEPTH && |a| == |b|
    requires forall i :: 0 <= i < |a| ==> AlikeEntry(env, a[i], b[i])
    ensures Entries(env, h, a, depth, seen) == Entries(env, k, b, depth, seen)
    decreases MAX_DEPTH + 1 - depth, 0, |a|
  {
    if a != [] {
      var n := |a| - 1;
      EntriesDoNotShow(env, h, k, a[..n], b[..n], depth, seen);
      assert AlikeEntry(env, a[n], b[n]);
      if FateOf(env, a[n]).Kept? {
        SecretsDoNotShow(env, h, k, a[n].1, depth + 1, seen);
      }
    }
  }

  lemma {:induction false} PriorDoesNotShow(env: Env, h: Heap, k: Heap, a: seq<(Key, Value)>, b: seq<(Key, Value)>)
    requires Sane(env) && Alike(env, h, k) && |a| == |b|
    requires forall i :: 0 <= i < |a| ==> AlikeEntry(env, a[i], b[i])
    ensures Prior(h, a) == Prior(k, b)
  {
    if a != [] {
      assert AlikeEntry(env, a[0], b[0]);
      if a[0].0 == Name(REDACTED_KEY) {
        if a[0].1.At? { assert AlikeNode(env, h(a[0].1.ref), k(a[0].1.ref)); }
      } else {
        PriorDoesNotShow(env, h, k, a[1..], b[1..]);
      }
    }
  }

  // ---------------------------------------------------------------- the docstring's claim fails

  /** Eleven nested mappings around one that carries a token. */
  function Nested(r: Ref): Node {
    if r < 11 then Mapping([(Name("a"), At(r + 1))]) else Mapping([(Name("token"), Atom(0))])
  }

  lemma {:induction false} NestedIsNotStable(env: Env, depth: nat, seen: set<Ref>)
    requires depth <= 11 && env.fold("a") == "a" && env.fold("token") == "token"
    requires forall a <- seen :: a < depth
    ensures !Stable(env, Nested, At(depth), depth, seen)
    decreases 11 - depth
  {
    var entries := Nested(depth).entries;
    if depth < 11 {
      NestedIsNotStable(env, depth + 1, seen + {depth});
      assert FateOf(env, entries[0]).Kept?;
      assert LastWriter(env, entries, "a") == Some(0);
      assert Survives(env, entries, 0);
    } else {
      assert FateOf(env, entries[0]).Dropped?;
      assert Drops(env, entries);
    }
  }

  lemma {:induction false} NestedRaisesNothing(env: Env, depth: nat, seen: set<Ref>)
    requires depth <= 11 && env.fold("a") == "a" && env.fold("token") == "token"
    ensures !Meets(env, Nested, At(depth), depth, seen)
    decreases 11 - depth
  {
    if depth < 11 {
      NestedRaisesNothing(env, depth + 1, seen + {depth});
    }
  }

  /** Redaction is not idempotent: at depth 11 the added list is within the limit
    * but its entries are not. */
  lemma NotAlwaysIdempotent(env: Env, h2: Heap, again: Value)
    requires Sane(env) && env.fold("a") == "a" && env.fold("token") == "token"
    requires Represents(h2, again, Redact(env, Nested, At(0)))
    ensures Redact(env, h2, again) != Redact(env, Nested, At(0))
  {
    NestedIsNotStable(env, 0, {});
    NestedRaisesNothing(env, 0, {});
    RaisesIffMeets(env, Nested, At(0), 0, {});
    IdempotentIff(env, Nested, At(0), h2, again);
  }
}
