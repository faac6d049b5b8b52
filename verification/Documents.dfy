/** Parsed documents: the value of a block-style file, and the comparison that decides
  * whether an edited one is the original plus one name. */
module Documents {
  import opened Options
  import opened YamlLines

  /** Values as JSON has them. Scalars are told apart by their text. */
  datatype Value =
    | Null
    | Atom(text: string)
    | Array(items: seq<Value>)
    | Object(fields: map<Name, Value>)

  const CONTROL := Atom(CONTROL_NAME)

  // ---------------------------------------------------------------- the comparison

  /** `_enabled_list`. */
  function EnabledOf(v: Value): Option<seq<Value>> {
    if v.Object? && Plugins in v.fields && v.fields[Plugins].Object?
       && Enabled in v.fields[Plugins].fields && v.fields[Plugins].fields[Enabled].Array?
    then Some(v.fields[Plugins].fields[Enabled].items)
    else None
  }

  predicate NamesControl(v: Value) {
    EnabledOf(v).Some? && CONTROL in EnabledOf(v).value
  }

  function Without(items: seq<Value>): seq<Value> {
    if items == [] then []
    else (if items[0] == CONTROL then [] else [items[0]]) + Without(items[1..])
  }

  /** The observed document with the name taken out again, and what is then empty too. */
  function Trimmed(observed: Value): Value {
    if !observed.Object? || Plugins !in observed.fields || !observed.fields[Plugins].Object? then observed
    else
      var remaining := TrimmedPlugins(observed.fields[Plugins].fields);
      if remaining != map[] then Object(observed.fields[Plugins := Object(remaining)])
      else Object(observed.fields - {Plugins})
  }

  function TrimmedPlugins(plugins: map<Name, Value>): map<Name, Value> {
    if Enabled in plugins && plugins[Enabled].Array? && CONTROL in plugins[Enabled].items then
      var left := Without(plugins[Enabled].items);
      if left != [] then plugins[Enabled := Array(left)] else plugins - {Enabled}
    else plugins
  }

  /** `e` with this list of enabled plugins. */
  function With(e: Value, items: seq<Value>): Value
    requires e.Object?
  {
    var plugins := if Plugins in e.fields && e.fields[Plugins].Object? then e.fields[Plugins].fields else map[];
    Object(e.fields[Plugins := Object(plugins[Enabled := Array(items)])])
  }

  /** `e` lists exactly `rest`, or lists nothing and `rest` is empty - but not as an empty
    * list, nor in an empty section. */
  predicate HasJust(e: Value, rest: seq<Value>)
    requires e.Object?
  {
    if Plugins !in e.fields then rest == []
    else
      && e.fields[Plugins].Object? && e.fields[Plugins].fields != map[]
      && var plugins := e.fields[Plugins].fields;
      if Enabled in plugins then rest != [] && plugins[Enabled] == Array(rest) else rest == []
  }

  /** What the check after the edit accepts: the original with the name put into its
    * list, at any place and any number of times, or with a new list of nothing else. */
  lemma AcceptsIff(e: Value, o: Value)
    requires e.Object? && o.Object?
    ensures NamesControl(o) && Trimmed(o) == e <==>
      exists items :: CONTROL in items && HasJust(e, Without(items)) && o == With(e, items)
  {
    if NamesControl(o) && Trimmed(o) == e {
      var items := EnabledOf(o).value;
      AcceptedIs(e, o, items);
      assert CONTROL in items && HasJust(e, Without(items)) && o == With(e, items);
    }
    if items :| CONTROL in items && HasJust(e, Without(items)) && o == With(e, items) {
      PutInIsAccepted(e, items);
    }
  }

  lemma AcceptedIs(e: Value, o: Value, items: seq<Value>)
    requires o.Object? && NamesControl(o) && Trimmed(o) == e && items == EnabledOf(o).value
    ensures e.Object? && HasJust(e, Without(items)) && o == With(e, items)
  {
    var plugins := o.fields[Plugins].fields;
    var remaining := TrimmedPlugins(plugins);
    if remaining == map[] {
      assert forall k <- plugins :: k != Enabled ==> k in remaining;
      assert plugins == map[Enabled := Array(items)];
      assert o.fields == (o.fields - {Plugins})[Plugins := Object(plugins)];
    } else {
      assert plugins == remaining[Enabled := Array(items)];
      assert o.fields == o.fields[Plugins := Object(remaining)][Plugins := Object(plugins)];
    }
  }

  lemma PutInIsAccepted(e: Value, items: seq<Value>)
    requires e.Object? && CONTROL in items && HasJust(e, Without(items))
    ensures NamesControl(With(e, items)) && Trimmed(With(e, items)) == e
  {
    var o := With(e, items);
    var plugins := o.fields[Plugins].fields;
    var remaining := TrimmedPlugins(plugins);
    if Plugins !in e.fields {
      assert plugins - {Enabled} == map[];
      assert o.fields - {Plugins} == e.fields;
    } else {
      var was := e.fields[Plugins].fields;
      if Enabled in was {
        assert was[Enabled := Array(items)][Enabled := was[Enabled]] == was;
      } else {
        assert was[Enabled := Array(items)] - {Enabled} == was;
      }
      assert remaining == was;
      assert o.fields[Plugins := e.fields[Plugins]] == e.fields;
    }
  }

  /** `rest` has every other value of `items`, in their order: `ks` is where they stand. */
  ghost predicate TakesOut(items: seq<Value>, rest: seq<Value>, ks: seq<nat>) {
    && |ks| == |rest|
    && (forall a, b :: 0 <= a < b < |ks| ==> ks[a] < ks[b])
    && (forall a :: 0 <= a < |ks| ==> ks[a] < |items| && rest[a] == items[ks[a]] && rest[a] != CONTROL)
    && (forall i :: 0 <= i < |items| && items[i] != CONTROL ==> i in ks)
  }

  lemma {:induction false} WithoutJoin(items: seq<Value>, more: seq<Value>)
    ensures Without(items + more) == Without(items) + Without(more)
  {
    if items == [] {
      assert items + more == more;
    } else {
      assert (items + more)[0] == items[0] && (items + more)[1..] == items[1..] + more;
      WithoutJoin(items[1..], more);
      InThree(if items[0] == CONTROL then [] else [items[0]], Without(items[1..]), Without(more));
    }
  }

  lemma {:induction false} InThree<T>(a: seq<T>, b: seq<T>, c: seq<T>)
    ensures a + (b + c) == a + b + c
  {
  }

  lemma {:induction false} WithoutLast(items: seq<Value>)
    requires items != []
    ensures var n := |items| - 1;
      Without(items) == if items[n] == CONTROL then Without(items[..n]) else Without(items[..n]) + [items[n]]
  {
    var n := |items| - 1;
    WithoutJoin(items[..n], [items[n]]);
    assert items[..n] + [items[n]] == items && [items[n]][1..] == [] && Without([]) == [];
  }

  /** The name is taken out wherever it stands, and nothing else is. */
  lemma {:induction false} WithoutTakesOut(items: seq<Value>) returns (ks: seq<nat>)
    ensures TakesOut(items, Without(items), ks)
  {
    if items == [] {
      ks := [];
    } else {
      var n := |items| - 1;
      var rest := Without(items[..n]);
      ks := WithoutTakesOut(items[..n]);
      WithoutLast(items);
      TakeMore(items, rest, ks);
      ks := if items[n] == CONTROL then ks else ks + [n];
    }
  }

  lemma {:induction false} TakeMore(items: seq<Value>, rest: seq<Value>, ks: seq<nat>)
    requires items != [] && TakesOut(items[..|items| - 1], rest, ks)
    ensures items[|items| - 1] == CONTROL ==> TakesOut(items, rest, ks)
    ensures items[|items| - 1] != CONTROL ==> TakesOut(items, rest + [items[|items| - 1]], ks + [|items| - 1])
  {
    var n := |items| - 1;
    var more := ks + [n];
    assert n in more && forall i :: i in ks ==> i in more;
    assert forall i :: 0 <= i < n ==> items[..n][i] == items[i];
  }

  /** The comparison of `enable_control_plugin`, with the dictionary it works on. */
  method Compare(expected: Value, observed: Value) returns (same: bool)
    ensures same <==> Trimmed(observed) == expected
  {
    if !observed.Object? { return observed == expected; }
    var fields := observed.fields;
    if Plugins in fields && fields[Plugins].Object? {
      var remaining := fields[Plugins].fields;
      if Enabled in remaining && remaining[Enabled].Array? && CONTROL in remaining[Enabled].items {
        var trimmed := Without(remaining[Enabled].items);
        if trimmed != [] {
          remaining := remaining[Enabled := Array(trimmed)];
        } else {
          remaining := remaining - {Enabled};
        }
      }
      if remaining != map[] {
        fields := fields[Plugins := Object(remaining)];
      } else {
        fields := fields - {Plugins};
      }
    }
    same := Object(fields) == expected;
  }

  // ---------------------------------------------------------------- values of entries

  /** How many lines some entries are made of. */
  function Total(es: seq<Entry>): nat {
    if es == [] then 0 else 1 + |es[0].body| + Total(es[1..])
  }

  lemma {:induction false} ReadSize(ls: seq<Line>, c: nat)
    ensures !Read(ls, c).Bad? ==> |Read(ls, c).lead| + Total(Read(ls, c).entries) <= |ls|
  {
    if ls != [] {
      ReadSize(ls[1..], c);
    }
  }

  function Atoms(words: seq<Word>): seq<Value> {
    if words == [] then [] else [Atom(TextOf(words[0]))] + Atoms(words[1..])
  }

  function InlineValue(i: Inline): Value {
    match i
    case FlowList(words) => Array(Atoms(words))
    case Single(text) => Atom(text)
  }

  /** The value of an entry, if its lines can be read. */
  function ValueOf(e: Entry): Option<Value>
    decreases 1 + |e.body|, 0
  {
    if e.inline.Some? then
      if e.body == [] then Some(InlineValue(e.inline.value)) else None
    else if e.body == [] then Some(Null)
    else if AllItems(e.body, e.body[0].indent) then Some(Array(Atoms(Words(e.body))))
    else
      ReadSize(e.body, e.body[0].indent);
      match Entries(e.body, e.body[0].indent)
      case None => None
      case Some(es) => AsObject(FieldsOf(es))
  }

  function AsObject(fields: Option<map<Name, Value>>): Option<Value> {
    match fields case None => None case Some(f) => Some(Object(f))
  }

  /** A key that comes again replaces what was there. */
  function FieldsOf(es: seq<Entry>): Option<map<Name, Value>>
    decreases Total(es), 1
  {
    if es == [] then Some(map[])
    else InFront(es[0].name, ValueOf(es[0]), FieldsOf(es[1..]))
  }

  /** One field in front of the others. */
  function InFront(name: Name, value: Option<Value>, rest: Option<map<Name, Value>>): Option<map<Name, Value>> {
    if value.Some? && rest.Some? then Some(map[name := value.value] + rest.value) else None
  }

  function ValueOfLines(lines: seq<Line>): Option<Value> {
    match Entries(lines, 0)
    case None => None
    case Some(es) => AsObject(FieldsOf(es))
  }

  // ---------------------------------------------------------------- dates

  predicate Digit(c: char) {
    '0' <= c <= '9'
  }

  /** Four digits, two and two: taken for a date wherever it stands. */
  predicate DateShaped(t: string) {
    |t| == 10 && t[4] == '-' && t[7] == '-' && Digits(t[..4]) && Digits(t[5..7]) && Digits(t[8..])
  }

  predicate Digits(t: string) {
    forall i :: 0 <= i < |t| ==> Digit(t[i])
  }

  function Number(digits: string): nat
    requires Digits(digits)
  {
    if digits == "" then 0
    else
      var last := digits[|digits| - 1];
      10 * Number(digits[..|digits| - 1]) + (last as int - '0' as int)
  }

  function DaysIn(year: nat, month: nat): nat {
    if month == 2 then (if year % 4 == 0 && (year % 100 != 0 || year % 400 == 0) then 29 else 28)
    else if month in [4, 6, 9, 11] then 30
    else 31
  }

  predicate RealDate(t: string)
    requires DateShaped(t)
  {
    var year, month, day := Number(t[..4]), Number(t[5..7]), Number(t[8..]);
    year >= 1 && 1 <= month <= 12 && 1 <= day <= DaysIn(year, month)
  }

  predicate ImpossibleDate(t: string) {
    DateShaped(t) && !RealDate(t)
  }

  /** A scalar on the line cannot be constructed. */
  predicate CannotConstruct(l: Line) {
    match l.content
    case Key(name, inline) =>
      || (name.Other? && ImpossibleDate(name.text))
      || (inline.Some? && match inline.value
          case Single(text) => ImpossibleDate(text)
          case FlowList(words) => exists w <- words :: ImpossibleDate(TextOf(w)))
    case Item(word) => ImpossibleDate(TextOf(word))
    case _ => false
  }

  /** A key that JSON has no form for. */
  predicate IsDate(name: Name) {
    name.Other? && DateShaped(name.text)
  }

  /** Some mapping in the value has such a key. */
  predicate HasDateKey(v: Value) {
    match v
    case Object(fields) => exists k <- fields :: IsDate(k) || HasDateKey(fields[k])
    case Array(items) => exists x <- items :: HasDateKey(x)
    case _ => false
  }

  // ---------------------------------------------------------------- loading

  /** `yaml.safe_load`: a document, an error of its own, or - once all of the text has
    * been parsed - the exception of a constructor. Also what a later key replaces is
    * constructed first. */
  datatype Parsed = Loaded(doc: Value) | NotYaml | Raises

  function LoadLines(lines: seq<Line>): Parsed {
    match ValueOfLines(lines)
    case None => NotYaml
    case Some(value) => if exists l <- lines :: CannotConstruct(l) then Raises else Loaded(value)
  }

  /** `json.loads(json.dumps(..))`, or nothing where that raises. */
  function Encoded(doc: Value): Option<Value> {
    if HasDateKey(doc) then None else Some(doc)
  }

  // ---------------------------------------------------------------- dictionaries

  /** Keys with their values, in the order of the file. */
  type Pairs = seq<(Name, Option<Value>)>

  function Dict(ps: Pairs): Option<map<Name, Value>> {
    if ps == [] then Some(map[]) else InFront(ps[0].0, ps[0].1, Dict(ps[1..]))
  }

  function PairsOf(es: seq<Entry>): Pairs {
    if es == [] then [] else [(es[0].name, ValueOf(es[0]))] + PairsOf(es[1..])
  }

  lemma {:induction false} FieldsAre(es: seq<Entry>)
    ensures FieldsOf(es) == Dict(PairsOf(es))
  {
    if es != [] {
      FieldsAre(es[1..]);
    }
  }

  lemma {:induction false} PairsAt(es: seq<Entry>)
    ensures |PairsOf(es)| == |es| && forall i :: 0 <= i < |es| ==> PairsOf(es)[i] == (es[i].name, ValueOf(es[i]))
  {
    if es != [] {
      PairsAt(es[1..]);
    }
  }

  /** A key is there exactly if some pair has it. */
  lemma {:induction false} DictKeys(ps: Pairs, name: Name)
    requires Dict(ps).Some?
    ensures name in Dict(ps).value <==> exists i :: 0 <= i < |ps| && ps[i].0 == name
  {
    if ps != [] {
      DictKeys(ps[1..], name);
      if i :| 0 <= i < |ps| && ps[i].0 == name {
        if i > 0 { assert ps[1..][i - 1] == ps[i]; }
      }
    }
  }

  /** The pair that has the key last gives the value. */
  lemma {:induction false} DictLast(ps: Pairs, j: nat)
    requires Dict(ps).Some? && j < |ps| && forall i :: j < i < |ps| ==> ps[i].0 != ps[j].0
    ensures ps[j].1.Some? && ps[j].0 in Dict(ps).value && Dict(ps).value[ps[j].0] == ps[j].1.value
  {
    if j > 0 {
      assert ps[1..][j - 1] == ps[j];
      DictLast(ps[1..], j - 1);
    } else {
      DictKeys(ps[1..], ps[0].0);
    }
  }

  /** Another value for one pair. */
  lemma {:induction false} DictUpdate(ps: Pairs, j: nat, v: Value)
    requires Dict(ps).Some? && j < |ps| && forall i :: 0 <= i < |ps| && i != j ==> ps[i].0 != ps[j].0
    ensures Dict(ps[j := (ps[j].0, Some(v))]) == Some(Dict(ps).value[ps[j].0 := v])
  {
    var n := ps[j].0;
    var after := ps[j := (n, Some(v))];
    if j > 0 {
      assert ps[1..][j - 1] == ps[j] && after[1..] == ps[1..][j - 1 := (n, Some(v))];
      DictUpdate(ps[1..], j - 1, v);
      assert map[ps[0].0 := ps[0].1.value] + Dict(ps[1..]).value[n := v] == Dict(ps).value[n := v];
    } else {
      assert after[1..] == ps[1..];
      DictKeys(ps[1..], n);
      assert map[n := v] + Dict(ps[1..]).value == Dict(ps).value[n := v];
    }
  }

  /** Other keys keep their values. */
  lemma {:induction false} DictElsewhere(ps: Pairs, j: nat, value: Option<Value>, name: Name)
    requires Dict(ps).Some? && j < |ps| && ps[j].0 != name
    requires Dict(ps[j := (ps[j].0, value)]).Some?
    ensures
      var was, now := Dict(ps).value, Dict(ps[j := (ps[j].0, value)]).value;
      (name in now <==> name in was) && (name in was ==> now[name] == was[name])
  {
    var after := ps[j := (ps[j].0, value)];
    if j > 0 {
      assert ps[1..][j - 1] == ps[j] && after[1..] == ps[1..][j - 1 := (ps[j].0, value)];
      DictElsewhere(ps[1..], j - 1, value, name);
    } else {
      assert after[1..] == ps[1..];
    }
  }

  lemma {:induction false} DictAppend(ps: Pairs, name: Name, v: Value)
    requires Dict(ps).Some?
    ensures Dict(ps + [(name, Some(v))]) == Some(Dict(ps).value[name := v])
  {
    var after := ps + [(name, Some(v))];
    if ps == [] {
      assert after[1..] == [];
      assert map[name := v] + map[] == map[name := v];
    } else {
      assert after[1..] == ps[1..] + [(name, Some(v))];
      DictAppend(ps[1..], name, v);
      assert map[ps[0].0 := ps[0].1.value] + Dict(ps[1..]).value[name := v] == Dict(ps).value[name := v];
    }
  }
}
