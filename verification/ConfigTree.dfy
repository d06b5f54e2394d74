/** The configuration of the hub: the recursive merge of its sources and the lookup of dotted keys. */
module ConfigTree {
  import opened Kubernetes
  import opened Texts

  // A key of a mapping: a text, a number, or another scalar. Python takes booleans as the numbers 0 and 1.
  datatype EntryKey = Name(text: string) | Number(value: int) | OtherKey(text: string)

  // A YAML document. `Leaf` stands for nulls, fractions, dates and the like.
  datatype Value = Leaf(text: string) | Text(text: string) | Integer(value: int) | Flag(holds: bool)
                 | Items(items: seq<Value>) | Mapping(entries: map<EntryKey, Value>)

  const EMPTY := Mapping(map[])

  // The value that a merge leaves at a place where the two sides hold `a` and `b`.
  function MergeValues(a: Value, b: Value): Value
    decreases a
  {
    if a.Mapping? && b.Mapping? then
      Mapping(map key | key in a.entries.Keys + b.entries.Keys ::
        if key !in b.entries then a.entries[key]
        else if key !in a.entries then b.entries[key]
        else MergeValues(a.entries[key], b.entries[key]))
    else b
  }

  // _merge_dictionaries: a copy of `a`, overwritten key by key with what `b` says.
  method MergeDictionaries(a: map<EntryKey, Value>, b: map<EntryKey, Value>) returns (merged: map<EntryKey, Value>)
    ensures Mapping(merged) == MergeValues(Mapping(a), Mapping(b))
    decreases Mapping(a), 1
  {
    ghost var goal := MergeValues(Mapping(a), Mapping(b)).entries;
    merged := a;
    var keys := b.Keys;
    while keys != {}
      invariant keys <= b.Keys
      invariant merged.Keys == a.Keys + (b.Keys - keys)
      invariant forall key :: key in merged ==> merged[key] == if key in b && key !in keys then goal[key] else a[key]
      decreases keys
    {
      var key :| key in keys;
      var value := MergedEntry(a, b, key);
      merged := merged[key := value];
      keys := keys - {key};
    }
    assert merged == goal;
  }

  // The loop body for one key of `b`.
  method MergedEntry(a: map<EntryKey, Value>, b: map<EntryKey, Value>, key: EntryKey) returns (value: Value)
    requires key in b
    ensures key in MergeValues(Mapping(a), Mapping(b)).entries
    ensures value == MergeValues(Mapping(a), Mapping(b)).entries[key]
    decreases Mapping(a), 0
  {
    if key in a && a[key].Mapping? && b[key].Mapping? {
      var nested := MergeDictionaries(a[key].entries, b[key].entries);
      value := Mapping(nested);
    } else {
      value := b[key];
    }
  }

  // ---- Lookup ----

  // The value at the end of a path, if every step finds its key in a mapping.
  function Resolve(value: Value, path: seq<EntryKey>): Option<Value> {
    if path == [] then Some(value)
    else if value.Mapping? && path[0] in value.entries then Resolve(value.entries[path[0]], path[1..])
    else None
  }

  // A proper part of the path leads to something that is not a mapping.
  ghost predicate Blocked(value: Value, path: seq<EntryKey>) {
    exists n :: 0 <= n < |path| && Resolve(value, path[..n]).Some? && !Resolve(value, path[..n]).value.Mapping?
  }

  // A dotted key only ever looks for texts.
  function Names(levels: seq<string>): seq<EntryKey> {
    seq(|levels|, i requires 0 <= i < |levels| => Name(levels[i]))
  }

  // What a dotted key finds.
  function Look(config: Value, key: string): Option<Value> {
    Resolve(config, Names(Split(key, '.')))
  }

  // get_config: walk down from the loaded configuration.
  method GetConfig(config: Value, key: string, default: Value) returns (value: Value)
    ensures value == var found := Look(config, key); if found.Some? then found.value else default
  {
    value := config;
    var path := Split(key, '.');
    ghost var names := Names(path);
    for i := 0 to |path|
      invariant Resolve(config, names) == Resolve(value, names[i..])
    {
      if !value.Mapping? {
        return default;
      }
      var level := Name(path[i]);
      if level !in value.entries {
        return default;
      }
      value := value.entries[level];
      assert names[i..][1..] == names[i + 1..];
    }
  }

  lemma ResolveOne(config: Value, key: EntryKey)
    ensures Resolve(config, [key]) ==
            if config.Mapping? && key in config.entries then Some(config.entries[key]) else None
  {
    assert [key][1..] == [];
  }

  lemma ResolveFurther(config: Value, key: EntryKey, rest: seq<EntryKey>)
    ensures Resolve(config, [key] + rest) ==
            if config.Mapping? && key in config.entries then Resolve(config.entries[key], rest) else None
  {
    assert ([key] + rest)[1..] == rest;
  }

  /** The walk, level by level: the text before the first dot is looked up in the mapping, and the rest in what is
      found there; the last level gives the value itself. */
  lemma LookByLevels(config: Value, first: string, rest: string)
    requires '.' !in first
    ensures Look(config, first) ==
            if config.Mapping? && Name(first) in config.entries then Some(config.entries[Name(first)]) else None
    ensures Look(config, first + "." + rest) ==
            if config.Mapping? && Name(first) in config.entries
            then Look(config.entries[Name(first)], rest) else None
  {
    SplitWhole(first, '.');
    assert Names([first]) == [Name(first)];
    ResolveOne(config, Name(first));
    SplitFirst(first, rest, '.');
    var levels := Split(rest, '.');
    assert Names([first] + levels) == [Name(first)] + Names(levels);
    ResolveFurther(config, Name(first), Names(levels));
  }

  lemma BlockedBelow(value: Value, path: seq<EntryKey>)
    requires path != []
    ensures Blocked(value, path) <==>
            !value.Mapping? || (path[0] in value.entries && Blocked(value.entries[path[0]], path[1..]))
  {
    if !value.Mapping? {
      assert path[..0] == [];
      assert Resolve(value, path[..0]).Some?;
    } else if path[0] in value.entries {
      var child := value.entries[path[0]];
      if n :| 0 <= n < |path| && Resolve(value, path[..n]).Some? && !Resolve(value, path[..n]).value.Mapping? {
        assert n > 0;
        assert path[..n][1..] == path[1..][..n - 1];
        assert Resolve(child, path[1..][..n - 1]).Some?;
      }
      if n :| 0 <= n < |path[1..]| && Resolve(child, path[1..][..n]).Some?
              && !Resolve(child, path[1..][..n]).value.Mapping? {
        assert path[..n + 1][1..] == path[1..][..n];
        assert Resolve(value, path[..n + 1]).Some?;
      }
    } else {
      assert forall n :: 0 < n <= |path| ==> path[..n][0] == path[0];
    }
  }

  /** Looking up in a merge, for every path: the later source decides wherever it has a value or a
      non-mapping on the way, two mappings are merged, and what it does not mention is untouched. */
  lemma {:induction false} LookupInMerge(a: Value, b: Value, path: seq<EntryKey>)
    requires a.Mapping? && b.Mapping?
    ensures Resolve(MergeValues(a, b), path) ==
            var inA, inB := Resolve(a, path), Resolve(b, path);
            if inB.Some? then
              Some(if inA.Some? then MergeValues(inA.value, inB.value) else inB.value)
            else if Blocked(b, path) then None
            else inA
  {
    if path == [] {
    } else {
      BlockedBelow(b, path);
      var key, rest := path[0], path[1..];
      var m := MergeValues(a, b);
      if key in a.entries && key in b.entries {
        var x, y := a.entries[key], b.entries[key];
        assert m.entries[key] == MergeValues(x, y);
        if x.Mapping? && y.Mapping? {
          LookupInMerge(x, y, rest);
        } else if y.Mapping? {
          LeafLeadsNowhere(x, rest);
        } else {
          LeafLeadsNowhere(y, rest);
          if rest != [] { BlockedBelow(y, rest); }
        }
      }
    }
  }

  lemma LeafLeadsNowhere(value: Value, path: seq<EntryKey>)
    requires !value.Mapping?
    ensures Resolve(value, path).Some? <==> path == []
  {
  }

  // ---- The algebra of merging ----

  lemma EmptyIsIdentity(a: Value)
    requires a.Mapping?
    ensures MergeValues(EMPTY, a) == a && MergeValues(a, EMPTY) == a
  {
    assert MergeValues(EMPTY, a).entries == a.entries;
    assert MergeValues(a, EMPTY).entries == a.entries;
  }

  lemma {:induction false} MergeIdempotent(a: Value)
    ensures MergeValues(a, a) == a
  {
    if a.Mapping? {
      forall key | key in a.entries ensures MergeValues(a.entries[key], a.entries[key]) == a.entries[key] {
        MergeIdempotent(a.entries[key]);
      }
      assert MergeValues(a, a).entries == a.entries;
    }
  }

  // Merging the same source again, on either side, changes nothing.
  lemma {:induction false} MergeAbsorbs(a: Value, b: Value)
    ensures MergeValues(a, MergeValues(a, b)) == MergeValues(a, b)
    ensures MergeValues(MergeValues(a, b), b) == MergeValues(a, b)
  {
    MergeIdempotent(b);
    if a.Mapping? && b.Mapping? {
      var m := MergeValues(a, b);
      forall key | key in m.entries
        ensures MergeValues(a, m).entries[key] == m.entries[key]
        ensures MergeValues(m, b).entries[key] == m.entries[key]
      {
        if key in a.entries && key in b.entries {
          MergeAbsorbs(a.entries[key], b.entries[key]);
        } else if key in a.entries {
          MergeIdempotent(a.entries[key]);
        } else {
          MergeIdempotent(b.entries[key]);
        }
      }
      assert MergeValues(a, m).entries == m.entries;
      assert MergeValues(m, b).entries == m.entries;
    }
  }

  // ---- Associativity ----

  // Every path of `a` already leads somewhere in `c`, unless `c` has cut it off with a non-mapping.
  ghost predicate AddsNothing(a: Value, c: Value) {
    forall path :: Resolve(a, path).Some? ==> Resolve(c, path).Some? || Blocked(c, path)
  }

  // `b` holds a non-mapping where both `a` and `c` hold mappings.
  ghost predicate Interrupts(a: Value, b: Value, c: Value, path: seq<EntryKey>) {
    && Resolve(a, path).Some? && Resolve(a, path).value.Mapping?
    && Resolve(c, path).Some? && Resolve(c, path).value.Mapping?
    && Resolve(b, path).Some? && !Resolve(b, path).value.Mapping?
  }

  lemma {:induction false} AddsNothingIff(a: Value, c: Value)
    ensures MergeValues(a, c) == c <==> !(a.Mapping? && c.Mapping?) || AddsNothing(a, c)
  {
    if a.Mapping? && c.Mapping? {
      if MergeValues(a, c) == c {
        forall path | Resolve(a, path).Some? ensures Resolve(c, path).Some? || Blocked(c, path) {
          LookupInMerge(a, c, path);
        }
      }
      if AddsNothing(a, c) {
        forall key | key in a.entries
          ensures key in c.entries && MergeValues(a.entries[key], c.entries[key]) == c.entries[key]
        {
          AddsNothingBelow(a, c, key);
          AddsNothingIff(a.entries[key], c.entries[key]);
        }
        assert MergeValues(a, c).entries == c.entries;
      }
    }
  }

  lemma AddsNothingBelow(a: Value, c: Value, key: EntryKey)
    requires a.Mapping? && c.Mapping? && AddsNothing(a, c) && key in a.entries
    ensures key in c.entries && AddsNothing(a.entries[key], c.entries[key])
  {
    assert Resolve(a, [key]) == Some(a.entries[key]) by { assert [key][1..] == []; }
    BlockedBelow(c, [key]);
    if key in c.entries {
      assert !Blocked(c.entries[key], [key][1..]);
    }
    forall path | Resolve(a.entries[key], path).Some?
      ensures Resolve(c.entries[key], path).Some? || Blocked(c.entries[key], path)
    {
      var longer := [key] + path;
      assert longer[1..] == path;
      assert Resolve(a, longer).Some?;
      BlockedBelow(c, longer);
    }
  }

  ghost predicate Associates(a: Value, b: Value, c: Value) {
    MergeValues(MergeValues(a, b), c) == MergeValues(a, MergeValues(b, c))
  }

  /** The two ways of merging three sources agree exactly when, wherever the middle one interrupts two
      mappings, merging the first mapping into the last adds nothing. */
  lemma {:induction false} AssociativeIff(a: Value, b: Value, c: Value)
    ensures Associates(a, b, c) <==>
            forall path :: Interrupts(a, b, c, path) ==> AddsNothing(Resolve(a, path).value, Resolve(c, path).value)
  {
    AddsNothingIff(a, c);
    if a.Mapping? && b.Mapping? && c.Mapping? {
      forall key | key in a.entries && key in b.entries && key in c.entries
        ensures Associates(a.entries[key], b.entries[key], c.entries[key]) <==> AgreesBelow(a, b, c, key)
      {
        AssociativeIff(a.entries[key], b.entries[key], c.entries[key]);
        AgreesBelowIff(a, b, c, key);
      }
      AssociatesByKey(a, b, c);
      AgreesByKey(a, b, c);
    } else {
      AssociatesAtRoot(a, b, c);
      AgreesAtRoot(a, b, c);
    }
  }

  // The condition of the theorem, for the paths that begin with `key`.
  ghost predicate AgreesBelow(a: Value, b: Value, c: Value, key: EntryKey) {
    forall path :: path != [] && path[0] == key && Interrupts(a, b, c, path) ==>
      AddsNothing(Resolve(a, path).value, Resolve(c, path).value)
  }

  lemma AgreesBelowIff(a: Value, b: Value, c: Value, key: EntryKey)
    requires a.Mapping? && b.Mapping? && c.Mapping?
    requires key in a.entries && key in b.entries && key in c.entries
    ensures var x, y, z := a.entries[key], b.entries[key], c.entries[key];
      AgreesBelow(a, b, c, key) <==>
      forall path :: Interrupts(x, y, z, path) ==> AddsNothing(Resolve(x, path).value, Resolve(z, path).value)
  {
    var x, y, z := a.entries[key], b.entries[key], c.entries[key];
    forall path ensures var longer := [key] + path;
      && Resolve(a, longer) == Resolve(x, path)
      && Resolve(b, longer) == Resolve(y, path)
      && Resolve(c, longer) == Resolve(z, path)
    {
      assert ([key] + path)[1..] == path;
    }
    if AgreesBelow(a, b, c, key) {
      forall path | Interrupts(x, y, z, path) ensures AddsNothing(Resolve(x, path).value, Resolve(z, path).value) {
        assert Interrupts(a, b, c, [key] + path);
      }
    }
    if forall path :: Interrupts(x, y, z, path) ==> AddsNothing(Resolve(x, path).value, Resolve(z, path).value) {
      forall path | path != [] && path[0] == key && Interrupts(a, b, c, path)
        ensures AddsNothing(Resolve(a, path).value, Resolve(c, path).value)
      {
        assert path == [key] + path[1..];
        assert Interrupts(x, y, z, path[1..]);
      }
    }
  }

  lemma AgreesByKey(a: Value, b: Value, c: Value)
    requires a.Mapping? && b.Mapping? && c.Mapping?
    ensures (forall path :: Interrupts(a, b, c, path) ==> AddsNothing(Resolve(a, path).value, Resolve(c, path).value))
            <==> forall key :: key in a.entries && key in b.entries && key in c.entries ==> AgreesBelow(a, b, c, key)
  {
    if forall key :: key in a.entries && key in b.entries && key in c.entries ==> AgreesBelow(a, b, c, key) {
      forall path | Interrupts(a, b, c, path)
        ensures AddsNothing(Resolve(a, path).value, Resolve(c, path).value)
      {
        assert path != [];
        assert AgreesBelow(a, b, c, path[0]);
      }
    }
  }

  lemma AssociatesByKey(a: Value, b: Value, c: Value)
    requires a.Mapping? && b.Mapping? && c.Mapping?
    ensures Associates(a, b, c) <==>
            forall key :: key in a.entries && key in b.entries && key in c.entries ==>
              Associates(a.entries[key], b.entries[key], c.entries[key])
  {
    var ab, bc := MergeValues(a, b), MergeValues(b, c);
    var left, right := MergeValues(ab, c), MergeValues(a, bc);
    assert left.entries.Keys == right.entries.Keys;
    forall key | key in left.entries
      ensures left.entries[key] == right.entries[key] <==>
              (key in a.entries && key in b.entries && key in c.entries ==>
                 Associates(a.entries[key], b.entries[key], c.entries[key]))
    {
    }
    assert Associates(a, b, c) <==> left.entries == right.entries;
  }

  // Where one of the three is not a mapping, only a non-mapping in the middle can make a difference.
  lemma AssociatesAtRoot(a: Value, b: Value, c: Value)
    requires !(a.Mapping? && b.Mapping? && c.Mapping?)
    ensures Associates(a, b, c) <==> (a.Mapping? && c.Mapping? && !b.Mapping? ==> MergeValues(a, c) == c)
  {
  }

  lemma AgreesAtRoot(a: Value, b: Value, c: Value)
    requires !(a.Mapping? && b.Mapping? && c.Mapping?)
    ensures (forall path :: Interrupts(a, b, c, path) ==> AddsNothing(Resolve(a, path).value, Resolve(c, path).value))
            <==> (a.Mapping? && c.Mapping? && !b.Mapping? ==> AddsNothing(a, c))
  {
    forall path | Interrupts(a, b, c, path) ensures path == [] {
    }
    assert Resolve(a, []) == Some(a) && Resolve(c, []) == Some(c);
    if a.Mapping? && c.Mapping? && !b.Mapping? {
      assert Interrupts(a, b, c, []);
    }
  }

  // Three sources for which the order of merging matters.
  lemma NotAlwaysAssociative()
    ensures var a := Mapping(map[Name("x") := Mapping(map[Name("y") := Leaf("1")])]);
      var b := Mapping(map[Name("x") := Leaf("2")]);
      var c := Mapping(map[Name("x") := EMPTY]);
      !Associates(a, b, c)
  {
    var a := Mapping(map[Name("x") := Mapping(map[Name("y") := Leaf("1")])]);
    var b := Mapping(map[Name("x") := Leaf("2")]);
    var c := Mapping(map[Name("x") := EMPTY]);
    assert MergeValues(b, c).entries[Name("x")] == EMPTY;
    assert MergeValues(MergeValues(a, b), c).entries[Name("x")] == EMPTY;
    assert Name("y") in MergeValues(a, MergeValues(b, c)).entries[Name("x")].entries;
  }

  // The value that is found by going from mapping to mapping, one level after the other.
  function Descend(config: Value, levels: seq<string>): Option<Value> {
    if levels == [] then Some(config)
    else if config.Mapping? && Name(levels[0]) in config.entries
      then Descend(config.entries[Name(levels[0])], levels[1..])
    else None
  }

  // Every path of texts without dots is reached by joining them with dots.
  lemma {:induction false} DottedKeyReaches(levels: seq<string>, config: Value)
    requires levels != [] && Free(levels, '.')
    ensures Look(config, Join(levels, '.')) == Descend(config, levels)
  {
    var first, rest := levels[0], levels[1..];
    LookByLevels(config, first, Join(rest, '.'));
    if rest != [] {
      assert Join(levels, '.') == first + "." + Join(rest, '.');
      if config.Mapping? && Name(first) in config.entries {
        DottedKeyReaches(rest, config.entries[Name(first)]);
      }
    }
  }

  // ---- Loading ----

  // One source file: not mounted, or parsed.
  datatype Source = Missing | Parsed(document: Value)

  // What an element of a list can be used for as an index, if it can.
  function IndexOf(element: Value): Option<int> {
    match element
    case Integer(value) => Some(value)
    case Flag(holds) => Some(if holds then 1 else 0)
    case _ => None
  }

  predicate IsIndex(element: Value, length: nat) {
    IndexOf(element).Some? && 0 <= IndexOf(element).value + length < 2 * length
  }

  // Python counts negative indices from the end.
  function ElementAt(items: seq<Value>, index: int): Value
    requires -|items| <= index < |items|
  {
    items[if index < 0 then index + |items| else index]
  }

  /** What the loop finds in a document: each key that it yields, with the value that indexing by it gives; None
      if that raises. A list of numbers that index into itself passes, and so does whatever is empty. */
  function Keyed(document: Value): Option<Value> {
    match document
    case Mapping(_) => Some(document)
    case Text(text) => if text == "" then Some(EMPTY) else None
    case Items(items) =>
      if forall i :: 0 <= i < |items| ==> IsIndex(items[i], |items|)
      then
        var keys := set i | 0 <= i < |items| :: Number(IndexOf(items[i]).value);
        Some(Mapping(map key | key in keys :: ElementAt(items, key.value)))
      else None
    case _ => None
  }

  // The numbers that the elements of a list are taken for, if all are.
  ghost predicate AreNumbers(items: seq<Value>, numbers: seq<int>) {
    && |numbers| == |items|
    && forall i :: 0 <= i < |items| ==>
         || items[i] == Integer(numbers[i])
         || (items[i] == Flag(true) && numbers[i] == 1)
         || (items[i] == Flag(false) && numbers[i] == 0)
  }

  // A list of numbers passes exactly when each of them indexes into it.
  lemma ListPassesIff(items: seq<Value>, numbers: seq<int>)
    requires AreNumbers(items, numbers)
    ensures Keyed(Items(items)).Some? <==> forall i :: 0 <= i < |items| ==> -|items| <= numbers[i] < |items|
  {
    assert forall i :: 0 <= i < |items| ==>
      IndexOf(items[i]) == Some(numbers[i]) && (IsIndex(items[i], |items|) <==> -|items| <= numbers[i] < |items|);
  }

  // Then it maps each number to the element at that position, counted from the end if negative.
  lemma ListMaps(items: seq<Value>, numbers: seq<int>, k: int)
    requires AreNumbers(items, numbers) && Keyed(Items(items)).Some?
    ensures var list := Keyed(Items(items)).value;
      && list.Mapping?
      && (Number(k) in list.entries <==> k in numbers)
      && (k in numbers ==>
            && -|items| <= k < |items|
            && list.entries[Number(k)] == if k < 0 then items[|items| + k] else items[k])
      && forall key :: key in list.entries ==> key.Number?
  {
    ListPassesIff(items, numbers);
    assert forall i :: 0 <= i < |items| ==> IndexOf(items[i]) == Some(numbers[i]);
    if k in numbers {
      var i :| 0 <= i < |numbers| && numbers[i] == k;
      assert IsIndex(items[i], |items|);
    }
  }

  /** All other documents: mappings stand for themselves, what is empty for an empty mapping, and the rest, also a
      list with an element that is no number, makes the merge raise. */
  lemma DocumentsMean(document: Value)
    ensures document.Mapping? ==> Keyed(document) == Some(document)
    ensures document == Text("") || document == Items([]) ==> Keyed(document) == Some(Mapping(map[]))
    ensures document.Text? && document != Text("") ==> Keyed(document) == None
    ensures document.Leaf? || document.Integer? || document.Flag? ==> Keyed(document) == None
    ensures document.Items? && (exists item :: item in document.items && !item.Integer? && !item.Flag?) ==>
              Keyed(document) == None
  {
    if document == Items([]) {
      assert Keyed(document).value.entries == map[];
    } else if document.Items? {
      if item :| item in document.items && !item.Integer? && !item.Flag? {
        assert !IsIndex(item, |document.items|);
      }
    }
  }

  // A list that passes changes nothing that a dotted key reaches.
  lemma ListIsInvisible(a: Value, items: seq<Value>, levels: seq<string>)
    requires a.Mapping? && Keyed(Items(items)).Some? && levels != []
    ensures Resolve(MergeValues(a, Keyed(Items(items)).value), Names(levels)) == Resolve(a, Names(levels))
  {
    var list, path := Keyed(Items(items)).value, Names(levels);
    LookupInMerge(a, list, path);
    BlockedBelow(list, path);
  }

  predicate Mergeable(source: Source) {
    source.Parsed? ==> Keyed(source.document).Some?
  }

  function Contribution(source: Source): Value {
    match source
    case Missing => EMPTY
    case Parsed(document) => if Keyed(document).Some? then Keyed(document).value else EMPTY
  }

  /** _load_config: the chart's own secret first, then the existing secret on top of it. A document without
      keys that can be looped over and looked up raises. */
  method LoadConfig(secret: Source, existing: Source) returns (config: Option<Value>)
    ensures config.Some? <==> Mergeable(secret) && Mergeable(existing)
    ensures config.Some? ==> config.value == MergeValues(Contribution(secret), Contribution(existing))
    ensures secret == Missing && existing == Missing ==> config == Some(Mapping(map[]))
    ensures secret.Parsed? && secret.document.Mapping? && existing == Missing ==> config == Some(secret.document)
    ensures existing.Parsed? && existing.document.Mapping? && secret == Missing ==> config == Some(existing.document)
    ensures secret.Parsed? && secret.document.Mapping? && existing.Parsed? && existing.document.Mapping? ==>
              && config.Some?
              && forall path ::
                   var inSecret, inExisting := Resolve(secret.document, path), Resolve(existing.document, path);
                   Resolve(config.value, path) ==
                   if inExisting.Some? then
                     Some(if inSecret.Some? then MergeValues(inSecret.value, inExisting.value) else inExisting.value)
                   else if Blocked(existing.document, path) then None
                   else inSecret
  {
    var cfg := map[];
    var sources := [secret, existing];
    assert sources[0] == secret && sources[1] == existing;
    for i := 0 to |sources|
      invariant forall j :: 0 <= j < i ==> Mergeable(sources[j])
      invariant i == 0 ==> cfg == map[]
      invariant i == 1 ==> Mapping(cfg) == Contribution(secret)
      invariant i == 2 ==> Mapping(cfg) == MergeValues(Contribution(secret), Contribution(existing))
    {
      EmptyIsIdentity(Mapping(cfg));
      match sources[i]
      case Missing =>
      case Parsed(document) =>
        var keyed := Keyed(document);
        if keyed.None? {
          assert !Mergeable(sources[i]);
          return None;
        }
        EmptyIsIdentity(keyed.value);
        cfg := MergeDictionaries(cfg, keyed.value.entries);
    }
    assert forall j :: 0 <= j < 2 ==> Mergeable(sources[j]);
    config := Some(Mapping(cfg));
    EmptyIsIdentity(Contribution(secret));
    EmptyIsIdentity(Contribution(existing));
    forall path {
      LookupInMerge(Contribution(secret), Contribution(existing), path);
    }
  }
}
