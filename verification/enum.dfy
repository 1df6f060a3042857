/**
 * Enumerations. Each enum class declares its members as static properties holding enum
 * objects (a scalar value and a title); a registry shared by all enum classes maps a class
 * name to its table, an ordered PHP array from the member's key to the member. The table
 * is filled on first use (`init`) and may be extended later (`push`).
 *
 * The members `init` collects by reflection are passed in as a sequence, in declaration
 * order. Enum objects are values here: their identity is not modelled.
 */
module Enums {
  import opened Wrappers
  import opened Php
  import opened Errors

  type Scalar = v: Value | IsScalar(v) witness Bool(false)

  /** One enum object: `getValue()` and `getTitle()`. */
  datatype EnumValue = EnumValue(value: Scalar, title: string)

  /** `new Enum($value, $title)`: only a scalar value and a string title are accepted. */
  function MakeEnumValue(value: Value, title: Value): (r: Result<EnumValue, Error>)
    ensures r.Success? <==> IsScalar(value) && title.Str?
    ensures r.Success? ==> r.value.value == value && r.value.title == title.s
    ensures !IsScalar(value) ==> r == Failure(InvalidArgument(ValueNotScalar))
    ensures IsScalar(value) && !title.Str? ==> r == Failure(InvalidArgument(TitleNotText))
  {
    if !IsScalar(value) then Failure(InvalidArgument(ValueNotScalar))
    else if !title.Str? then Failure(InvalidArgument(TitleNotText))
    else Success(EnumValue(value, title.s))
  }

  /** `valueToKey($value)`: booleans become the strings "true" and "false", integers and
      strings are kept. */
  function ValueToKey(v: Scalar): (r: Scalar)
    ensures !r.Bool?
    ensures !v.Bool? ==> r == v
    ensures v.Bool? ==> r.Str? && (r.s == "true" <==> v.b) && (r.s == "false" <==> !v.b)
  {
    match v
    case Bool(b) => Str(if b then "true" else "false")
    case _ => v
  }

  /** The key a member is stored under: its `valueToKey` form, normalised as an array key. */
  function EnumKey(v: Scalar): Key {
    OffsetKey(ValueToKey(v))
  }

  /** One class's table: an ordered array from key to member. */
  datatype Table = Table(keys: seq<Key>, objects: map<Key, EnumValue>) {
    /** The order lists every key exactly once. */
    ghost predicate Valid() {
      (forall i, j :: 0 <= i < j < |keys| ==> keys[i] != keys[j]) &&
      (forall k :: k in objects <==> k in keys)
    }

    /** `$table[$k] = $e`: overwrites in place, or appends a new key at the end. */
    function Put(k: Key, e: EnumValue): (r: Table)
      requires Valid()
      ensures r.Valid()
      ensures r.objects == objects[k := e]
      ensures k in objects ==> r.keys == keys
      ensures k !in objects ==> r.keys == keys + [k]
    {
      if k in objects then Table(keys, objects[k := e]) else Table(keys + [k], objects[k := e])
    }
  }

  const EmptyTable: Table := Table([], map[])

  /** The table obtained by storing the members one after the other under their keys. */
  function Build(es: seq<EnumValue>): (t: Table)
    ensures t.Valid()
  {
    if es == [] then EmptyTable
    else Build(es[..|es| - 1]).Put(EnumKey(es[|es| - 1].value), es[|es| - 1])
  }

  /** The repetition test of `init` as written: it asks whether the raw value (not its
      `valueToKey` form) is already a key of the table built so far. */
  predicate ProbeHits(es: seq<EnumValue>, i: int)
    requires 0 <= i < |es|
  {
    OffsetKey(es[i].value) in Build(es[..i]).objects
  }

  /** The first member at or after `from` that the repetition test flags. */
  function FirstRepeatFrom(es: seq<EnumValue>, from: nat): (r: Option<nat>)
    requires from <= |es|
    ensures r.Some? ==> from <= r.value < |es| && ProbeHits(es, r.value)
    ensures r.Some? ==> forall j :: from <= j < r.value ==> !ProbeHits(es, j)
    ensures r.None? ==> forall j :: from <= j < |es| ==> !ProbeHits(es, j)
    decreases |es| - from
  {
    if from == |es| then None
    else if ProbeHits(es, from) then Some(from)
    else FirstRepeatFrom(es, from + 1)
  }

  /** How many members `init` stores: those before the first flagged one, or all. */
  function Stop(declared: seq<EnumValue>): (n: nat)
    ensures n <= |declared|
  {
    match FirstRepeatFrom(declared, 0)
    case Some(i) => i
    case None => |declared|
  }

  /** The class's table after `init`: the table it had, if it had one; otherwise the
      members up to the first one flagged as a repetition (all of them when none is). */
  function InitTable(valueMap: map<string, Table>, className: string, declared: seq<EnumValue>): Table {
    if className in valueMap then valueMap[className] else Build(declared[..Stop(declared)])
  }

  /** `m` agrees with `m0` on every class other than `className`. */
  ghost predicate OthersUnchanged(m: map<string, Table>, m0: map<string, Table>, className: string) {
    forall c :: c != className ==> (c in m <==> c in m0) && (c in m ==> m[c] == m0[c])
  }

  /** Replacing one class's table leaves every other class as it was. */
  lemma StoreKeepsOthers(m: map<string, Table>, m0: map<string, Table>, className: string, t: Table)
    requires OthersUnchanged(m, m0, className)
    ensures OthersUnchanged(m[className := t], m0, className)
  {
  }

  /** What `init` throws: nothing for a known class; for a new one, an exception when no
      members are declared or one is flagged as a repetition. */
  function InitOutcome(valueMap: map<string, Table>, className: string, declared: seq<EnumValue>)
    : Outcome<Error>
  {
    if className in valueMap then Pass
    else if declared == [] then Fail(PlainError(NoEnumValues(className)))
    else match FirstRepeatFrom(declared, 0)
      case Some(i) => Fail(PlainError(RepeatedValue(className, declared[i].value)))
      case None => Pass
  }

  /** The repetition test `init` evidently intends: is the member's own key (its
      `valueToKey` form) already taken in the table built so far? */
  predicate KeyProbeHits(es: seq<EnumValue>, i: int)
    requires 0 <= i < |es|
  {
    EnumKey(es[i].value) in Build(es[..i]).objects
  }

  /** The first member at or after `from` whose key is already taken. */
  function FirstKeyRepeatFrom(es: seq<EnumValue>, from: nat): (r: Option<nat>)
    requires from <= |es|
    ensures r.Some? ==> from <= r.value < |es| && KeyProbeHits(es, r.value)
    ensures r.Some? ==> forall j :: from <= j < r.value ==> !KeyProbeHits(es, j)
    ensures r.None? ==> forall j :: from <= j < |es| ==> !KeyProbeHits(es, j)
    decreases |es| - from
  {
    if from == |es| then None
    else if KeyProbeHits(es, from) then Some(from)
    else FirstKeyRepeatFrom(es, from + 1)
  }

  /** What `init` would throw for a new class with the corrected repetition test. */
  function CorrectedInitOutcome(valueMap: map<string, Table>, className: string, declared: seq<EnumValue>)
    : Outcome<Error>
  {
    if className in valueMap then Pass
    else if declared == [] then Fail(PlainError(NoEnumValues(className)))
    else match FirstKeyRepeatFrom(declared, 0)
      case Some(i) => Fail(PlainError(RepeatedValue(className, declared[i].value)))
      case None => Pass
  }

  /** Storing one more member extends the table built from the members before it. */
  lemma BuildStep(es: seq<EnumValue>, i: nat)
    requires i < |es|
    ensures Build(es[..i + 1]) == Build(es[..i]).Put(EnumKey(es[i].value), es[i])
  {
    assert es[..i + 1][..i] == es[..i];
  }

  /** The search for the first flagged member stops at a flagged one when it gets there,
      and moves past one that is not flagged. */
  lemma RepeatFound(es: seq<EnumValue>, i: nat)
    requires i < |es|
    ensures ProbeHits(es, i) ==> FirstRepeatFrom(es, i) == Some(i)
    ensures !ProbeHits(es, i) ==> FirstRepeatFrom(es, i) == FirstRepeatFrom(es, i + 1)
  {
  }

  /** `init` of a new class with members stops at the first flagged member, or takes them all. */
  lemma InitStops(valueMap: map<string, Table>, className: string, declared: seq<EnumValue>)
    requires className !in valueMap && declared != []
    ensures FirstRepeatFrom(declared, 0).Some? ==>
      var i := FirstRepeatFrom(declared, 0).value;
      InitTable(valueMap, className, declared) == Build(declared[..i]) &&
      InitOutcome(valueMap, className, declared) == Fail(PlainError(RepeatedValue(className, declared[i].value)))
    ensures FirstRepeatFrom(declared, 0).None? ==>
      InitTable(valueMap, className, declared) == Build(declared) &&
      InitOutcome(valueMap, className, declared) == Pass
  {
    if FirstRepeatFrom(declared, 0).None? {
      assert declared[..|declared|] == declared;
    }
  }

  /** The registry shared by every enum class (`Enum::$valueMap`). */
  class Registry {
    var valueMap: map<string, Table>

    ghost predicate Valid()
      reads this
    {
      forall c :: c in valueMap ==> valueMap[c].Valid()
    }

    constructor ()
      ensures valueMap == map[] && Valid()
    {
      valueMap := map[];
    }

    /** `init()` for `className`. The class's (empty) table is registered before the members
        are checked, so a failed `init` leaves a partial table that later calls accept. */
    method Init(className: string, declared: seq<EnumValue>) returns (r: Outcome<Error>)
      requires Valid()
      modifies this
      ensures Valid()
      ensures className in valueMap && valueMap[className] == InitTable(old(valueMap), className, declared)
      ensures OthersUnchanged(valueMap, old(valueMap), className)
      ensures r == InitOutcome(old(valueMap), className, declared)
    {
      if className in valueMap {
        return Pass;
      }
      valueMap := valueMap[className := EmptyTable];
      if |declared| == 0 {
        return Fail(PlainError(NoEnumValues(className)));
      }
      var i := 0;
      while i < |declared|
        invariant 0 <= i <= |declared|
        invariant className in valueMap && valueMap[className] == Build(declared[..i])
        invariant OthersUnchanged(valueMap, old(valueMap), className)
        invariant Valid()
        invariant FirstRepeatFrom(declared, 0) == FirstRepeatFrom(declared, i)
      {
        var e := declared[i];
        var table := valueMap[className];
        if OffsetKey(e.value) in table.objects {
          RepeatFound(declared, i);
          InitStops(old(valueMap), className, declared);
          return Fail(PlainError(RepeatedValue(className, e.value)));
        }
        BuildStep(declared, i);
        StoreKeepsOthers(valueMap, old(valueMap), className, table.Put(EnumKey(e.value), e));
        valueMap := valueMap[className := table.Put(EnumKey(e.value), e)];
        i := i + 1;
      }
      assert declared[..i] == declared;
      InitStops(old(valueMap), className, declared);
      return Pass;
    }

    /** `getEnumObject($value)`: null for an empty value; otherwise, after `init`, the member
        stored under the value's key. */
    method GetEnumObject(className: string, declared: seq<EnumValue>, v: Value)
      returns (r: Result<Option<EnumValue>, Error>)
      requires Valid()
      modifies this
      ensures Valid()
      ensures Empty(v) ==> r == Success(None) && valueMap == old(valueMap)
      ensures !Empty(v) && !IsScalar(v) ==> r == Failure(InvalidArgument(LookupNotScalar)) && valueMap == old(valueMap)
      ensures !Empty(v) && IsScalar(v) ==>
        var init := InitOutcome(old(valueMap), className, declared);
        var table := InitTable(old(valueMap), className, declared);
        className in valueMap && valueMap[className] == table &&
        OthersUnchanged(valueMap, old(valueMap), className) &&
        (init.Fail? ==> r == Failure(init.error)) &&
        (init.Pass? && EnumKey(v) in table.objects ==> r == Success(Some(table.objects[EnumKey(v)]))) &&
        (init.Pass? && EnumKey(v) !in table.objects ==> r == Failure(OutOfBounds(NoSuchValue(className, v))))
    {
      if Empty(v) {
        return Success(None);
      }
      if !IsScalar(v) {
        return Failure(InvalidArgument(LookupNotScalar));
      }
      var init := Init(className, declared);
      if init.Fail? {
        return Failure(init.error);
      }
      var key := EnumKey(v);
      if key !in valueMap[className].objects {
        return Failure(OutOfBounds(NoSuchValue(className, v)));
      }
      return Success(Some(valueMap[className].objects[key]));
    }

    /** `getValueList()`: after `init`, the keys of the class's table in insertion order. */
    method GetValueList(className: string, declared: seq<EnumValue>) returns (r: Result<seq<Key>, Error>)
      requires Valid()
      modifies this
      ensures Valid()
      ensures className in valueMap && valueMap[className] == InitTable(old(valueMap), className, declared)
      ensures OthersUnchanged(valueMap, old(valueMap), className)
      ensures var init := InitOutcome(old(valueMap), className, declared);
        (init.Fail? ==> r == Failure(init.error)) &&
        (init.Pass? ==> r == Success(valueMap[className].keys))
    {
      var init := Init(className, declared);
      if init.Fail? {
        return Failure(init.error);
      }
      return Success(valueMap[className].keys);
    }

    /** `getAll()`: after `init`, the class's whole table. */
    method GetAll(className: string, declared: seq<EnumValue>) returns (r: Result<Table, Error>)
      requires Valid()
      modifies this
      ensures Valid()
      ensures className in valueMap && valueMap[className] == InitTable(old(valueMap), className, declared)
      ensures OthersUnchanged(valueMap, old(valueMap), className)
      ensures var init := InitOutcome(old(valueMap), className, declared);
        (init.Fail? ==> r == Failure(init.error)) &&
        (init.Pass? ==> r == Success(valueMap[className]))
    {
      var init := Init(className, declared);
      if init.Fail? {
        return Failure(init.error);
      }
      return Success(valueMap[className]);
    }

    /** `push($enum)`: stores the member under its key, overwriting whatever was there, with
        no repetition check and without running `init` (a pushed-to class is thereafter
        taken as initialised). */
    method Push(className: string, e: EnumValue)
      requires Valid()
      modifies this
      ensures Valid()
      ensures var before := if className in old(valueMap) then old(valueMap)[className] else EmptyTable;
        className in valueMap && valueMap[className] == before.Put(EnumKey(e.value), e)
      ensures OthersUnchanged(valueMap, old(valueMap), className)
    {
      var before := if className in valueMap then valueMap[className] else EmptyTable;
      valueMap := valueMap[className := before.Put(EnumKey(e.value), e)];
    }
  }

  // ---------------------------------------------------------------------------
  // Properties of the table and of `init`

  /** After `push`, the member is found under its key, and every other key still finds
      what it found before. */
  lemma PushThenLookup(t: Table, e: EnumValue, k: Key)
    requires t.Valid()
    ensures t.Put(EnumKey(e.value), e).objects[EnumKey(e.value)] == e
    ensures k != EnumKey(e.value) ==>
      (k in t.Put(EnumKey(e.value), e).objects <==> k in t.objects) &&
      (k in t.objects ==> t.Put(EnumKey(e.value), e).objects[k] == t.objects[k])
  {
  }

  /** `init` of a new class throws when it declares no members, and otherwise exactly when
      the repetition test flags a member, naming a flagged member's value. */
  lemma InitOutcomeMeaning(valueMap: map<string, Table>, className: string, declared: seq<EnumValue>)
    requires className !in valueMap
    ensures var r := InitOutcome(valueMap, className, declared);
      (declared == [] ==> r == Fail(PlainError(NoEnumValues(className)))) &&
      (declared != [] ==> (r.Pass? <==> forall j :: 0 <= j < |declared| ==> !ProbeHits(declared, j))) &&
      (r.Fail? && declared != [] ==>
        exists j :: 0 <= j < |declared| && ProbeHits(declared, j) &&
          r.error == PlainError(RepeatedValue(className, declared[j].value)))
  {
    var r := InitOutcome(valueMap, className, declared);
    if r.Fail? && declared != [] {
      var j := FirstRepeatFrom(declared, 0).value;
      assert ProbeHits(declared, j);
    }
  }

  /** `init` is idempotent: once it has run for a class, whether it threw or not, running
      it again (with any members) throws nothing and changes nothing. */
  method InitTwice(registry: Registry, className: string, declared: seq<EnumValue>, again: seq<EnumValue>)
    returns (first: Outcome<Error>, second: Outcome<Error>)
    requires registry.Valid()
    modifies registry
    ensures second == Pass
    ensures first == InitOutcome(old(registry.valueMap), className, declared)
    ensures className in registry.valueMap
    ensures registry.valueMap[className] == InitTable(old(registry.valueMap), className, declared)
    ensures OthersUnchanged(registry.valueMap, old(registry.valueMap), className)
  {
    first := registry.Init(className, declared);
    second := registry.Init(className, again);
  }

  /** Whether any member has a boolean value, the one case where the repetition test and the
      storage key disagree. */
  predicate NoBools(es: seq<EnumValue>) {
    forall i :: 0 <= i < |es| ==> !es[i].value.Bool?
  }

  /** The keys of the members, in declaration order. */
  function KeysOf(es: seq<EnumValue>): (ks: seq<Key>)
    ensures |ks| == |es| && forall i :: 0 <= i < |es| ==> ks[i] == EnumKey(es[i].value)
  {
    seq(|es|, i requires 0 <= i < |es| => EnumKey(es[i].value))
  }

  lemma PutFresh(t: Table, k: Key, e: EnumValue, old_k: Key)
    requires t.Valid() && k !in t.objects && old_k in t.objects
    ensures t.Put(k, e).objects[old_k] == t.objects[old_k]
  {
  }

  lemma KeysOfLast(es: seq<EnumValue>)
    requires es != []
    ensures KeysOf(es) == KeysOf(es[..|es| - 1]) + [EnumKey(es[|es| - 1].value)]
  {
    assert KeysOf(es)[..|es| - 1] == KeysOf(es[..|es| - 1]);
  }

  lemma ProbeOfPrefix(es: seq<EnumValue>, n: nat, j: nat)
    requires j < n <= |es|
    ensures KeyProbeHits(es[..n], j) == KeyProbeHits(es, j)
  {
    assert es[..n][..j] == es[..j];
  }

  /** When no member's key is already taken as it is stored, the table lists every member in
      declaration order, each under its own key. */
  lemma {:induction false} BuildInOrder(es: seq<EnumValue>)
    requires forall j :: 0 <= j < |es| ==> !KeyProbeHits(es, j)
    ensures Build(es).keys == KeysOf(es)
    ensures forall i :: 0 <= i < |es| ==> Build(es).objects[EnumKey(es[i].value)] == es[i]
  {
    if es != [] {
      var n := |es| - 1;
      var prefix := es[..n];
      forall j | 0 <= j < n
        ensures !KeyProbeHits(prefix, j)
      {
        ProbeOfPrefix(es, n, j);
      }
      BuildInOrder(prefix);
      assert !KeyProbeHits(es, n) && es == prefix + [es[n]];
      assert Build(es) == Build(prefix).Put(EnumKey(es[n].value), es[n]);
      BuildInOrderStep(Build(prefix), prefix, es[n]);
    }
  }

  /** The step of `BuildInOrder`: storing a member under a fresh key extends a table that
      lists the members before it in order. */
  lemma BuildInOrderStep(t: Table, prefix: seq<EnumValue>, e: EnumValue)
    requires t.Valid() && EnumKey(e.value) !in t.objects
    requires t.keys == KeysOf(prefix)
    requires forall i :: 0 <= i < |prefix| ==> t.objects[EnumKey(prefix[i].value)] == prefix[i]
    ensures t.Put(EnumKey(e.value), e).keys == KeysOf(prefix + [e])
    ensures forall i :: 0 <= i < |prefix + [e]| ==>
      t.Put(EnumKey(e.value), e).objects[EnumKey((prefix + [e])[i].value)] == (prefix + [e])[i]
  {
    var es, k := prefix + [e], EnumKey(e.value);
    assert es[..|es| - 1] == prefix;
    KeysOfLast(es);
    PutKeepsStored(t, k, e, prefix);
    forall i | 0 <= i < |es|
      ensures t.Put(k, e).objects[EnumKey(es[i].value)] == es[i]
    {
      if i < |prefix| {
        assert es[i] == prefix[i];
      }
    }
  }

  /** Storing a member under a fresh key keeps every member already stored. */
  lemma PutKeepsStored(t: Table, k: Key, e: EnumValue, stored: seq<EnumValue>)
    requires t.Valid() && k !in t.objects
    requires forall i :: 0 <= i < |stored| ==>
      EnumKey(stored[i].value) in t.objects && t.objects[EnumKey(stored[i].value)] == stored[i]
    ensures t.Put(k, e).objects[k] == e
    ensures forall i :: 0 <= i < |stored| ==>
      EnumKey(stored[i].value) in t.Put(k, e).objects && t.Put(k, e).objects[EnumKey(stored[i].value)] == stored[i]
  {
    forall i | 0 <= i < |stored|
      ensures EnumKey(stored[i].value) in t.Put(k, e).objects
      ensures t.Put(k, e).objects[EnumKey(stored[i].value)] == stored[i]
    {
      PutFresh(t, k, e, EnumKey(stored[i].value));
    }
  }

  /** Every key of a built table is the key of one of the members it was built from. */
  lemma {:induction false} BuildKeysFrom(es: seq<EnumValue>, k: Key)
    requires k in Build(es).objects
    ensures exists i :: 0 <= i < |es| && k == EnumKey(es[i].value)
  {
    assert es != [];
    var n := |es| - 1;
    var prefix := es[..n];
    if k != EnumKey(es[n].value) {
      BuildKeysFrom(prefix, k);
      var i :| 0 <= i < n && k == EnumKey(prefix[i].value);
      assert es[i] == prefix[i];
    }
  }

  /** A member whose key is already taken shares it with an earlier member. */
  lemma ProbeWitness(es: seq<EnumValue>, j: int)
    requires 0 <= j < |es|
    ensures KeyProbeHits(es, j) ==> exists i :: 0 <= i < j && EnumKey(es[i].value) == EnumKey(es[j].value)
  {
    if KeyProbeHits(es, j) {
      BuildKeysFrom(es[..j], EnumKey(es[j].value));
      var i :| 0 <= i < j && EnumKey(es[j].value) == EnumKey(es[..j][i].value);
      assert es[..j][i] == es[i];
    }
  }

  /** The corrected test tells the members apart by their keys, booleans included: it
      flags no member exactly when no two members share a key. */
  lemma KeyRepeatIffDistinct(es: seq<EnumValue>)
    ensures (forall j :: 0 <= j < |es| ==> !KeyProbeHits(es, j)) <==>
      (forall i, j :: 0 <= i < j < |es| ==> EnumKey(es[i].value) != EnumKey(es[j].value))
  {
    if forall j :: 0 <= j < |es| ==> !KeyProbeHits(es, j) {
      BuildInOrder(es);
      forall i, j | 0 <= i < j < |es|
        ensures EnumKey(es[i].value) != EnumKey(es[j].value)
      {
        assert Build(es).keys[i] == EnumKey(es[i].value) && Build(es).keys[j] == EnumKey(es[j].value);
      }
    }
    if forall i, j :: 0 <= i < j < |es| ==> EnumKey(es[i].value) != EnumKey(es[j].value) {
      forall j | 0 <= j < |es|
        ensures !KeyProbeHits(es, j)
      {
        ProbeWitness(es, j);
      }
    }
  }

  /** With the corrected test, `init` of a new class passes exactly when members are declared
      and no two share a key; when it throws for a repetition, the member it names shares
      its key with an earlier one. */
  lemma CorrectedInitMeaning(valueMap: map<string, Table>, className: string, declared: seq<EnumValue>)
    requires className !in valueMap
    ensures var r := CorrectedInitOutcome(valueMap, className, declared);
      (r.Pass? <==> (declared != [] &&
        forall i, j :: 0 <= i < j < |declared| ==> EnumKey(declared[i].value) != EnumKey(declared[j].value))) &&
      (r.Fail? && declared != [] ==>
        exists i, j :: 0 <= i < j < |declared| && EnumKey(declared[i].value) == EnumKey(declared[j].value) &&
          r.error == PlainError(RepeatedValue(className, declared[j].value)))
  {
    KeyRepeatIffDistinct(declared);
    var first := FirstKeyRepeatFrom(declared, 0);
    if declared != [] && first.Some? {
      var j := first.value;
      ProbeWitness(declared, j);
      var i :| 0 <= i < j && EnumKey(declared[i].value) == EnumKey(declared[j].value);
      assert CorrectedInitOutcome(valueMap, className, declared) == Fail(PlainError(RepeatedValue(className, declared[j].value)));
    }
  }

  /** Without booleans, the test as written and the corrected one flag the same members. */
  lemma ProbesAgree(es: seq<EnumValue>, j: int)
    requires NoBools(es) && 0 <= j < |es|
    ensures ProbeHits(es, j) == KeyProbeHits(es, j)
  {
    assert ValueToKey(es[j].value) == es[j].value;
  }

  /** Without booleans, the test as written tells the members apart by their keys: `init`
      accepts them exactly when no two share a key. */
  lemma NoRepeatIffDistinct(es: seq<EnumValue>)
    requires NoBools(es)
    ensures (forall j :: 0 <= j < |es| ==> !ProbeHits(es, j)) <==>
      (forall i, j :: 0 <= i < j < |es| ==> EnumKey(es[i].value) != EnumKey(es[j].value))
  {
    forall j | 0 <= j < |es|
      ensures ProbeHits(es, j) == KeyProbeHits(es, j)
    {
      ProbesAgree(es, j);
    }
    KeyRepeatIffDistinct(es);
  }

  /** As written, a boolean member that repeats is not caught: the test looks for key 1
      while the first `true` is stored under "true"; the second silently replaces the first. */
  lemma RepeatedTrueAccepted(a: string, b: string)
    ensures var es := [EnumValue(Bool(true), a), EnumValue(Bool(true), b)];
      FirstRepeatFrom(es, 0).None? &&
      Build(es).keys == [StrKey("true")] && Build(es).objects[StrKey("true")].title == b
  {
    var es := [EnumValue(Bool(true), a), EnumValue(Bool(true), b)];
    var key := StrKey("true");
    assert ArrayKey("true") == key;
    assert EnumKey(Bool(true)) == key && OffsetKey(Bool(true)) == IntKey(1);
    assert es[..0] == [] && es[..1] == [es[0]] && es[..2] == es;
    BuildStep(es, 0);
    BuildStep(es, 1);
    assert Build(es[..0]) == EmptyTable;
    var t := Build(es[..1]);
    assert t == EmptyTable.Put(key, es[0]);
    assert t == Table([key], map[key := es[0]]);
    assert Build(es) == t.Put(key, es[1]);
    assert !ProbeHits(es, 0);
    assert IntKey(1) !in t.objects;
    assert !ProbeHits(es, 1);
    assert FirstRepeatFrom(es, 1) == FirstRepeatFrom(es, 2) == None;
  }

  /** As written, `1` followed by `true` is reported as a repetition although the two are
      stored under different keys (1 and "true"). */
  lemma OneThenTrueRejected(a: string, b: string)
    ensures var es := [EnumValue(Int(1), a), EnumValue(Bool(true), b)];
      FirstRepeatFrom(es, 0) == Some(1) && EnumKey(es[0].value) != EnumKey(es[1].value)
  {
    var es := [EnumValue(Int(1), a), EnumValue(Bool(true), b)];
    assert ArrayKey("true") == StrKey("true");
    assert EnumKey(Int(1)) == IntKey(1) && OffsetKey(Bool(true)) == IntKey(1);
    assert es[..0] == [] && es[..1] == [es[0]];
    assert Build([es[0]]) == Table([IntKey(1)], map[IntKey(1) := es[0]]);
    assert !ProbeHits(es, 0);
    assert ProbeHits(es, 1);
  }

  /** After a successful `init` of members without booleans, every member with a non-empty
      value is what `getEnumObject` finds for its value. */
  lemma InitFindsEveryMember(valueMap: map<string, Table>, className: string, declared: seq<EnumValue>, i: int)
    requires className !in valueMap && NoBools(declared)
    requires InitOutcome(valueMap, className, declared).Pass?
    requires 0 <= i < |declared|
    ensures var t := InitTable(valueMap, className, declared);
      t.keys == KeysOf(declared) && t.objects[EnumKey(declared[i].value)] == declared[i]
  {
    InitOutcomeMeaning(valueMap, className, declared);
    assert declared != [];
    InitStops(valueMap, className, declared);
    forall j | 0 <= j < |declared|
      ensures !KeyProbeHits(declared, j)
    {
      ProbesAgree(declared, j);
    }
    BuildInOrder(declared);
  }
}
