/** Python values as the engine sees them, their exact runtime types, type
    annotations, the exact-type membership checks `is_valid_type` and
    `check_type`, and ordered dictionaries. */
module Values {
  import opened Wrappers

  /** Exact runtime types (`type(v)`). `BoolType` is a Python subclass of
      `IntType`, but the checks below compare exact types only. */
  datatype TypeTag = IntType | FloatType | BoolType | StrType | ListType | NdArrayType | NoneType

  datatype Value =
    | Int(i: int)
    | Float(r: real)
    | Bool(b: bool)
    | Str(s: string)
    | List(items: seq<Value>)
    | NdArray(elems: seq<Value>)
    | NoneValue
    | NaN          // a missing table cell; pandas stores it as a float

  function TypeOf(v: Value): TypeTag
  {
    match v
    case Int(_) => IntType
    case Float(_) => FloatType
    case Bool(_) => BoolType
    case Str(_) => StrType
    case List(_) => ListType
    case NdArray(_) => NdArrayType
    case NoneValue => NoneType
    case NaN => FloatType
  }

  /** Python's subclass relation between the modelled types. */
  predicate IsSubclass(sub: TypeTag, sup: TypeTag)
  {
    sub == sup || (sub == BoolType && sup == IntType)
  }

  /** A parameter annotation: a plain class or a `typing.Union` of classes. */
  datatype Annotation = Plain(t: TypeTag) | Union(args: seq<TypeTag>)

  function AnnotationTypes(a: Annotation): seq<TypeTag>
  {
    match a
    case Plain(t) => [t]
    case Union(args) => args
  }

  /** `is_valid_type(value, annotation)`. A missing annotation (`None`) has no
      `__args__`, so Python raises AttributeError. */
  function IsValidType(v: Value, annotation: Option<Annotation>): (r: Result<bool>)
    ensures annotation.None? <==> r.Err?
    ensures r.Err? ==> r.error.kind == AttributeError
    ensures annotation.Some? && annotation.value.Plain? ==> r == Ok(TypeOf(v) == annotation.value.t)
    ensures annotation.Some? && annotation.value.Union? ==>
              r == Ok(exists k :: 0 <= k < |annotation.value.args| && annotation.value.args[k] == TypeOf(v))
  {
    match annotation
    case None => Err(Error(AttributeError, MissingAttribute("__args__")))
    case Some(a) => Ok(TypeOf(v) in AnnotationTypes(a))
  }

  /** Exact membership: a value whose type is only a subclass of the declared
      class is rejected. */
  lemma ValidTypeIsExact(v: Value, a: Annotation)
    requires TypeOf(v) !in AnnotationTypes(a)
    ensures IsValidType(v, Some(a)) == Ok(false)
  {
  }

  /** The allowed types of one variable in `check_type`: a class or an
      arbitrarily nested list of classes, flattened before use. */
  datatype TypeSpec = One(t: TypeTag) | AnyOf(specs: seq<TypeSpec>)

  function Flatten(spec: TypeSpec): seq<TypeTag>
  {
    match spec
    case One(t) => [t]
    case AnyOf(specs) => FlattenAll(specs)
  }

  function FlattenAll(specs: seq<TypeSpec>): seq<TypeTag>
  {
    if specs == [] then [] else FlattenAll(specs[..|specs| - 1]) + Flatten(specs[|specs| - 1])
  }

  /** `check_type(names, variables, types)`: zip the three lists (stopping at the
      shortest) and raise TypeError at the first variable whose exact type is
      not among its flattened allowed types. */
  function CheckType(names: seq<string>, vars: seq<Value>, types: seq<TypeSpec>): (r: Outcome)
    ensures r.Fail? ==> r.error.kind == TypeError
    ensures r.Pass? <==> forall k :: 0 <= k < |names| && k < |vars| && k < |types| ==>
                                     TypeOf(vars[k]) in Flatten(types[k])
    ensures r.Fail? ==> exists k :: 0 <= k < |names| && k < |vars| && k < |types| &&
                                    TypeOf(vars[k]) !in Flatten(types[k]) &&
                                    r.error.reason == InvalidType(names[k]) &&
                                    forall j :: 0 <= j < k ==> TypeOf(vars[j]) in Flatten(types[j])
    decreases |names|
  {
    if names == [] || vars == [] || types == [] then Pass
    else if TypeOf(vars[0]) !in Flatten(types[0]) then Fail(Error(TypeError, InvalidType(names[0])))
    else
      var rest := CheckType(names[1..], vars[1..], types[1..]);
      assert forall k :: 1 <= k < |names| && k < |vars| && k < |types| ==>
               names[1..][k - 1] == names[k] && vars[1..][k - 1] == vars[k] && types[1..][k - 1] == types[k];
      rest
  }

  /** A single class and a one-element list of that class are accepted alike. */
  lemma {:induction false} CheckTypeSingleAsList(names: seq<string>, vars: seq<Value>, types: seq<TypeSpec>, k: nat)
    requires k < |types| && types[k].One?
    ensures CheckType(names, vars, types) == CheckType(names, vars, types[k := AnyOf([types[k]])])
  {
    var types' := types[k := AnyOf([types[k]])];
    assert FlattenAll([types[k]]) == FlattenAll([]) + Flatten(types[k]);
    assert Flatten(types'[k]) == Flatten(types[k]);
    forall j | 0 <= j < |types| ensures Flatten(types'[j]) == Flatten(types[j]) { }
    if CheckType(names, vars, types).Pass? {
      assert CheckType(names, vars, types').Pass?;
    } else {
      assert CheckType(names, vars, types').Fail?;
    }
  }

  // ----- ordered dictionaries -----

  /** A Python dict: insertion-ordered entries with distinct keys. */
  type Dict = seq<(string, Value)>

  function Keys(d: Dict): (ks: seq<string>)
    ensures |ks| == |d| && forall k :: 0 <= k < |d| ==> ks[k] == d[k].0
  {
    if d == [] then [] else Keys(d[..|d| - 1]) + [d[|d| - 1].0]
  }

  predicate DistinctKeys(d: Dict)
  {
    forall i, j :: 0 <= i < j < |d| ==> d[i].0 != d[j].0
  }

  function Get(d: Dict, key: string): (r: Option<Value>)
    ensures r.None? <==> key !in Keys(d)
    ensures r.Some? ==> exists k :: 0 <= k < |d| && d[k] == (key, r.value)
    ensures DistinctKeys(d) ==> forall k :: 0 <= k < |d| && d[k].0 == key ==> r == Some(d[k].1)
  {
    if d == [] then None
    else if d[|d| - 1].0 == key then Some(d[|d| - 1].1)
    else Get(d[..|d| - 1], key)
  }

  /** The index of `key` (its last occurrence). */
  function IndexOf(d: Dict, key: string): (k: nat)
    requires key in Keys(d)
    ensures k < |d| && d[k].0 == key
  {
    if d[|d| - 1].0 == key then |d| - 1 else IndexOf(d[..|d| - 1], key)
  }

  /** Replacing the entry at `i` leaves the other keys' lookups alone; with
      distinct keys, the replaced key now finds the new value. */
  lemma {:induction false} GetAfterReplace(d: Dict, i: nat, key: string, value: Value)
    requires i < |d| && d[i].0 == key
    ensures Keys(d[i := (key, value)]) == Keys(d)
    ensures forall k' :: k' != key ==> Get(d[i := (key, value)], k') == Get(d, k')
    ensures DistinctKeys(d) ==> Get(d[i := (key, value)], key) == Some(value)
  {
    var r := d[i := (key, value)];
    assert Keys(r) == Keys(d);
    if i < |d| - 1 {
      GetAfterReplace(d[..|d| - 1], i, key, value);
      assert r[..|r| - 1] == d[..|d| - 1][i := (key, value)];
    } else {
      assert r[..|r| - 1] == d[..|d| - 1];
    }
  }

  lemma GetAfterAppend(d: Dict, key: string, value: Value)
    ensures forall k' :: k' != key ==> Get(d + [(key, value)], k') == Get(d, k')
  {
    assert (d + [(key, value)])[..|d|] == d;
  }

  /** `d[key] = value`: an existing key keeps its position, a new key goes last. */
  function Put(d: Dict, key: string, value: Value): Dict
  {
    if key in Keys(d) then d[IndexOf(d, key) := (key, value)] else d + [(key, value)]
  }

  /** After `d[key] = value` the key is present, maps to `value` (keys stay
      distinct), and every other key finds what it found before. */
  lemma PutGet(d: Dict, key: string, value: Value)
    ensures Keys(Put(d, key, value)) == if key in Keys(d) then Keys(d) else Keys(d) + [key]
    ensures DistinctKeys(d) ==> DistinctKeys(Put(d, key, value)) && Get(Put(d, key, value), key) == Some(value)
    ensures forall k' :: k' != key ==> Get(Put(d, key, value), k') == Get(d, k')
    ensures key !in Keys(d) ==> Get(Put(d, key, value), key) == Some(value)
  {
    if key in Keys(d) {
      GetAfterReplace(d, IndexOf(d, key), key, value);
    } else {
      GetAfterAppend(d, key, value);
      assert Keys(d + [(key, value)]) == Keys(d) + [key];
    }
  }
  /** `d.pop(key)`: the value and the dict without that entry; `KeyError`
      when the key is absent. */
  function Pop(d: Dict, key: string): (r: Result<(Value, Dict)>)
    ensures r.Err? <==> key !in Keys(d)
    ensures r.Err? ==> r.error == Error(KeyError, MissingKey(key))
    ensures r.Ok? ==> Get(d, key) == Some(r.value.0) && |r.value.1| == |d| - 1
  {
    if key !in Keys(d) then Err(Error(KeyError, MissingKey(key)))
    else
      var k := IndexOf(d, key);
      GetAtIndexOf(d, key);
      Ok((d[k].1, d[..k] + d[k + 1..]))
  }

  lemma {:induction false} GetAtIndexOf(d: Dict, key: string)
    requires key in Keys(d)
    ensures Get(d, key) == Some(d[IndexOf(d, key)].1)
  {
    if d[|d| - 1].0 != key {
      assert key in Keys(d[..|d| - 1]);
      GetAtIndexOf(d[..|d| - 1], key);
    }
  }

  /** With distinct keys, the popped key is gone and every other key finds
      what it found before. */
  lemma PopGet(d: Dict, key: string)
    requires DistinctKeys(d) && key in Keys(d)
    ensures key !in Keys(Pop(d, key).value.1) && DistinctKeys(Pop(d, key).value.1)
    ensures forall k' :: k' != key ==> Get(Pop(d, key).value.1, k') == Get(d, k')
  {
    var k := IndexOf(d, key);
    var rest := d[..k] + d[k + 1..];
    RemovedEntries(d, k);
    forall k' | k' != key ensures Get(rest, k') == Get(d, k') {
      if k' in Keys(d) {
        var j := IndexOf(d, k');
        var j' := if j < k then j else j - 1;
        assert rest[j'] == d[j];
        assert Get(rest, k') == Some(d[j].1);
      } else {
        assert k' !in Keys(rest);
      }
    }
  }

  lemma RemovedEntries(d: Dict, k: nat)
    requires DistinctKeys(d) && k < |d|
    ensures var rest := d[..k] + d[k + 1..];
      && (forall j :: 0 <= j < |rest| ==> rest[j] == d[if j < k then j else j + 1])
      && DistinctKeys(rest) && d[k].0 !in Keys(rest)
      && forall key :: key in Keys(rest) ==> key in Keys(d)
  {
    var rest := d[..k] + d[k + 1..];
    assert forall j :: 0 <= j < |rest| ==> rest[j] == d[if j < k then j else j + 1];
  }
}
