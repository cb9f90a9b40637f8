/** A module wraps one registered method: it looks the method up by name,
    derives the method's parameters from its signature, and at invocation binds
    keyword values to those parameters (filling defaults, checking types and
    counting parameters deferred to positional inputs) before calling it.
    Two revisions exist and differ only in the exception raised for a value of
    the wrong type. */
module Modules {
  import opened Wrappers
  import opened Values

  /** `Parameter(name, default_value, optional, parameter_type)`. */
  datatype Parameter = Parameter(name: string, defaultValue: Value, optional: bool, annotation: Option<Annotation>)

  /** What `inspect.getfullargspec` reports about a method: positional argument
      names, the defaults of the trailing ones, and the annotations by name. */
  datatype ArgSpec = ArgSpec(args: seq<string>, defaults: seq<Value>, annotations: map<string, Annotation>)

  /** One entry of the method registry: a callable's `__name__` and its signature. */
  datatype MethodEntry = MethodEntry(name: string, spec: ArgSpec)

  /** `module_base/module.py` raises TypeError for a value of the wrong type,
      the earlier `module/module.py` ValueError. */
  datatype Revision = ModuleBase | Legacy

  function MismatchKind(revision: Revision): (k: Kind)
    ensures revision == ModuleBase <==> k == TypeError
    ensures revision == Legacy <==> k == ValueError
  {
    match revision
    case ModuleBase => TypeError
    case Legacy => ValueError
  }

  function RegistryNames(registry: seq<MethodEntry>): (names: seq<string>)
    ensures |names| == |registry| && forall k :: 0 <= k < |registry| ==> names[k] == registry[k].name
  {
    seq(|registry|, k requires 0 <= k < |registry| => registry[k].name)
  }

  /** The last registry entry called `name`; the lookup loop keeps overwriting. */
  function LastEntryNamed(registry: seq<MethodEntry>, name: string): (r: Option<MethodEntry>)
    ensures r.Some? ==> r.value.name == name
  {
    if registry == [] then None
    else if registry[|registry| - 1].name == name then Some(registry[|registry| - 1])
    else LastEntryNamed(registry[..|registry| - 1], name)
  }

  /** The lookup finds nothing exactly when no entry has the name, and
      otherwise the entry at the last position holding it. */
  lemma {:induction false} LastEntryNamedIsLast(registry: seq<MethodEntry>, name: string)
    ensures var r := LastEntryNamed(registry, name);
      && (r.None? <==> forall k :: 0 <= k < |registry| ==> registry[k].name != name)
      && (r.Some? ==> exists k :: 0 <= k < |registry| && registry[k] == r.value &&
                                  forall j :: k < j < |registry| ==> registry[j].name != name)
  {
    if registry != [] {
      var init := registry[..|registry| - 1];
      var last := registry[|registry| - 1];
      if last.name == name {
        assert registry[|registry| - 1] == LastEntryNamed(registry, name).value;
      } else {
        LastEntryNamedIsLast(init, name);
        var r := LastEntryNamed(init, name);
        LastEntryNamedSkip(registry, name, if r.Some? then r.value else last);
      }
    }
  }

  /** A last entry of another name is skipped over: what holds of the
      entries before it holds of the whole registry. */
  lemma LastEntryNamedSkip(registry: seq<MethodEntry>, name: string, e: MethodEntry)
    requires registry != [] && registry[|registry| - 1].name != name
    ensures var init := registry[..|registry| - 1];
      && LastEntryNamed(registry, name) == LastEntryNamed(init, name)
      && ((forall k :: 0 <= k < |init| ==> init[k].name != name) ==>
            forall k :: 0 <= k < |registry| ==> registry[k].name != name)
      && ((exists k :: 0 <= k < |init| && init[k] == e && forall j :: k < j < |init| ==> init[j].name != name) ==>
            exists k :: 0 <= k < |registry| && registry[k] == e && forall j :: k < j < |registry| ==> registry[j].name != name)
  {
    var init := registry[..|registry| - 1];
    assert forall k :: 0 <= k < |init| ==> init[k] == registry[k];
    if exists k :: 0 <= k < |init| && init[k] == e && forall j :: k < j < |init| ==> init[j].name != name {
      var k :| 0 <= k < |init| && init[k] == e && forall j :: k < j < |init| ==> init[j].name != name;
      assert registry[k] == e;
    }
  }

  /** The parameters `add_parameters` derives: with `n = len(args) - len(defaults)`,
      the first `n` are mandatory with default None, the rest optional with the
      defaults aligned to the tail; the type is the annotation when there is one. */
  function ParametersOf(spec: ArgSpec): (ps: seq<Parameter>)
    ensures |ps| == |spec.args|
  {
    var n := |spec.args| - |spec.defaults|;
    seq(|spec.args|, i requires 0 <= i < |spec.args| =>
      Parameter(spec.args[i],
                if i < n then NoneValue else spec.defaults[i - n],
                i >= n,
                if spec.args[i] in spec.annotations then Some(spec.annotations[spec.args[i]]) else None))
  }

  function OptionalDefaults(ps: seq<Parameter>): seq<Value>
  {
    if ps == [] then []
    else OptionalDefaults(ps[..|ps| - 1]) + (if ps[|ps| - 1].optional then [ps[|ps| - 1].defaultValue] else [])
  }

  function CountMandatory(ps: seq<Parameter>): nat
  {
    if ps == [] then 0 else CountMandatory(ps[..|ps| - 1]) + (if ps[|ps| - 1].optional then 0 else 1)
  }

  /** Parameter i is optional exactly from index `len(args) - len(defaults)`
      on, and then has the default aligned to the tail. */
  lemma ParameterAt(spec: ArgSpec, i: nat)
    requires i < |spec.args|
    ensures var n := |spec.args| - |spec.defaults|;
            && ParametersOf(spec)[i].optional == (i >= n)
            && (i >= n ==> ParametersOf(spec)[i].defaultValue == spec.defaults[i - n])
  {
  }

  lemma {:induction false} CountMandatoryOfPrefix(spec: ArgSpec, m: nat)
    requires m <= |spec.args|
    ensures var n := |spec.args| - |spec.defaults|;
            CountMandatory(ParametersOf(spec)[..m]) == (if m < n then m else if n < 0 then 0 else n)
  {
    if m > 0 {
      CountMandatoryOfPrefix(spec, m - 1);
      var all := ParametersOf(spec);
      assert all[..m][..m - 1] == all[..m - 1] && all[..m][m - 1] == all[m - 1];
      ParameterAt(spec, m - 1);
    }
  }

  lemma OptionalDefaultsSnoc(ps: seq<Parameter>, i: nat)
    requires i < |ps|
    ensures OptionalDefaults(ps[..i + 1])
         == OptionalDefaults(ps[..i]) + (if ps[i].optional then [ps[i].defaultValue] else [])
  {
    assert ps[..i + 1][..i] == ps[..i];
  }

  lemma {:induction false} OptionalDefaultsOfPrefix(spec: ArgSpec, m: nat)
    requires m <= |spec.args|
    ensures var n := |spec.args| - |spec.defaults|;
            OptionalDefaults(ParametersOf(spec)[..m]) ==
              spec.defaults[(if n < 0 then -n else 0)..(if m < n then 0 else m - n)]
  {
    var n := |spec.args| - |spec.defaults|;
    if m > 0 {
      OptionalDefaultsOfPrefix(spec, m - 1);
      var all := ParametersOf(spec);
      OptionalDefaultsSnoc(all, m - 1);
      ParameterAt(spec, m - 1);
      if m - 1 >= n {
        SliceSnoc(spec.defaults, if n < 0 then -n else 0, m - 1 - n);
      }
    }
  }

  /** The parameters follow the argument names in order; the optional ones form
      a suffix; there are `max(0, len(args) - len(defaults))` mandatory ones;
      and the optional ones' defaults, read in order, are the trailing
      defaults. */
  lemma ParameterSplit(spec: ArgSpec)
    ensures var ps := ParametersOf(spec);
            var n := |spec.args| - |spec.defaults|;
            && (forall i :: 0 <= i < |ps| ==> ps[i].name == spec.args[i])
            && (forall i, j :: 0 <= i <= j < |ps| && ps[i].optional ==> ps[j].optional)
            && (forall i :: 0 <= i < |ps| && !ps[i].optional ==> ps[i].defaultValue == NoneValue)
            && (forall i :: 0 <= i < |ps| ==> (ps[i].annotation.Some? <==> spec.args[i] in spec.annotations))
            && CountMandatory(ps) == (if n < 0 then 0 else n)
            && OptionalDefaults(ps) == spec.defaults[(if n < 0 then -n else 0)..]
  {
    CountMandatoryOfPrefix(spec, |spec.args|);
    OptionalDefaultsOfPrefix(spec, |spec.args|);
    assert ParametersOf(spec)[..|spec.args|] == ParametersOf(spec);
  }

  predicate DistinctNames(ps: seq<Parameter>)
  {
    forall i, j :: 0 <= i < j < |ps| ==> ps[i].name != ps[j].name
  }

  // ----- binding keyword values -----

  /** The state of the `verify_parameters` loop: the keyword dict, the number of
      deferred mandatory parameters, and the exception that stopped it. */
  datatype Binding = Binding(values: Dict, missing: nat, failure: Option<Error>)

  /** One iteration of the loop for parameter `p`. */
  function BindOne(b: Binding, p: Parameter, inputs: Option<seq<Value>>, revision: Revision): Binding
  {
    if b.failure.Some? then b
    else match Get(b.values, p.name)
      case Some(v) =>
        (match IsValidType(v, p.annotation)
         case Err(e) => b.(failure := Some(e))
         case Ok(valid) => if valid then b else b.(failure := Some(Error(MismatchKind(revision), InvalidType(p.name)))))
      case None =>
        if p.optional then b.(values := Put(b.values, p.name, p.defaultValue))
        else if inputs.Some? && |inputs.value| > 0 then b.(missing := b.missing + 1)
        else b.(failure := Some(Error(ValueError, MissingParameter(p.name))))
  }

  /** The loop over all parameters, as a left fold. */
  function Bind(ps: seq<Parameter>, values: Dict, inputs: Option<seq<Value>>, revision: Revision): (b: Binding)
    ensures b.missing > 0 ==> inputs.Some? && |inputs.value| > 0
  {
    if ps == [] then Binding(values, 0, None)
    else BindOne(Bind(ps[..|ps| - 1], values, inputs, revision), ps[|ps| - 1], inputs, revision)
  }

  /** What `verify_parameters` raises, if anything, after the loop. */
  function VerifyOutcome(ps: seq<Parameter>, values: Dict, inputs: Option<seq<Value>>, revision: Revision): Outcome
  {
    var b := Bind(ps, values, inputs, revision);
    if b.failure.Some? then Fail(b.failure.value)
    else if b.missing > 0 && b.missing != |inputs.value| then
      Fail(Error(ValueError, InputCountMismatch(b.missing, |inputs.value|)))
    else Pass
  }

  /** Once the loop has raised, later parameters change nothing. */
  lemma {:induction false} BindStops(ps: seq<Parameter>, n: nat, values: Dict, inputs: Option<seq<Value>>, revision: Revision)
    requires n <= |ps| && Bind(ps[..n], values, inputs, revision).failure.Some?
    ensures Bind(ps, values, inputs, revision) == Bind(ps[..n], values, inputs, revision)
  {
    if n < |ps| {
      assert ps[..|ps| - 1][..n] == ps[..n];
      BindStops(ps[..|ps| - 1], n, values, inputs, revision);
    } else {
      assert ps[..n] == ps;
    }
  }

  predicate Supplied(values: Dict, p: Parameter)
  {
    p.name in Keys(values)
  }

  /** Every supplied value has the exact type its parameter declares. */
  predicate AllSuppliedValid(ps: seq<Parameter>, values: Dict)
  {
    forall k :: 0 <= k < |ps| && Supplied(values, ps[k]) ==>
      IsValidType(Get(values, ps[k].name).value, ps[k].annotation) == Ok(true)
  }

  /** Every absent mandatory parameter can be deferred to a positional input. */
  predicate MandatoryCovered(ps: seq<Parameter>, values: Dict, inputs: Option<seq<Value>>)
  {
    forall k :: 0 <= k < |ps| && !ps[k].optional && !Supplied(values, ps[k]) ==>
      inputs.Some? && |inputs.value| > 0
  }

  /** The number of absent mandatory parameters. */
  function CountDeferred(ps: seq<Parameter>, values: Dict): nat
  {
    if ps == [] then 0
    else CountDeferred(ps[..|ps| - 1], values) +
         (if !ps[|ps| - 1].optional && !Supplied(values, ps[|ps| - 1]) then 1 else 0)
  }

  /** The default of the optional parameter called `key`, if there is one. */
  function OptionalNamed(ps: seq<Parameter>, key: string): Option<Value>
  {
    if ps == [] then None
    else if ps[|ps| - 1].name == key then
      (if ps[|ps| - 1].optional then Some(ps[|ps| - 1].defaultValue) else None)
    else OptionalNamed(ps[..|ps| - 1], key)
  }

  lemma {:induction false} OptionalNamedAt(ps: seq<Parameter>, k: nat)
    requires DistinctNames(ps) && k < |ps|
    ensures OptionalNamed(ps, ps[k].name) == if ps[k].optional then Some(ps[k].defaultValue) else None
  {
    if k < |ps| - 1 {
      assert ps[..|ps| - 1][k] == ps[k];
      OptionalNamedAt(ps[..|ps| - 1], k);
    }
  }

  lemma {:induction false} OptionalNamedFound(ps: seq<Parameter>, key: string)
    requires OptionalNamed(ps, key).Some?
    ensures exists k :: 0 <= k < |ps| && ps[k].name == key && ps[k].optional
  {
    if ps[|ps| - 1].name != key {
      OptionalNamedFound(ps[..|ps| - 1], key);
      var k :| 0 <= k < |ps| - 1 && ps[..|ps| - 1][k].name == key && ps[..|ps| - 1][k].optional;
      assert ps[k] == ps[..|ps| - 1][k];
    }
  }

  lemma {:induction false} OptionalNamedAbsent(ps: seq<Parameter>, key: string)
    requires forall k :: 0 <= k < |ps| ==> ps[k].name != key
    ensures OptionalNamed(ps, key) == None
  {
    if ps != [] {
      OptionalNamedAbsent(ps[..|ps| - 1], key);
    }
  }

  /** The value a key has after a successful binding: a supplied value stays;
      an absent optional parameter gets its default; nothing else is added. */
  function BoundValue(ps: seq<Parameter>, values: Dict, key: string): Option<Value>
  {
    if key in Keys(values) then Get(values, key) else OptionalNamed(ps, key)
  }

  /** While the loop has not raised, each key holds its `BoundValue`. */
  lemma {:induction false} BindValues(ps: seq<Parameter>, values: Dict, inputs: Option<seq<Value>>, revision: Revision)
    requires DistinctNames(ps)
    ensures var b := Bind(ps, values, inputs, revision);
            b.failure.None? ==> forall key :: Get(b.values, key) == BoundValue(ps, values, key)
  {
    if ps != [] {
      var init := ps[..|ps| - 1];
      BindValues(init, values, inputs, revision);
      var p := ps[|ps| - 1];
      assert ps == init + [p];
      if Bind(init, values, inputs, revision).failure.None? {
        OptionalNamedAbsent(init, p.name);
        BindValuesStep(init, p, Bind(init, values, inputs, revision), values, inputs, revision);
      }
    }
  }

  /** One more iteration that does not raise keeps every key at its `BoundValue`. */
  lemma BindValuesStep(init: seq<Parameter>, p: Parameter, b0: Binding, values: Dict,
                       inputs: Option<seq<Value>>, revision: Revision)
    requires OptionalNamed(init, p.name) == None
    requires b0.failure.None? && forall key :: Get(b0.values, key) == BoundValue(init, values, key)
    ensures var b := BindOne(b0, p, inputs, revision);
            b.failure.None? ==> forall key :: Get(b.values, key) == BoundValue(init + [p], values, key)
  {
    var b := BindOne(b0, p, inputs, revision);
    if b.failure.None? {
      BoundValueOfLast(init, p, values);
      var absent := Get(b0.values, p.name).None?;
      assert Get(b0.values, p.name) == BoundValue(init, values, p.name);
      assert absent <==> !Supplied(values, p);
      BindOneValues(b0, p, inputs, revision);
      if absent && p.optional {
        PutGet(b0.values, p.name, p.defaultValue);
      }
      forall key ensures Get(b.values, key) == BoundValue(init + [p], values, key) {
        assert Get(b0.values, key) == BoundValue(init, values, key);
      }
    }
  }

  /** An iteration that does not raise adds the default of an absent
      optional parameter and otherwise leaves the values alone. */
  lemma BindOneValues(b: Binding, p: Parameter, inputs: Option<seq<Value>>, revision: Revision)
    requires BindOne(b, p, inputs, revision).failure.None?
    ensures BindOne(b, p, inputs, revision).values ==
      if Get(b.values, p.name).None? && p.optional then Put(b.values, p.name, p.defaultValue) else b.values
  {
  }

  /** Adding a parameter changes the bound value of its own name only. */
  lemma BoundValueOfLast(init: seq<Parameter>, p: Parameter, values: Dict)
    ensures forall key :: key != p.name ==> BoundValue(init + [p], values, key) == BoundValue(init, values, key)
    ensures BoundValue(init + [p], values, p.name) ==
           if Supplied(values, p) then Get(values, p.name) else if p.optional then Some(p.defaultValue) else None
  {
    assert (init + [p])[..|init|] == init;
  }

  lemma PredicatesOfLast(ps: seq<Parameter>, values: Dict, inputs: Option<seq<Value>>)
    requires ps != []
    ensures var init := ps[..|ps| - 1];
            var p := ps[|ps| - 1];
            && (AllSuppliedValid(ps, values) <==>
                  AllSuppliedValid(init, values) &&
                  (Supplied(values, p) ==> IsValidType(Get(values, p.name).value, p.annotation) == Ok(true)))
            && (MandatoryCovered(ps, values, inputs) <==>
                  MandatoryCovered(init, values, inputs) &&
                  (!p.optional && !Supplied(values, p) ==> inputs.Some? && |inputs.value| > 0))
  {
    assert forall k :: 0 <= k < |ps| - 1 ==> ps[..|ps| - 1][k] == ps[k];
  }

  /** The loop runs through exactly when every supplied value has its type and
      every absent mandatory parameter can be deferred. */
  lemma {:induction false} BindFailure(ps: seq<Parameter>, values: Dict, inputs: Option<seq<Value>>, revision: Revision)
    requires DistinctNames(ps)
    ensures var b := Bind(ps, values, inputs, revision);
            b.failure.None? <==> AllSuppliedValid(ps, values) && MandatoryCovered(ps, values, inputs)
  {
    if ps != [] {
      var init := ps[..|ps| - 1];
      var p := ps[|ps| - 1];
      BindFailure(init, values, inputs, revision);
      PredicatesOfLast(ps, values, inputs);
      var b0 := Bind(init, values, inputs, revision);
      if b0.failure.None? {
        BindValues(init, values, inputs, revision);
        OptionalNamedAbsent(init, p.name);
        assert Get(b0.values, p.name) == BoundValue(init, values, p.name);
        BindOneFailure(b0, p, values, inputs, revision);
      }
    }
  }

  /** One iteration raises exactly when the value it finds has the wrong
      type or a mandatory parameter is absent with nothing to defer it to. */
  lemma BindOneFailure(b: Binding, p: Parameter, values: Dict, inputs: Option<seq<Value>>, revision: Revision)
    requires b.failure.None?
    requires Get(b.values, p.name) == if Supplied(values, p) then Get(values, p.name) else None
    ensures BindOne(b, p, inputs, revision).failure.None? <==>
              && (Supplied(values, p) ==> IsValidType(Get(values, p.name).value, p.annotation) == Ok(true))
              && (!p.optional && !Supplied(values, p) ==> inputs.Some? && |inputs.value| > 0)
  {
  }

  /** A loop that runs through counts the absent mandatory parameters. */
  lemma {:induction false} BindMissing(ps: seq<Parameter>, values: Dict, inputs: Option<seq<Value>>, revision: Revision)
    requires DistinctNames(ps)
    ensures var b := Bind(ps, values, inputs, revision);
            b.failure.None? ==> b.missing == CountDeferred(ps, values)
  {
    var b := Bind(ps, values, inputs, revision);
    if ps != [] && b.failure.None? {
      var init := ps[..|ps| - 1];
      var p := ps[|ps| - 1];
      BindMissing(init, values, inputs, revision);
      var b0 := Bind(init, values, inputs, revision);
      BindValues(init, values, inputs, revision);
      OptionalNamedAbsent(init, p.name);
      assert Get(b0.values, p.name) == BoundValue(init, values, p.name);
    }
  }

  /** `verify_parameters` passes exactly when every supplied value has its
      declared type, every absent mandatory parameter can be deferred to an
      input, and the deferred ones are none or exactly as many as the inputs. */
  lemma VerifyPassIff(ps: seq<Parameter>, values: Dict, inputs: Option<seq<Value>>, revision: Revision)
    requires DistinctNames(ps)
    ensures VerifyOutcome(ps, values, inputs, revision).Pass? <==>
              && AllSuppliedValid(ps, values)
              && MandatoryCovered(ps, values, inputs)
              && (CountDeferred(ps, values) == 0 || (inputs.Some? && CountDeferred(ps, values) == |inputs.value|))
  {
    BindFailure(ps, values, inputs, revision);
    BindMissing(ps, values, inputs, revision);
  }

  /** On success an absent optional parameter holds its default, supplied
      values are kept, and no key other than a parameter's is added. */
  lemma VerifyFillsDefaults(ps: seq<Parameter>, values: Dict, inputs: Option<seq<Value>>, revision: Revision)
    requires DistinctNames(ps)
    requires VerifyOutcome(ps, values, inputs, revision).Pass?
    ensures var bound := Bind(ps, values, inputs, revision).values;
            && (forall k :: 0 <= k < |ps| && ps[k].optional && !Supplied(values, ps[k]) ==>
                  Get(bound, ps[k].name) == Some(ps[k].defaultValue))
            && (forall key :: key in Keys(values) ==> Get(bound, key) == Get(values, key))
            && (forall key :: key in Keys(bound) ==>
                  key in Keys(values) || exists k :: 0 <= k < |ps| && ps[k].name == key && ps[k].optional)
  {
    BindValues(ps, values, inputs, revision);
    var b := Bind(ps, values, inputs, revision);
    assert b.failure.None?;
    var bound := b.values;
    forall key | key in Keys(values) ensures Get(bound, key) == Get(values, key) {
      assert Get(bound, key) == BoundValue(ps, values, key);
    }
    forall k | 0 <= k < |ps| && ps[k].optional && !Supplied(values, ps[k])
      ensures Get(bound, ps[k].name) == Some(ps[k].defaultValue)
    {
      OptionalNamedAt(ps, k);
      assert Get(bound, ps[k].name) == BoundValue(ps, values, ps[k].name);
    }
    forall key | key in Keys(bound)
      ensures key in Keys(values) || exists k :: 0 <= k < |ps| && ps[k].name == key && ps[k].optional
    {
      if key !in Keys(values) {
        assert Get(bound, key) == BoundValue(ps, values, key);
        OptionalNamedFound(ps, key);
      }
    }
  }

  /** Both revisions bind the same values and fail in the same cases; a value
      of the wrong type is a TypeError in one and a ValueError in the other. */
  lemma {:induction false} RevisionsDifferOnlyInKind(ps: seq<Parameter>, values: Dict, inputs: Option<seq<Value>>)
    ensures var a := Bind(ps, values, inputs, ModuleBase);
            var b := Bind(ps, values, inputs, Legacy);
            && a.values == b.values && a.missing == b.missing
            && (a.failure.None? <==> b.failure.None?)
            && (a.failure.Some? ==> a.failure.value.reason == b.failure.value.reason)
            && (a.failure.Some? && a.failure.value.reason.InvalidType? ==>
                  a.failure.value.kind == TypeError && b.failure.value.kind == ValueError)
            && (a.failure.Some? && !a.failure.value.reason.InvalidType? ==> a.failure.value.kind == b.failure.value.kind)
  {
    if ps != [] {
      RevisionsDifferOnlyInKind(ps[..|ps| - 1], values, inputs);
      var a := Bind(ps[..|ps| - 1], values, inputs, ModuleBase);
      var b := Bind(ps[..|ps| - 1], values, inputs, Legacy);
      BindOneRevisions(a, b, ps[|ps| - 1], inputs);
    }
  }

  /** Two loop states related as in `RevisionsDifferOnlyInKind`. */
  predicate KindOnlyDiffers(a: Binding, b: Binding)
  {
    && a.values == b.values && a.missing == b.missing
    && (a.failure.None? <==> b.failure.None?)
    && (a.failure.Some? ==> a.failure.value.reason == b.failure.value.reason)
    && (a.failure.Some? && a.failure.value.reason.InvalidType? ==>
          a.failure.value.kind == TypeError && b.failure.value.kind == ValueError)
    && (a.failure.Some? && !a.failure.value.reason.InvalidType? ==> a.failure.value.kind == b.failure.value.kind)
  }

  /** One iteration in each revision keeps the two states so related. */
  lemma BindOneRevisions(a: Binding, b: Binding, p: Parameter, inputs: Option<seq<Value>>)
    requires KindOnlyDiffers(a, b)
    ensures KindOnlyDiffers(BindOne(a, p, inputs, ModuleBase), BindOne(b, p, inputs, Legacy))
  {
  }

  // ----- the module object -----

  class Module {
    const revision: Revision
    var imported: Option<MethodEntry>  // `self.method`
    var parameters: seq<Parameter>
    var parameterValues: Dict
    var inputs: Option<seq<Value>>
    var result: Option<Value>

    /** `Module(parameters=...)` before any method is imported. */
    constructor(revision: Revision, parameterValues: Dict)
      ensures this.revision == revision && this.parameterValues == parameterValues
      ensures imported.None? && parameters == [] && inputs.None? && result.None?
    {
      this.revision := revision;
      this.parameterValues := parameterValues;
      imported := None;
      parameters := [];
      inputs := None;
      result := None;
    }

    /** `import_method(name)`: scans the whole registry and keeps the last entry
        of that name. Only when no method is set afterwards is the name
        refused, with the registered names in the message. */
    method ImportMethod(name: string, registry: seq<MethodEntry>) returns (o: Outcome)
      modifies this
      ensures LastEntryNamed(registry, name).Some? ==> imported == LastEntryNamed(registry, name)
      ensures LastEntryNamed(registry, name).None? ==> imported == old(imported)
      ensures o.Fail? <==> imported.None?
      ensures o.Fail? ==> o.error == Error(ValueError, UnknownMethod(name, RegistryNames(registry)))
      ensures parameters == old(parameters) && parameterValues == old(parameterValues)
      ensures inputs == old(inputs) && result == old(result)
    {
      for k := 0 to |registry|
        invariant LastEntryNamed(registry[..k], name).Some? ==> imported == LastEntryNamed(registry[..k], name)
        invariant LastEntryNamed(registry[..k], name).None? ==> imported == old(imported)
        invariant parameters == old(parameters) && parameterValues == old(parameterValues)
        invariant inputs == old(inputs) && result == old(result)
      {
        assert registry[..k + 1][..k] == registry[..k];
        if registry[k].name == name {
          imported := Some(registry[k]);
        }
      }
      assert registry[..|registry|] == registry;
      if imported.None? {
        return Fail(Error(ValueError, UnknownMethod(name, RegistryNames(registry))));
      }
      return Pass;
    }

    /** `add_parameters(arg_spec)`: one parameter per argument, in order. */
    method AddParameters(spec: ArgSpec)
      modifies this
      ensures parameters == ParametersOf(spec)
      ensures imported == old(imported) && parameterValues == old(parameterValues)
      ensures inputs == old(inputs) && result == old(result)
    {
      var names := spec.args;
      var defaults := spec.defaults;
      var nonOptional := |names| - |defaults|;
      parameters := [];
      for i := 0 to |names|
        invariant parameters == ParametersOf(spec)[..i]
        invariant imported == old(imported) && parameterValues == old(parameterValues)
        invariant inputs == old(inputs) && result == old(result)
      {
        var optional: bool;
        var default: Value;
        if i < nonOptional {
          optional := false;
          default := NoneValue;
        } else {
          optional := true;
          default := defaults[i - nonOptional];
        }
        var parameterType: Option<Annotation> := None;
        if names[i] in spec.annotations {
          parameterType := Some(spec.annotations[names[i]]);
        }
        parameters := parameters + [Parameter(names[i], default, optional, parameterType)];
      }
    }

    /** `Module(method, parameters)`: import the method, then derive its parameters. */
    method Init(name: string, registry: seq<MethodEntry>) returns (o: Outcome)
      modifies this
      ensures o.Fail? <==> LastEntryNamed(registry, name).None? && old(imported).None?
      ensures o.Pass? ==> imported.Some? && parameters == ParametersOf(imported.value.spec)
      ensures parameterValues == old(parameterValues) && inputs == old(inputs) && result == old(result)
    {
      o := ImportMethod(name, registry);
      if o.Pass? {
        AddParameters(imported.value.spec);
      }
    }

    /** `verify_parameters()`: the binding loop, which raises at the first bad
        parameter, then the deferred-count check. */
    method VerifyParameters() returns (o: Outcome)
      modifies this
      ensures o == VerifyOutcome(parameters, old(parameterValues), inputs, revision)
      ensures parameterValues == Bind(parameters, old(parameterValues), inputs, revision).values
      ensures imported == old(imported) && parameters == old(parameters)
      ensures inputs == old(inputs) && result == old(result)
    {
      ghost var values0 := parameterValues;
      var missing := 0;
      for i := 0 to |parameters|
        invariant imported == old(imported) && parameters == old(parameters)
        invariant inputs == old(inputs) && result == old(result)
        invariant Bind(parameters[..i], values0, inputs, revision) == Binding(parameterValues, missing, None)
      {
        var p := parameters[i];
        assert parameters[..i + 1][..i] == parameters[..i];
        var current := Get(parameterValues, p.name);
        if current.Some? {
          var valid := IsValidType(current.value, p.annotation);
          if valid.Err? {
            BindStops(parameters, i + 1, values0, inputs, revision);
            return Fail(valid.error);
          }
          if !valid.value {
            BindStops(parameters, i + 1, values0, inputs, revision);
            return Fail(Error(MismatchKind(revision), InvalidType(p.name)));
          }
        } else if p.optional {
          parameterValues := Put(parameterValues, p.name, p.defaultValue);
        } else if inputs.Some? && |inputs.value| > 0 {
          missing := missing + 1;
        } else {
          BindStops(parameters, i + 1, values0, inputs, revision);
          return Fail(Error(ValueError, MissingParameter(p.name)));
        }
      }
      assert parameters[..|parameters|] == parameters;
      if missing > 0 && missing != |inputs.value| {
        return Fail(Error(ValueError, InputCountMismatch(missing, |inputs.value|)));
      }
      return Pass;
    }

    /** `run(*inputs, **parameters)`: the keywords replace whatever was bound
        before, the parameters are verified, and the method is called with the
        inputs and the bound keywords. `call` stands for the registered callable;
        calling without a method (`None`) is a TypeError. */
    method Run(args: seq<Value>, kwargs: Dict, call: (string, seq<Value>, Dict) -> Value) returns (r: Result<Value>)
      modifies this
      ensures parameterValues == Bind(parameters, kwargs, Some(args), revision).values
      ensures inputs == Some(args)
      ensures r == RunOutcome(imported, parameters, revision, args, kwargs, call)
      ensures r.Ok? ==> result == Some(r.value)
      ensures r.Err? ==> result == old(result)
      ensures imported == old(imported) && parameters == old(parameters)
    {
      parameterValues := kwargs;
      inputs := Some(args);
      var o := VerifyParameters();
      if o.Fail? {
        return Err(o.error);
      }
      if imported.None? {
        return Err(Error(TypeError, NotCallable));
      }
      var value := call(imported.value.name, args, parameterValues);
      result := Some(value);
      return Ok(value);
    }
  }

  /** What `run` returns, determined by the module's method and parameters and
      by this call's own inputs and keywords alone. */
  function RunOutcome(imported: Option<MethodEntry>, ps: seq<Parameter>, revision: Revision,
                      args: seq<Value>, kwargs: Dict, call: (string, seq<Value>, Dict) -> Value): (r: Result<Value>)
    ensures VerifyOutcome(ps, kwargs, Some(args), revision).Fail? ==>
              r == Err(VerifyOutcome(ps, kwargs, Some(args), revision).error)
    ensures r.Ok? ==> imported.Some? && r.value == call(imported.value.name, args, Bind(ps, kwargs, Some(args), revision).values)
  {
    match VerifyOutcome(ps, kwargs, Some(args), revision)
    case Fail(e) => Err(e)
    case Pass =>
      if imported.None? then Err(Error(TypeError, NotCallable))
      else Ok(call(imported.value.name, args, Bind(ps, kwargs, Some(args), revision).values))
  }

  /** Earlier bindings do not leak into a call: two modules with the same method
      and parameters give the same result for the same call, whatever their
      `parameter_values` held before. */
  lemma RunIgnoresEarlierBindings(imported: Option<MethodEntry>, spec: ArgSpec, revision: Revision,
                                  args: seq<Value>, kwargs: Dict, call: (string, seq<Value>, Dict) -> Value)
    requires imported.Some? && imported.value.spec == spec
    requires DistinctNames(ParametersOf(spec))
    ensures var ps := ParametersOf(spec);
            var r := RunOutcome(imported, ps, revision, args, kwargs, call);
            r.Ok? <==> && AllSuppliedValid(ps, kwargs)
                       && MandatoryCovered(ps, kwargs, Some(args))
                       && (CountDeferred(ps, kwargs) == 0 || CountDeferred(ps, kwargs) == |args|)
  {
    VerifyPassIff(ParametersOf(spec), kwargs, Some(args), revision);
  }
}
