/** A workflow step: one module with its chosen method and the table of
    parameter combinations it will run with. `specify_parameters` validates the
    keyword values against the method's parameters, splits them into axes
    (lists of several values) and singletons, builds the table of axis values
    (zipped in `align` mode, the Cartesian product in `permute` mode), writes
    the singletons into every row, labels each row with an ID, and then
    replaces or extends the stored table. */
module Steps {
  import opened Wrappers
  import opened Values
  import opened Strings
  import opened Modules
  import opened Conversion
  import opened Combinations
  import opened Tables

  /** The string that defers a parameter to the output of an earlier step. */
  const PIPELINE: string := "pipeline"

  /** `step.method`: unset, one method name, or a list of names. */
  datatype MethodRef = Unset | Single(name: string) | Several(names: seq<string>)

  /** The constant flags of a module class (`n_inputs`, `type_input`, ...).
      `set_module` copies all of them onto the step except `waitComplete`. */
  datatype ModuleFlags = ModuleFlags(nInputs: nat, typeInput: Value, typeOutput: string,
                                     align: bool, addId: bool, waitComplete: bool)

  // ----- get_method -----

  /** `get_method()`: the parameters of the step's method (the first one of a
      list), as the module constructed with that method derives them. */
  function MethodParameters(stepName: string, ref: MethodRef, catalog: seq<MethodEntry>): (r: Result<seq<Parameter>>)
    ensures ref.Unset? ==> r == Err(Error(ModuleNotFoundError, NoMethod(stepName)))
    ensures ref == Several([]) ==> r == Err(Error(IndexError, ListIndexOutOfRange(0, 0)))
    ensures (ref.Single? || (ref.Several? && ref.names != [])) ==>
              var chosen := if ref.Single? then ref.name else ref.names[0];
              && (r.Err? <==> forall k :: 0 <= k < |catalog| ==> catalog[k].name != chosen)
              && (r.Err? ==> r.error == Error(ValueError, UnknownMethod(chosen, RegistryNames(catalog))))
              && (r.Ok? ==> exists k :: 0 <= k < |catalog| && catalog[k].name == chosen && r.value == ParametersOf(catalog[k].spec))
  {
    match ref
    case Unset => Err(Error(ModuleNotFoundError, NoMethod(stepName)))
    case Several(names) =>
      if names == [] then Err(Error(IndexError, ListIndexOutOfRange(0, 0)))
      else Lookup(names[0], catalog)
    case Single(name) => Lookup(name, catalog)
  }

  function Lookup(name: string, catalog: seq<MethodEntry>): (r: Result<seq<Parameter>>)
    ensures r.Err? <==> forall k :: 0 <= k < |catalog| ==> catalog[k].name != name
    ensures r.Err? ==> r.error == Error(ValueError, UnknownMethod(name, RegistryNames(catalog)))
    ensures r.Ok? ==> exists k :: 0 <= k < |catalog| && catalog[k].name == name && r.value == ParametersOf(catalog[k].spec)
  {
    LastEntryNamedIsLast(catalog, name);
    match LastEntryNamed(catalog, name)
    case None => Err(Error(ValueError, UnknownMethod(name, RegistryNames(catalog))))
    case Some(entry) => Ok(ParametersOf(entry.spec))
  }

  // ----- __get_parameter_lists -----

  predicate IsSequence(v: Value)
  {
    v.List? || v.NdArray?
  }

  /** The elements of a list or an array. */
  function Items(v: Value): seq<Value>
  {
    if v.List? then v.items else if v.NdArray? then v.elems else []
  }

  /** Every element must be of the declared type: the first that is not raises
      TypeError; without an annotation `is_valid_type` itself fails. */
  function CheckElements(name: string, items: seq<Value>, annotation: Option<Annotation>): (o: Outcome)
    ensures o.Pass? <==> forall k :: 0 <= k < |items| ==> IsValidType(items[k], annotation) == Ok(true)
    ensures o.Fail? && annotation.Some? ==> o.error == Error(TypeError, InvalidType(name))
    ensures o.Fail? && annotation.None? ==> o.error.kind == AttributeError
  {
    if items == [] then Pass
    else
      match IsValidType(items[0], annotation)
      case Err(e) => Fail(e)
      case Ok(valid) =>
        if !valid then Fail(Error(TypeError, InvalidType(name)))
        else
          var rest := CheckElements(name, items[1..], annotation);
          assert forall k :: 1 <= k < |items| ==> items[1..][k - 1] == items[k];
          rest
  }

  /** The two dicts `__get_parameter_lists` fills: axes and singletons. */
  datatype Split = Split(lists: Dict, singles: Dict)

  /** One iteration of the loop over the method's parameters. */
  function SplitOne(s: Split, p: Parameter, kwargs: Dict): (r: Result<Split>)
  {
    match Get(kwargs, p.name)
    case None =>
      if p.optional then Ok(Split(s.lists, Put(s.singles, p.name, p.defaultValue)))
      else Err(Error(ValueError, MissingParameter(p.name)))
    case Some(v) =>
      if v == Str(PIPELINE) then Ok(s)
      else if IsSequence(v) then
        var o := CheckElements(p.name, Items(v), p.annotation);
        if o.Fail? then Err(o.error)
        else if |Items(v)| == 1 then Ok(Split(s.lists, Put(s.singles, p.name, Items(v)[0])))
        else Ok(Split(Put(s.lists, p.name, v), s.singles))
      else
        match IsValidType(v, p.annotation)
        case Err(e) => Err(e)
        case Ok(valid) =>
          if valid then Ok(Split(s.lists, Put(s.singles, p.name, v)))
          else Err(Error(TypeError, InvalidType(p.name)))
  }

  /** Reference definition of `__get_parameter_lists`: the parameters in order,
      starting from the singleton `input_vars = []`. */
  function SplitAll(ps: seq<Parameter>, kwargs: Dict): (r: Result<Split>)
  {
    if ps == [] then Ok(Split([], [("input_vars", List([]))]))
    else
      var s :- SplitAll(ps[..|ps| - 1], kwargs);
      SplitOne(s, ps[|ps| - 1], kwargs)
  }

  lemma {:induction false} SplitStops(ps: seq<Parameter>, n: nat, kwargs: Dict)
    requires n <= |ps| && SplitAll(ps[..n], kwargs).Err?
    ensures SplitAll(ps, kwargs) == SplitAll(ps[..n], kwargs)
    decreases |ps| - n
  {
    if n < |ps| {
      assert ps[..n + 1][..n] == ps[..n];
      SplitStops(ps, n + 1, kwargs);
    } else {
      assert ps[..n] == ps;
    }
  }

  /** The loop over the method's parameters. */
  method ParameterLists(ps: seq<Parameter>, kwargs: Dict) returns (r: Result<Split>)
    ensures r == SplitAll(ps, kwargs)
  {
    var split := Split([], [("input_vars", List([]))]);
    for i := 0 to |ps|
      invariant SplitAll(ps[..i], kwargs) == Ok(split)
    {
      assert ps[..i + 1][..i] == ps[..i] && ps[..i + 1][i] == ps[i];
      var next := SplitParameter(split, ps[i], kwargs);
      if next.Err? {
        SplitStops(ps, i + 1, kwargs);
        return next;
      }
      split := next.value;
    }
    assert ps[..|ps|] == ps;
    r := Ok(split);
  }

  /** One iteration: the keyword value of parameter `p`, checked element by
      element when it is a list or an array. */
  method SplitParameter(s: Split, p: Parameter, kwargs: Dict) returns (r: Result<Split>)
    ensures r == SplitOne(s, p, kwargs)
  {
    var supplied := Get(kwargs, p.name);
    if supplied.None? {
      if p.optional {
        return Ok(Split(s.lists, Put(s.singles, p.name, p.defaultValue)));
      }
      return Err(Error(ValueError, MissingParameter(p.name)));
    }
    var v := supplied.value;
    if v == Str(PIPELINE) {
      return Ok(s);
    }
    if IsSequence(v) {
      var items := Items(v);
      for j := 0 to |items|
        invariant forall k :: 0 <= k < j ==> IsValidType(items[k], p.annotation) == Ok(true)
      {
        var valid := IsValidType(items[j], p.annotation);
        if valid.Err? || !valid.value {
          var o := CheckElements(p.name, items, p.annotation);
          return Err(o.error);
        }
      }
      if |items| == 1 {
        return Ok(Split(s.lists, Put(s.singles, p.name, items[0])));
      }
      return Ok(Split(Put(s.lists, p.name, v), s.singles));
    }
    var valid := IsValidType(v, p.annotation);
    if valid.Err? {
      return Err(valid.error);
    } else if !valid.value {
      return Err(Error(TypeError, InvalidType(p.name)));
    }
    r := Ok(Split(s.lists, Put(s.singles, p.name, v)));
  }

  /** Both dicts keep distinct keys: a repeated name overwrites. */
  lemma {:induction false} SplitDistinct(ps: seq<Parameter>, kwargs: Dict)
    requires SplitAll(ps, kwargs).Ok?
    ensures DistinctKeys(SplitAll(ps, kwargs).value.lists) && DistinctKeys(SplitAll(ps, kwargs).value.singles)
  {
    if ps != [] {
      var s := SplitAll(ps[..|ps| - 1], kwargs).value;
      SplitDistinct(ps[..|ps| - 1], kwargs);
      var p := ps[|ps| - 1];
      assert SplitAll(ps, kwargs) == SplitOne(s, p, kwargs);
      SplitOneDistinct(s, p, kwargs);
    }
  }

  lemma SplitOneDistinct(s: Split, p: Parameter, kwargs: Dict)
    requires SplitOne(s, p, kwargs).Ok? && DistinctKeys(s.lists) && DistinctKeys(s.singles)
    ensures DistinctKeys(SplitOne(s, p, kwargs).value.lists) && DistinctKeys(SplitOne(s, p, kwargs).value.singles)
  {
    var r := SplitOne(s, p, kwargs).value;
    var supplied := Get(kwargs, p.name);
    if supplied.None? {
      assert r == Split(s.lists, Put(s.singles, p.name, p.defaultValue));
      PutGet(s.singles, p.name, p.defaultValue);
    } else if supplied.value == Str(PIPELINE) {
      assert r == s;
    } else if IsSequence(supplied.value) && |Items(supplied.value)| == 1 {
      assert r == Split(s.lists, Put(s.singles, p.name, Items(supplied.value)[0]));
      PutGet(s.singles, p.name, Items(supplied.value)[0]);
    } else if IsSequence(supplied.value) {
      assert r == Split(Put(s.lists, p.name, supplied.value), s.singles);
      PutGet(s.lists, p.name, supplied.value);
    } else {
      assert r == Split(s.lists, Put(s.singles, p.name, supplied.value));
      PutGet(s.singles, p.name, supplied.value);
    }
  }

  // ----- __get_param_table -----

  /** The value lists of the axes, in key order. */
  function AxisItems(lists: Dict): (r: seq<seq<Value>>)
    ensures |r| == |lists| && forall k :: 0 <= k < |lists| ==> r[k] == Items(lists[k].1)
  {
    seq(|lists|, k requires 0 <= k < |lists| => Items(lists[k].1))
  }

  /** Every axis is non-empty and every one of its values is a list of one
      common length, the length of the first axis's first value: `np.array`
      of the combinations then has a third axis. */
  predicate ListCells(lists: Dict)
  {
    && |lists| >= 1
    && (forall k :: 0 <= k < |lists| ==> Items(lists[k].1) != [])
    && IsSequence(Items(lists[0].1)[0])
    && (forall k, j :: 0 <= k < |lists| && 0 <= j < |Items(lists[k].1)| ==>
          IsSequence(Items(lists[k].1)[j]) && |Items(Items(lists[k].1)[j])| == |Items(Items(lists[0].1)[0])|)
  }

  /** Permute mode: one row per combination of axis values
      (`itertools.product`), one column per axis, after `np.array` has turned
      the combinations into an array. `pd.DataFrame` refuses that array in two
      cases, both a ValueError: with no combination at all `np.array([])` is
      one-dimensional, which it refuses for two or more columns; and when every
      value is a list of one common length the array has a third axis. Lists
      of differing lengths give an object array, as in numpy before 1.24. */
  function PermuteTable(lists: Dict): (r: Result<Table>)
    ensures r.Err? <==> (|lists| >= 2 && exists k :: 0 <= k < |lists| && Items(lists[k].1) == []) || ListCells(lists)
    ensures |lists| >= 2 && (exists k :: 0 <= k < |lists| && Items(lists[k].1) == []) ==>
              r.error == Error(ValueError, PassedShape(1, |lists|))
    ensures ListCells(lists) ==> r.error.kind == ValueError && r.error.reason.NotTwoDimensional?
    ensures r.Ok? ==> Rectangular(r.value) && r.value.columns == Keys(lists)
  {
    var combinations := Product(AxisItems(lists));
    EmptyAxisNoCombination(lists);
    if |lists| >= 2 && combinations == [] then Err(Error(ValueError, PassedShape(1, |lists|)))
    else if ListCells(lists) then
      Err(Error(ValueError, NotTwoDimensional([|combinations|, |lists|, |Items(Items(lists[0].1)[0])|])))
    else Ok(Table(Keys(lists), combinations))
  }

  /** One axis of two equally long size lists is refused. */
  lemma ListAxisRefused()
    ensures PermuteTable([("size", List([List([Int(10), Int(6), Int(6)]), List([Int(12), Int(6), Int(6)])]))]).Err?
  {
    var lists: Dict := [("size", List([List([Int(10), Int(6), Int(6)]), List([Int(12), Int(6), Int(6)])]))];
    assert ListCells(lists);
  }

  /** A list beside a scalar, as in `size=[[10, 6, 6], 10]`, gives a table of
      two rows. */
  lemma MixedAxisKept()
    ensures var sizes := List([Int(10), Int(6), Int(6)]);
            PermuteTable([("size", List([sizes, Int(10)]))]) == Ok(Table(["size"], [[sizes], [Int(10)]]))
  {
    var sizes := List([Int(10), Int(6), Int(6)]);
    var axis := [sizes, Int(10)];
    var mixed: Dict := [("size", List(axis))];
    assert AxisItems(mixed) == [axis];
    var none: seq<seq<Value>> := [];
    assert [axis][..0] == none;
    assert Product([axis]) == Extend([[]], axis);
    var ext := Extend([[]], axis);
    assert ext == seq(2, j requires 0 <= j < 2 => [] + [axis[j]]);
    assert ext[0] == [sizes] && ext[1] == [Int(10)];
    assert ext == [[sizes], [Int(10)]];
    assert !IsSequence(Items(mixed[0].1)[1]);
    assert !ListCells(mixed);
    assert Keys(mixed) == ["size"];
    assert PermuteTable(mixed) == Ok(Table(Keys(mixed), Product(AxisItems(mixed))));
  }

  /** There is no combination exactly when some axis is empty. */
  lemma EmptyAxisNoCombination(lists: Dict)
    ensures Product(AxisItems(lists)) == [] <==> exists k :: 0 <= k < |lists| && Items(lists[k].1) == []
  {
    var items := AxisItems(lists);
    if exists k :: 0 <= k < |lists| && Items(lists[k].1) == [] {
      var k :| 0 <= k < |lists| && Items(lists[k].1) == [];
      ProductEdges(items, k);
    } else {
      var choice := seq(|lists|, k => 0);
      ProductComplete(items, choice);
    }
  }

  /** The first axis whose length differs from `length`. */
  function FirstOtherLength(lists: Dict, length: nat): (k: nat)
    requires exists k :: 0 <= k < |lists| && |Items(lists[k].1)| != length
    ensures k < |lists| && |Items(lists[k].1)| != length
    ensures forall j :: 0 <= j < k ==> |Items(lists[j].1)| == length
  {
    if |Items(lists[0].1)| != length then 0
    else
      assert forall k :: 1 <= k < |lists| ==> lists[1..][k - 1] == lists[k];
      FirstOtherLength(lists[1..], length) + 1
  }

  /** The zipped table over the first `n` axes: row i holds the i-th value of each. */
  function Zipped(lists: Dict, n: nat, length: nat): (t: Table)
    requires n <= |lists| && forall k :: 0 <= k < n ==> |Items(lists[k].1)| == length
    ensures Rectangular(t) && |t.rows| == length && t.columns == Keys(lists[..n])
    ensures forall i, k :: 0 <= i < length && 0 <= k < n ==> t.rows[i][k] == Items(lists[k].1)[i]
  {
    Table(Keys(lists[..n]), seq(length, i requires 0 <= i < length => seq(n, k requires 0 <= k < n => Items(lists[k].1)[i])))
  }

  /** Align mode. The first axis sets the length (IndexError when there is no
      axis); an axis of another length raises ValueError. */
  function AlignSpec(lists: Dict): (r: Result<Table>)
  {
    if lists == [] then Err(Error(IndexError, ListIndexOutOfRange(0, 0)))
    else
      var length := |Items(lists[0].1)|;
      if exists k :: 0 <= k < |lists| && |Items(lists[k].1)| != length then
        Err(Error(ValueError, AlignLengths(length, |Items(lists[FirstOtherLength(lists, length)].1)|)))
      else Ok(Zipped(lists, |lists|, length))
  }

  /** Key n is new among the first n keys, and extends them. */
  lemma NextKeyFresh(lists: Dict, n: nat)
    requires n < |lists| && DistinctKeys(lists)
    ensures lists[n].0 !in Keys(lists[..n])
    ensures Keys(lists[..n + 1]) == Keys(lists[..n]) + [lists[n].0]
  {
    forall k | 0 <= k < n ensures Keys(lists[..n])[k] != lists[n].0 {
      assert Keys(lists[..n])[k] == lists[k].0;
    }
    assert lists[..n + 1] == lists[..n] + [lists[n]];
  }

  /** Assigning the next axis as a column extends the zipped table by one column. */
  lemma AssignNextAxis(lists: Dict, n: nat, length: nat)
    requires n < |lists| && DistinctKeys(lists) && forall k :: 0 <= k <= n ==> |Items(lists[k].1)| == length
    requires n > 0 || length == 0
    ensures Assign(Zipped(lists, n, length), lists[n].0, Items(lists[n].1)) == Ok(Zipped(lists, n + 1, length))
  {
    var t := Zipped(lists, n, length);
    var key := lists[n].0;
    NextKeyFresh(lists, n);
    var t' := Zipped(lists, n + 1, length);
    var r := SetColumn(t, key, Items(lists[n].1));
    assert r.columns == t'.columns;
    forall i | 0 <= i < length ensures r.rows[i] == t'.rows[i] {
      assert r.rows[i] == t.rows[i] + [Items(lists[n].1)[i]];
      forall k | 0 <= k <= n ensures r.rows[i][k] == t'.rows[i][k] {
        if k < n { assert r.rows[i][k] == t.rows[i][k]; }
      }
    }
    assert r.rows == t'.rows;
    assert Assign(t, key, Items(lists[n].1)) == Ok(r);
  }

  lemma AssignFirstAxis(lists: Dict, length: nat)
    requires 0 < |lists| && length == |Items(lists[0].1)| && length > 0
    ensures Assign(Empty, lists[0].0, Items(lists[0].1)) == Ok(Zipped(lists, 1, length))
  {
    var key := lists[0].0;
    var t' := Zipped(lists, 1, length);
    var base := Table([], seq(length, i => NaNs(0)));
    var r := SetColumn(base, key, Items(lists[0].1));
    assert Keys(lists[..1]) == [key];
    assert r.columns == t'.columns;
    forall i | 0 <= i < length ensures r.rows[i] == t'.rows[i] {
      assert r.rows[i] == base.rows[i] + [Items(lists[0].1)[i]];
      assert base.rows[i] == [];
    }
    assert r.rows == t'.rows;
    assert Assign(Empty, key, Items(lists[0].1)) == Ok(r);
  }

  /** The align loop: `df[key] = values` for every axis, after checking its length. */
  method AlignTable(lists: Dict) returns (r: Result<Table>)
    requires DistinctKeys(lists)
    ensures r == AlignSpec(lists)
  {
    if |lists| == 0 {
      return Err(Error(IndexError, ListIndexOutOfRange(0, 0)));
    }
    var length := |Items(lists[0].1)|;
    var t := Empty;
    for n := 0 to |lists|
      invariant forall k :: 0 <= k < n ==> |Items(lists[k].1)| == length
      invariant t == if n == 0 && length > 0 then Empty else Zipped(lists, n, length)
    {
      var values := Items(lists[n].1);
      if |values| != length {
        return Err(Error(ValueError, AlignLengths(length, |values|)));
      }
      if n == 0 && length > 0 {
        AssignFirstAxis(lists, length);
      } else {
        AssignNextAxis(lists, n, length);
      }
      var next := Assign(t, lists[n].0, values);
      t := next.value;
    }
    return Ok(t);
  }

  /** Permute mode never fails without axes, and with one axis it fails only
      when every value is a list of one common length. When it succeeds it
      yields one row per combination: the product of the axis lengths, a
      single empty row when there is no axis, and every cell of column k is a
      value of axis k. */
  lemma PermuteRows(lists: Dict)
    ensures |lists| == 0 ==> PermuteTable(lists).Ok?
    ensures |lists| == 1 ==> (PermuteTable(lists).Ok? <==> !ListCells(lists))
    ensures PermuteTable(lists).Ok? ==> |PermuteTable(lists).value.rows| == CountProduct(AxisItems(lists))
    ensures lists == [] ==> PermuteTable(lists).value.rows == [[]]
    ensures PermuteTable(lists).Ok? ==>
              forall m, k :: 0 <= m < |PermuteTable(lists).value.rows| && 0 <= k < |lists| ==>
                PermuteTable(lists).value.rows[m][k] in Items(lists[k].1)
  {
    if PermuteTable(lists).Err? { return; }
    var t := PermuteTable(lists).value;
    forall m, k | 0 <= m < |t.rows| && 0 <= k < |lists| ensures t.rows[m][k] in Items(lists[k].1) {
      ProductMembers(AxisItems(lists), m);
    }
  }

  /** The table before IDs: zipped or permuted axes. */
  function AxesTable(lists: Dict, mode: string): (r: Result<Table>)
  {
    if mode == "align" then AlignSpec(lists) else PermuteTable(lists)
  }

  // ----- singletons -----

  /** One singleton written into the table: broadcast over existing rows (a
      list value is assigned element-wise), or `df[key] = [v]`, which creates
      the single row of a table that has none. */
  function AddSingle(t: Table, key: string, v: Value): (r: Result<Table>)
    requires Rectangular(t)
    ensures r.Ok? ==> Rectangular(r.value)
  {
    if |t.rows| > 0 then
      if IsSequence(v) then Assign(t, key, Items(v)) else Ok(Broadcast(t, key, v))
    else Assign(t, key, [v])
  }

  /** Reference definition of the singleton loop: the singletons in order. */
  function AddSingles(t: Table, singles: Dict): (r: Result<Table>)
    requires Rectangular(t)
    ensures r.Ok? ==> Rectangular(r.value)
  {
    if singles == [] then Ok(t)
    else
      var t' :- AddSingles(t, singles[..|singles| - 1]);
      AddSingle(t', singles[|singles| - 1].0, singles[|singles| - 1].1)
  }

  lemma {:induction false} AddSinglesStops(t: Table, singles: Dict, n: nat)
    requires Rectangular(t) && n <= |singles| && AddSingles(t, singles[..n]).Err?
    ensures AddSingles(t, singles) == AddSingles(t, singles[..n])
    decreases |singles| - n
  {
    if n < |singles| {
      assert singles[..n + 1][..n] == singles[..n];
      AddSinglesStops(t, singles, n + 1);
    } else {
      assert singles[..n] == singles;
    }
  }

  method AddSinglesLoop(t: Table, singles: Dict) returns (r: Result<Table>)
    requires Rectangular(t)
    ensures r == AddSingles(t, singles)
  {
    var cur := t;
    for j := 0 to |singles|
      invariant AddSingles(t, singles[..j]) == Ok(cur)
    {
      assert singles[..j + 1][..j] == singles[..j] && singles[..j + 1][j] == singles[j];
      var next := AddSingle(cur, singles[j].0, singles[j].1);
      if next.Err? {
        AddSinglesStops(t, singles, j + 1);
        return next;
      }
      cur := next.value;
    }
    assert singles[..|singles|] == singles;
    r := Ok(cur);
  }

  predicate Scalars(singles: Dict)
  {
    forall k :: 0 <= k < |singles| ==> !IsSequence(singles[k].1)
  }

  /** `r` is `t` with every singleton broadcast into every row. */
  predicate BroadcastInto(t: Table, r: Table, singles: Dict)
    requires WellFormed(t)
  {
    && WellFormed(r) && |r.rows| == |t.rows|
    && (forall k :: 0 <= k < |singles| ==> singles[k].0 in r.columns)
    && (forall c :: c in t.columns ==> c in r.columns)
    && (forall i, k :: 0 <= i < |t.rows| && 0 <= k < |singles| ==> Cell(r, i, singles[k].0) == singles[k].1)
    && (forall i, c :: 0 <= i < |t.rows| && c in t.columns && c !in Keys(singles) ==> Cell(r, i, c) == Cell(t, i, c))
  }

  /** On a table with rows, scalar singletons are broadcast: the row count is
      kept, every row holds each singleton's value, and the other columns keep
      their cells. */
  lemma {:induction false} SinglesBroadcast(t: Table, singles: Dict)
    requires WellFormed(t) && |t.rows| > 0 && Scalars(singles) && DistinctKeys(singles)
    ensures AddSingles(t, singles).Ok? && BroadcastInto(t, AddSingles(t, singles).value, singles)
  {
    if singles != [] {
      var init := singles[..|singles| - 1];
      var last := singles[|singles| - 1];
      assert Scalars(init) && DistinctKeys(init);
      SinglesBroadcast(t, init);
      var r0 := AddSingles(t, init).value;
      AddSinglesLast(t, singles);
      BroadcastStep(t, r0, singles);
    } else {
      assert AddSingles(t, singles) == Ok(t);
    }
  }

  lemma AddSinglesLast(t: Table, singles: Dict)
    requires WellFormed(t) && |t.rows| > 0 && singles != [] && !IsSequence(singles[|singles| - 1].1)
    requires AddSingles(t, singles[..|singles| - 1]).Ok?
    requires |AddSingles(t, singles[..|singles| - 1]).value.rows| == |t.rows|
    ensures var r0 := AddSingles(t, singles[..|singles| - 1]).value;
            var last := singles[|singles| - 1];
            AddSingles(t, singles) == Ok(SetColumn(r0, last.0, seq(|r0.rows|, i => last.1)))
  {
  }

  lemma BroadcastStep(t: Table, r0: Table, singles: Dict)
    requires WellFormed(t) && singles != [] && DistinctKeys(singles)
    requires BroadcastInto(t, r0, singles[..|singles| - 1])
    ensures var last := singles[|singles| - 1];
            BroadcastInto(t, SetColumn(r0, last.0, seq(|r0.rows|, i => last.1)), singles)
  {
    var init := singles[..|singles| - 1];
    var last := singles[|singles| - 1];
    assert singles == init + [last];
    var values := seq(|r0.rows|, i => last.1);
    SetColumnCells(r0, last.0, values);
    var r := SetColumn(r0, last.0, values);
    assert singles[|init|] == last;
    forall k | 0 <= k < |init| ensures singles[k] == init[k] && init[k].0 != last.0 {
      assert singles[k].0 != singles[|init|].0;
    }
    assert Keys(singles) == Keys(init) + [last.0];
    forall i, k | 0 <= i < |t.rows| && 0 <= k < |singles| ensures Cell(r, i, singles[k].0) == singles[k].1 {
      if k < |init| {
        assert Cell(r0, i, init[k].0) == init[k].1;
      }
    }
  }

  /** On a table without rows, the first singleton creates exactly one row. */
  lemma {:induction false} SinglesOnEmpty(t: Table, singles: Dict)
    requires WellFormed(t) && |t.rows| == 0 && singles != [] && Scalars(singles)
    ensures AddSingles(t, singles).Ok? && |AddSingles(t, singles).value.rows| == 1
  {
    if |singles| == 1 {
      assert singles[..0] == [];
    } else {
      var init := singles[..|singles| - 1];
      assert Scalars(init);
      SinglesOnEmpty(t, init);
    }
  }

  // ----- __add_ids -----

  /** The label of row i: `base + sep + str(i).zfill(pos)`. */
  function Label(prefix: string, i: nat, pos: int): string
  {
    prefix + ZFill(NatToString(i), pos)
  }

  /** `__add_ids`: the column `ID` gets one label per row. */
  function AddIds(t: Table, prefix: string, pos: int): (r: Table)
    requires Rectangular(t)
    ensures |r.rows| == |t.rows| && Rectangular(r) && "ID" in r.columns
  {
    SetColumn(t, "ID", seq(|t.rows|, i requires 0 <= i < |t.rows| => Str(Label(prefix, i, pos))))
  }

  /** Every row's ID is its label, the labels are pairwise distinct, and the
      other columns are untouched. */
  lemma IdsDistinct(t: Table, prefix: string, pos: int)
    requires WellFormed(t)
    ensures WellFormed(AddIds(t, prefix, pos))
    ensures forall i :: 0 <= i < |t.rows| ==> Cell(AddIds(t, prefix, pos), i, "ID") == Str(Label(prefix, i, pos))
    ensures forall i, j :: 0 <= i < j < |t.rows| ==>
              Cell(AddIds(t, prefix, pos), i, "ID") != Cell(AddIds(t, prefix, pos), j, "ID")
    ensures forall i, c :: 0 <= i < |t.rows| && c in t.columns && c != "ID" ==>
              Cell(AddIds(t, prefix, pos), i, c) == Cell(t, i, c)
  {
    SetColumnCells(t, "ID", seq(|t.rows|, i requires 0 <= i < |t.rows| => Str(Label(prefix, i, pos))));
    forall i, j | 0 <= i < j < |t.rows| ensures Label(prefix, i, pos) != Label(prefix, j, pos) {
      if Label(prefix, i, pos) == Label(prefix, j, pos) {
        var a := ZFill(NatToString(i), pos);
        var b := ZFill(NatToString(j), pos);
        assert a == Label(prefix, i, pos)[|prefix|..] == Label(prefix, j, pos)[|prefix|..] == b;
        PaddedIndexInjective(i, j, pos);
      }
    }
  }

  lemma AxesWellFormed(lists: Dict, mode: string)
    requires DistinctKeys(lists)
    ensures AxesTable(lists, mode).Ok? ==> WellFormed(AxesTable(lists, mode).value)
  {
    assert DistinctColumns(Keys(lists));
    assert Keys(lists[..|lists|]) == Keys(lists) by { assert lists[..|lists|] == lists; }
  }

  lemma {:induction false} AddSinglesWellFormed(t: Table, singles: Dict)
    requires WellFormed(t) && AddSingles(t, singles).Ok?
    ensures WellFormed(AddSingles(t, singles).value)
  {
    if singles != [] {
      var init := singles[..|singles| - 1];
      var last := singles[|singles| - 1];
      AddSinglesWellFormed(t, init);
      var r0 := AddSingles(t, init).value;
      if |r0.rows| > 0 && !IsSequence(last.1) {
        SetColumnCells(r0, last.0, seq(|r0.rows|, i => last.1));
      } else if |r0.rows| > 0 {
        AssignWellFormed(r0, last.0, Items(last.1));
      } else {
        AssignWellFormed(r0, last.0, [last.1]);
      }
    }
  }

  /** The contract assumed of `list_to_columns`, whose source is not part of
      this model: it maps a well-formed table to a well-formed table. */
  ghost predicate ShapePreserving(toColumns: Table -> Table)
  {
    forall t :: WellFormed(t) ==> WellFormed(toColumns(t))
  }

  /** The ID prefix: `base_name` (the step name when absent) followed by `sep`. */
  function IdPrefix(stepName: string, baseName: Option<string>, sep: string): string
  {
    (if baseName.None? then stepName else baseName.value) + sep
  }

  /** Reference definition of the table `specify_parameters` returns: the mode
      is checked first, then the method's parameters are looked up, the keyword
      values split, the axes laid out, `list_to_columns` applied, the
      singletons (flattened by `list_to_keys`) written, and the IDs added. */
  function ParameterTable(stepName: string, ref: MethodRef, catalog: seq<MethodEntry>, mode: string,
                          kwargs: Dict, baseName: Option<string>, sep: string, pos: int,
                          toColumns: Table -> Table): (r: Result<Table>)
    requires ShapePreserving(toColumns)
    ensures r.Ok? ==> WellFormed(r.value) && "ID" in r.value.columns
  {
    if mode != "align" && mode != "permute" then Err(Error(ValueError, InvalidMode(mode)))
    else
      var ps :- MethodParameters(stepName, ref, catalog);
      var split :- SplitAll(ps, kwargs);
      SplitDistinct(ps, kwargs);
      AxesWellFormed(split.lists, mode);
      var axes :- AxesTable(split.lists, mode);
      var t :- AddSingles(toColumns(axes), ListToKeysSpec(split.singles, '_'));
      AddSinglesWellFormed(toColumns(axes), ListToKeysSpec(split.singles, '_'));
      IdsDistinct(t, IdPrefix(stepName, baseName, sep), pos);
      Ok(AddIds(t, IdPrefix(stepName, baseName, sep), pos))
  }

  /** A mode other than `align` and `permute` is refused before anything else. */
  lemma InvalidModeRefused(stepName: string, ref: MethodRef, catalog: seq<MethodEntry>, mode: string,
                           kwargs: Dict, baseName: Option<string>, sep: string, pos: int, toColumns: Table -> Table)
    requires ShapePreserving(toColumns)
    ensures mode != "align" && mode != "permute" ==>
              ParameterTable(stepName, ref, catalog, mode, kwargs, baseName, sep, pos, toColumns).error == Error(ValueError, InvalidMode(mode))
  {
  }

  /** Every row of the returned table carries its label as `ID`, and the
      labels are pairwise distinct. */
  lemma RowIdsDistinct(stepName: string, ref: MethodRef, catalog: seq<MethodEntry>, mode: string,
                       kwargs: Dict, baseName: Option<string>, sep: string, pos: int, toColumns: Table -> Table)
    requires ShapePreserving(toColumns)
    requires ParameterTable(stepName, ref, catalog, mode, kwargs, baseName, sep, pos, toColumns).Ok?
    ensures var t := ParameterTable(stepName, ref, catalog, mode, kwargs, baseName, sep, pos, toColumns).value;
            && (forall i :: 0 <= i < |t.rows| ==> Cell(t, i, "ID") == Str(Label(IdPrefix(stepName, baseName, sep), i, pos)))
            && (forall i, j :: 0 <= i < j < |t.rows| ==> Cell(t, i, "ID") != Cell(t, j, "ID"))
  {
    var ps := MethodParameters(stepName, ref, catalog).value;
    var split := SplitAll(ps, kwargs).value;
    SplitDistinct(ps, kwargs);
    AxesWellFormed(split.lists, mode);
    var axes := AxesTable(split.lists, mode).value;
    var t := AddSingles(toColumns(axes), ListToKeysSpec(split.singles, '_')).value;
    AddSinglesWellFormed(toColumns(axes), ListToKeysSpec(split.singles, '_'));
    IdsDistinct(t, IdPrefix(stepName, baseName, sep), pos);
  }

  /** Every row has a string `ID`. */
  predicate HasIds(t: Table)
    requires Rectangular(t)
  {
    && (|t.rows| > 0 ==> "ID" in t.columns)
    && (forall i :: 0 <= i < |t.rows| && "ID" in t.columns ==> Cell(t, i, "ID").Str?)
  }

  /** Concatenating two tables whose rows all have IDs keeps every row's ID. */
  lemma ConcatKeepsIds(a: Table, b: Table)
    requires WellFormed(a) && WellFormed(b) && HasIds(a) && HasIds(b)
    ensures HasIds(Concat(a, b))
  {
    var r := Concat(a, b);
    ConcatCells(a, b);
    forall i | 0 <= i < |r.rows| ensures "ID" in r.columns && Cell(r, i, "ID").Str? {
      if i < |a.rows| {
        assert "ID" in a.columns;
        assert Cell(a, i, "ID").Str?;
        assert Cell(r, i, "ID") == Cell(a, i, "ID");
      } else {
        var j := i - |a.rows|;
        assert "ID" in b.columns;
        assert Cell(b, j, "ID").Str?;
        assert Cell(r, |a.rows| + j, "ID") == Cell(b, j, "ID");
      }
    }
  }

  // ----- the step object -----

  class Step {
    const name: string
    const flags: ModuleFlags    // the module's flags; `waitComplete` is not copied onto the step
    const chosen: MethodRef     // `self.method`
    const catalog: seq<MethodEntry>   // the methods available to the module, with their signatures
    var parameters: Table
    var inputStep: Option<seq<int>>

    /** The stored table is well formed and every row has a string ID. */
    predicate Valid()
      reads this
    {
      WellFormed(parameters) && HasIds(parameters)
    }

    /** `Step(step_name, method)` once the module and method are resolved. */
    constructor(name: string, flags: ModuleFlags, chosen: MethodRef, catalog: seq<MethodEntry>)
      ensures Valid()
      ensures this.name == name && this.flags == flags && this.chosen == chosen && this.catalog == catalog
      ensures parameters == Empty && inputStep.None?
    {
      this.name := name;
      this.flags := flags;
      this.chosen := chosen;
      this.catalog := catalog;
      parameters := Empty;
      inputStep := None;
    }

    /** `specify_parameters(mode, overwrite, base_name, sep, pos, **kwargs)`:
        returns the new rows; the stored table becomes them (`overwrite`) or
        has them appended; on an error the stored table is unchanged. */
    method SpecifyParameters(mode: string, overwrite: bool, baseName: Option<string>, sep: string, pos: int,
                             kwargs: Dict, toColumns: Table -> Table) returns (r: Result<Table>)
      requires Valid() && ShapePreserving(toColumns)
      modifies this
      ensures Valid()
      ensures r == ParameterTable(name, chosen, catalog, mode, kwargs, baseName, sep, pos, toColumns)
      ensures r.Ok? ==> parameters == Concat(if overwrite then Empty else old(parameters), r.value)
      ensures r.Err? ==> parameters == old(parameters)
      ensures inputStep == old(inputStep)
    {
      if mode != "align" && mode != "permute" {
        return Err(Error(ValueError, InvalidMode(mode)));
      }
      var ps :- MethodParameters(name, chosen, catalog);
      var split :- ParameterLists(ps, kwargs);
      SplitDistinct(ps, kwargs);
      var axes: Table;
      if mode == "align" {
        axes :- AlignTable(split.lists);
      } else {
        axes :- PermuteTable(split.lists);
      }
      AxesWellFormed(split.lists, mode);
      var singles := ListToKeys(split.singles, '_');
      var t :- AddSinglesLoop(toColumns(axes), singles);
      AddSinglesWellFormed(toColumns(axes), singles);
      var prefix := IdPrefix(name, baseName, sep);
      IdsDistinct(t, prefix, pos);
      t := AddIds(t, prefix, pos);
      assert HasIds(t);
      var base := if overwrite then Empty else parameters;
      ConcatKeepsIds(base, t);
      parameters := Concat(base, t);
      r := Ok(t);
    }
  }
}
