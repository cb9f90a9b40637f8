/** Size and shape conversions and the flattening of list-valued parameters
    into numbered keys (and back). */
module Conversion {
  import opened Wrappers
  import opened Strings
  import opened Values

  // ----- convert_size -----

  /** `convert_size`: the input is the flattened array `np.array([size]).flatten()`
      (a scalar flattens to one element). One value is used for all three axes;
      two values give z and a shared y/x; three are kept; any other count is a
      ValueError. */
  function ConvertSize<T>(size: seq<T>): (r: Result<seq<T>>)
    ensures r.Ok? <==> 1 <= |size| <= 3
    ensures r.Err? ==> r.error == Error(ValueError, InvalidSize(|size|))
    ensures r.Ok? ==> |r.value| == 3 &&
                      forall k :: 0 <= k < 3 ==> r.value[k] == size[if k < |size| then k else |size| - 1]
  {
    if |size| == 1 then Ok([size[0], size[0], size[0]])
    else if |size| == 2 then Ok([size[0], size[1], size[1]])
    else if |size| == 3 then Ok(size)
    else Err(Error(ValueError, InvalidSize(|size|)))
  }

  /** The three accepted input lengths, value by value. */
  lemma ConvertSizeCases<T>(a: T, b: T, c: T)
    ensures ConvertSize([a]) == Ok([a, a, a])
    ensures ConvertSize([a, b]) == Ok([a, b, b])
    ensures ConvertSize([a, b, c]) == Ok([a, b, c])
  {
  }

  /** Converting a converted size changes nothing, and the empty input and
      inputs of length 4 or more are refused. */
  lemma ConvertSizeIdempotent<T>(size: seq<T>)
    requires ConvertSize(size).Ok?
    ensures ConvertSize(ConvertSize(size).value) == ConvertSize(size)
    ensures ConvertSize(size[..0]).Err?
    ensures forall extra: seq<T> :: |size| + |extra| >= 4 ==> ConvertSize(size + extra).Err?
  {
    var r := ConvertSize(size).value;
    assert |r| == 3;
  }

  // ----- unify_shape (shapes only) -----

  /** One padded array: its new shape and the `(before, after)` zero padding per axis. */
  datatype Padded = Padded(shape: seq<nat>, pads: seq<(nat, nat)>)

  function Max(a: nat, b: nat): nat { if a >= b then a else b }

  /** The shape `np.pad` gives to an array of shape `arr` with these pad widths. */
  function PaddedShape(arr: seq<nat>, pads: seq<(nat, nat)>): (s: seq<nat>)
    requires |pads| == |arr|
    ensures |s| == |arr|
  {
    seq(|arr|, i requires 0 <= i < |arr| => arr[i] + pads[i].0 + pads[i].1)
  }

  /** The pad widths that bring `arr` up to `nshape`: `int(d / 2)` before and
      the rest after, on each axis. */
  function PadsTo(arr: seq<nat>, nshape: seq<nat>): (pads: seq<(nat, nat)>)
    requires |arr| == |nshape| && forall i :: 0 <= i < |arr| ==> arr[i] <= nshape[i]
    ensures |pads| == |arr|
  {
    seq(|arr|, i requires 0 <= i < |arr| => ((nshape[i] - arr[i]) / 2, (nshape[i] - arr[i]) - (nshape[i] - arr[i]) / 2))
  }

  /** `np.pad(arr, pad_width)` on shapes. */
  function PadTo(arr: seq<nat>, nshape: seq<nat>): Padded
    requires |arr| == |nshape| && forall i :: 0 <= i < |arr| ==> arr[i] <= nshape[i]
  {
    Padded(PaddedShape(arr, PadsTo(arr, nshape)), PadsTo(arr, nshape))
  }

  /** The padded array has exactly the target shape, the two pads of an axis
      add up to the missing length and differ by at most one. */
  lemma PadToShape(arr: seq<nat>, nshape: seq<nat>, i: nat)
    requires |arr| == |nshape| && forall i :: 0 <= i < |arr| ==> arr[i] <= nshape[i]
    requires i < |arr|
    ensures var p := PadTo(arr, nshape);
      && |p.shape| == |arr| && |p.pads| == |arr| && p.shape[i] == nshape[i]
      && p.pads[i].0 + p.pads[i].1 == nshape[i] - arr[i]
      && p.pads[i].0 <= p.pads[i].1 <= p.pads[i].0 + 1
  {
  }

  /** The inner loop of `unify_shape`: the pad widths of one array. */
  method PadWidths(arr: seq<nat>, nshape: seq<nat>) returns (padWidth: seq<(nat, nat)>)
    requires |arr| == |nshape| && forall i :: 0 <= i < |arr| ==> arr[i] <= nshape[i]
    ensures padWidth == PadsTo(arr, nshape)
  {
    padWidth := [];
    for i := 0 to |arr|
      invariant padWidth == PadsTo(arr, nshape)[..i]
    {
      var diff := nshape[i] - arr[i];
      padWidth := padWidth + [(diff / 2, diff - diff / 2)];
    }
  }

  /** `unify_shape(x, y)` on the arrays' shapes: both arrays are zero-padded to
      the element-wise maximum shape, the padding split as `int(d / 2)` before
      and the rest after. Arrays of different rank are a ValueError. */
  method UnifyShape(x: seq<nat>, y: seq<nat>) returns (r: Result<seq<Padded>>)
    ensures r.Err? <==> |x| != |y|
    ensures r.Err? ==> r.error == Error(ValueError, DimensionMismatch(|x|, |y|))
    ensures r.Ok? ==> |r.value| == 2
    ensures r.Ok? ==> forall i :: 0 <= i < |x| ==> x[i] <= Max(x[i], y[i]) && y[i] <= Max(x[i], y[i])
    ensures r.Ok? ==> var nshape := seq(|x|, i requires 0 <= i < |x| => Max(x[i], y[i]));
              r.value == [PadTo(x, nshape), PadTo(y, nshape)]
  {
    if |x| != |y| {
      return Err(Error(ValueError, DimensionMismatch(|x|, |y|)));
    }
    var nshape := seq(|x|, i requires 0 <= i < |x| => Max(x[i], y[i]));
    var arrays := [x, y];
    var out: seq<Padded> := [];
    for k := 0 to 2
      invariant out == [PadTo(x, nshape), PadTo(y, nshape)][..k]
    {
      var arr := arrays[k];
      var padWidth := PadWidths(arr, nshape);
      out := out + [Padded(PaddedShape(arr, padWidth), padWidth)];
    }
    r := Ok(out);
  }

  // ----- list_to_keys -----

  /** The entries one `key: value` pair becomes: a list is spread over
      `key + sep + str(i)`, anything else is kept. Only a Python `list` is
      spread (the source also names `np.array`, a function, not a type). */
  function Expansion(key: string, v: Value, sep: char): (d: Dict)
    ensures v.List? ==> |d| == |v.items| &&
                        forall i :: 0 <= i < |d| ==> d[i] == (key + [sep] + NatToString(i), v.items[i])
    ensures !v.List? ==> d == [(key, v)]
  {
    if v.List? then seq(|v.items|, i requires 0 <= i < |v.items| => (key + [sep] + NatToString(i), v.items[i]))
    else [(key, v)]
  }

  /** Writes `entries` into `acc` one after the other, as repeated `acc[k] = v`. */
  function PutAll(acc: Dict, entries: Dict): Dict
  {
    if entries == [] then acc else Put(PutAll(acc, entries[..|entries| - 1]), entries[|entries| - 1].0, entries[|entries| - 1].1)
  }

  /** Reference definition of `list_to_keys`: each entry's expansion written, in order, into a new dict. */
  function ListToKeysSpec(params: Dict, sep: char): Dict
  {
    if params == [] then []
    else
      var last := params[|params| - 1];
      PutAll(ListToKeysSpec(params[..|params| - 1], sep), Expansion(last.0, last.1, sep))
  }

  /** All expansions laid end to end. */
  function ConcatExpansions(params: Dict, sep: char): Dict
  {
    if params == [] then []
    else ConcatExpansions(params[..|params| - 1], sep) + Expansion(params[|params| - 1].0, params[|params| - 1].1, sep)
  }

  method ListToKeys(params: Dict, sep: char) returns (converted: Dict)
    ensures converted == ListToKeysSpec(params, sep)
  {
    converted := [];
    for j := 0 to |params|
      invariant converted == ListToKeysSpec(params[..j], sep)
    {
      var key := params[j].0;
      var v := params[j].1;
      assert params[..j + 1][..j] == params[..j];
      if v.List? {
        ghost var before := converted;
        for i := 0 to |v.items|
          invariant converted == PutAll(before, Expansion(key, v, sep)[..i])
        {
          assert Expansion(key, v, sep)[..i + 1][..i] == Expansion(key, v, sep)[..i];
          assert Expansion(key, v, sep)[i] == (key + [sep] + NatToString(i), v.items[i]);
          converted := Put(converted, key + [sep] + NatToString(i), v.items[i]);
        }
        assert Expansion(key, v, sep)[..|v.items|] == Expansion(key, v, sep);
        assert converted == PutAll(before, Expansion(key, v, sep));
        assert ListToKeysSpec(params[..j + 1], sep) == PutAll(ListToKeysSpec(params[..j], sep), Expansion(key, v, sep));
      } else {
        assert Expansion(key, v, sep) == [(key, v)];
        assert [(key, v)][..0] == [];
        assert PutAll(converted, [(key, v)]) == Put(converted, key, v);
        converted := Put(converted, key, v);
      }
      assert params[..j + 1][j] == params[j];
    }
    assert params[..|params|] == params;
  }

  lemma {:induction false} PutAllFresh(acc: Dict, entries: Dict)
    requires DistinctKeys(acc + entries)
    ensures PutAll(acc, entries) == acc + entries
  {
    if entries != [] {
      var init := entries[..|entries| - 1];
      assert (acc + entries)[..|acc| + |init|] == acc + init;
      PutAllFresh(acc, init);
      var last := entries[|entries| - 1];
      assert last.0 !in Keys(acc + init) by {
        forall k | 0 <= k < |acc + init| ensures (acc + init)[k].0 != last.0 {
          assert (acc + init)[k] == (acc + entries)[k];
          assert (acc + entries)[|acc + entries| - 1] == last;
        }
      }
      assert acc + init + [last] == acc + entries;
    }
  }

  lemma DistinctPrefix(d: Dict, n: nat)
    requires n <= |d| && DistinctKeys(d)
    ensures DistinctKeys(d[..n])
  {
  }

  /** When no two expanded keys collide, `list_to_keys` lays the expansions of
      the entries end to end: a list under `k` becomes `k_0 .. k_{n-1}` in place,
      every other entry is copied unchanged. */
  lemma {:induction false} ListToKeysIsConcat(params: Dict, sep: char)
    requires DistinctKeys(ConcatExpansions(params, sep))
    ensures ListToKeysSpec(params, sep) == ConcatExpansions(params, sep)
  {
    if params != [] {
      var init := params[..|params| - 1];
      var last := params[|params| - 1];
      var c := ConcatExpansions(params, sep);
      assert c == ConcatExpansions(init, sep) + Expansion(last.0, last.1, sep);
      DistinctPrefix(c, |ConcatExpansions(init, sep)|);
      assert c[..|ConcatExpansions(init, sep)|] == ConcatExpansions(init, sep);
      ListToKeysIsConcat(init, sep);
      PutAllFresh(ConcatExpansions(init, sep), Expansion(last.0, last.1, sep));
    }
  }

  // ----- keys_to_list -----

  /** The regular expression `(.+)<sep>\d` matches at `j`: a non-empty stem
      `key[..j]`, then `sep`, then a digit. */
  predicate MatchAt(key: string, sep: char, j: int)
  {
    1 <= j && j + 1 < |key| && key[j] == sep && IsDigit(key[j + 1])
  }

  /** The largest match position not above `upto`. */
  function LastMatch(key: string, sep: char, upto: int): (r: Option<nat>)
    ensures r.Some? ==> 1 <= r.value <= upto
    decreases upto
  {
    if upto < 1 then None
    else if MatchAt(key, sep, upto) then Some(upto)
    else LastMatch(key, sep, upto - 1)
  }

  /** `LastMatch` finds the largest match position, and none when there is none. */
  lemma {:induction false} LastMatchIsLast(key: string, sep: char, upto: int)
    ensures var r := LastMatch(key, sep, upto);
            && (r.Some? ==> r.value <= upto && MatchAt(key, sep, r.value) &&
                            forall j :: r.value < j <= upto ==> !MatchAt(key, sep, j))
            && (r.None? ==> forall j :: j <= upto ==> !MatchAt(key, sep, j))
    decreases upto
  {
    if upto >= 1 && !MatchAt(key, sep, upto) {
      LastMatchIsLast(key, sep, upto - 1);
    }
  }

  /** `len(p.findall(key)) > 0`. */
  predicate Matches(key: string, sep: char)
  {
    LastMatch(key, sep, |key|).Some?
  }

  /** `p.findall(key)[0]`: the leftmost match starts at 0 and the greedy `.+`
      runs up to the last position where `sep` and a digit follow. */
  function Stem(key: string, sep: char): string
    requires Matches(key, sep)
  {
    key[..LastMatch(key, sep, |key|).value]
  }

  /** The three accumulators of the `keys_to_list` loop. */
  datatype Collected = Collected(converted: Dict, keys: seq<string>, values: seq<Value>)

  /** One iteration of the `keys_to_list` loop. */
  function CollectStep(c: Collected, e: (string, Value), sep: char): Collected
  {
    if Matches(e.0, sep) then Collected(c.converted, c.keys + [e.0], c.values + [e.1])
    else Collected(Put(c.converted, e.0, e.1), c.keys, c.values)
  }

  /** The loop run over `params` from the accumulators `c`. */
  function CollectFrom(c: Collected, params: Dict, sep: char): Collected
  {
    if params == [] then c
    else CollectStep(CollectFrom(c, params[..|params| - 1], sep), params[|params| - 1], sep)
  }

  function Collect(params: Dict, sep: char): (c: Collected)
    ensures |c.keys| == |c.values|
    ensures forall k :: 0 <= k < |c.keys| ==> Matches(c.keys[k], sep)
  {
    if params == [] then Collected([], [], [])
    else CollectStep(Collect(params[..|params| - 1], sep), params[|params| - 1], sep)
  }

  /** Running the loop over `a + t` is running it over `a`, then over `t`. */
  lemma {:induction false} CollectAppend(a: Dict, t: Dict, sep: char)
    ensures Collect(a + t, sep) == CollectFrom(Collect(a, sep), t, sep)
  {
    if t == [] {
      assert a + t == a;
    } else {
      CollectAppend(a, t[..|t| - 1], sep);
      assert (a + t)[..|a + t| - 1] == a + t[..|t| - 1];
      assert (a + t)[|a + t| - 1] == t[|t| - 1];
    }
  }

  /** Reference definition of `keys_to_list`: unnumbered keys are kept; if more
      than one key is numbered, all numbered values are gathered, in key order,
      under the stem of the first; a lone numbered key is dropped. */
  function KeysToListSpec(params: Dict, sep: char): Dict
  {
    var c := Collect(params, sep);
    if |c.keys| > 1 then Put(c.converted, Stem(c.keys[0], sep), List(c.values)) else c.converted
  }

  method KeysToList(params: Dict, sep: char) returns (converted: Dict)
    ensures converted == KeysToListSpec(params, sep)
  {
    converted := [];
    var keys: seq<string> := [];
    var values: seq<Value> := [];
    for j := 0 to |params|
      invariant Collected(converted, keys, values) == Collect(params[..j], sep)
    {
      var key := params[j].0;
      var v := params[j].1;
      assert params[..j + 1][..j] == params[..j];
      assert params[..j + 1][j] == params[j];
      if Matches(key, sep) {
        keys := keys + [key];
        values := values + [v];
      } else {
        converted := Put(converted, key, v);
      }
    }
    assert params[..|params|] == params;
    if |keys| > 1 {
      converted := Put(converted, Stem(keys[0], sep), List(values));
    }
  }

  // ----- the round trip -----

  /** Every key generated from a non-empty stem `key` matches, with stem `key`. */
  lemma GeneratedKeyMatches(key: string, i: nat)
    requires key != ""
    ensures Matches(key + "_" + NatToString(i), '_')
    ensures Stem(key + "_" + NatToString(i), '_') == key
  {
    var g := key + "_" + NatToString(i);
    assert MatchAt(g, '_', |key|);
    assert forall j :: |key| < j < |g| ==> g[j] == NatToString(i)[j - |key| - 1];
    assert forall j :: |key| < j < |g| ==> !MatchAt(g, '_', j);
    LastMatchIsLast(g, '_', |g|);
  }

  lemma GeneratedKeysDistinct(key: string, i: nat, j: nat)
    requires key + "_" + NatToString(i) == key + "_" + NatToString(j)
    ensures i == j
  {
    var a := key + "_" + NatToString(i);
    assert NatToString(i) == a[|key| + 1..];
    assert NatToString(j) == a[|key| + 1..];
    DecimalOfNatToString(i);
    DecimalOfNatToString(j);
  }

  /** The parameter dicts the round trip is promised for: one list-valued key
      (a non-empty name, at least two values) among plain, unnumbered keys. */
  predicate OneListAmongPlain(params: Dict, idx: nat)
  {
    && idx < |params|
    && DistinctKeys(params)
    && params[idx].0 != ""
    && params[idx].1.List? && |params[idx].1.items| >= 2
    && forall j :: 0 <= j < |params| && j != idx ==> !params[j].1.List? && !Matches(params[j].0, '_')
  }

  function RemoveAt(d: Dict, idx: nat): Dict
    requires idx < |d|
  {
    d[..idx] + d[idx + 1..]
  }

  lemma {:induction false} ConcatOfOneList(params: Dict, idx: nat, n: nat)
    requires OneListAmongPlain(params, idx) && n <= |params|
    ensures n <= idx ==> ConcatExpansions(params[..n], '_') == params[..n]
    ensures n > idx ==> ConcatExpansions(params[..n], '_') ==
                        params[..idx] + Expansion(params[idx].0, params[idx].1, '_') + params[idx + 1..n]
  {
    if n > 0 {
      ConcatOfOneList(params, idx, n - 1);
      var e := Expansion(params[n - 1].0, params[n - 1].1, '_');
      assert params[..n][..n - 1] == params[..n - 1];
      assert ConcatExpansions(params[..n], '_') == ConcatExpansions(params[..n - 1], '_') + e;
      if n - 1 < idx {
        assert e == [params[n - 1]];
        assert params[..n - 1] + [params[n - 1]] == params[..n];
      } else if n - 1 == idx {
        assert params[idx + 1..n] == [];
      } else {
        assert e == [params[n - 1]];
        assert params[idx + 1..n] == params[idx + 1..n - 1] + [params[n - 1]];
      }
    }
  }

  /** The numbered keys generated for `key`'s first `m` values. */
  function GeneratedKeys(key: string, m: nat): seq<string>
  {
    seq(m, i requires 0 <= i < m => key + "_" + NatToString(i))
  }

  /** The expanded dict of a `OneListAmongPlain` dict has distinct keys. */
  lemma ExpandedKeysDistinct(params: Dict, idx: nat)
    requires OneListAmongPlain(params, idx)
    ensures var e := Expansion(params[idx].0, params[idx].1, '_');
            DistinctKeys(params[..idx] + e + params[idx + 1..])
  {
    var key := params[idx].0;
    var e := Expansion(key, params[idx].1, '_');
    var l := params[..idx] + e + params[idx + 1..];
    forall i, j | 0 <= i < j < |l| ensures l[i].0 != l[j].0 {
      var inE := (k: int) => idx <= k < idx + |e|;
      if inE(i) && inE(j) {
        if l[i].0 == l[j].0 {
          GeneratedKeysDistinct(key, i - idx, j - idx);
        }
      } else if inE(i) {
        GeneratedKeyMatches(key, i - idx);
        assert l[j] == params[j - |e| + 1];
      } else if inE(j) {
        GeneratedKeyMatches(key, j - idx);
        assert l[i] == params[i];
      } else {
        var pi := if i < idx then i else i - |e| + 1;
        var pj := if j < idx then j else j - |e| + 1;
        assert l[i] == params[pi] && l[j] == params[pj];
      }
    }
  }

  function ValuesOf(d: Dict): (vs: seq<Value>)
    ensures |vs| == |d| && forall k :: 0 <= k < |d| ==> vs[k] == d[k].1
  {
    seq(|d|, k requires 0 <= k < |d| => d[k].1)
  }

  lemma LastKeyFresh(d: Dict, e: (string, Value))
    requires DistinctKeys(d + [e])
    ensures e.0 !in Keys(d)
  {
    forall k | 0 <= k < |d| ensures d[k].0 != e.0 {
      assert (d + [e])[k] == d[k] && (d + [e])[|d|] == e;
    }
  }

  /** Unnumbered entries with fresh keys are appended to the kept dict. */
  lemma {:induction false} CollectPlainTail(c: Collected, t: Dict, sep: char)
    requires FreshTail(c.converted, t, sep)
    ensures CollectFrom(c, t, sep) == Collected(c.converted + t, c.keys, c.values)
  {
    if t != [] {
      var init := t[..|t| - 1];
      var last := t[|t| - 1];
      CollectPlainTail(c, init, sep);
      assert Put(c.converted + init, last.0, last.1) == (c.converted + init) + [last];
      assert c.converted + t == (c.converted + init) + [last];
    }
  }

  /** Distinct keys stay distinct without the last entry, whose key is then fresh. */
  lemma DistinctInit(d: Dict, t: Dict)
    requires t != [] && DistinctKeys(d + t)
    ensures DistinctKeys(d + t[..|t| - 1]) && t[|t| - 1].0 !in Keys(d + t[..|t| - 1])
  {
    var init := t[..|t| - 1];
    assert d + t == (d + init) + [t[|t| - 1]];
    DistinctPrefix(d + t, |d| + |init|);
    assert (d + t)[..|d| + |init|] == d + init;
    LastKeyFresh(d + init, t[|t| - 1]);
  }

  /** Each entry of `t` has an unnumbered key that neither `d` nor the entries
      before it use. */
  predicate FreshTail(d: Dict, t: Dict, sep: char)
  {
    t == [] ||
    (FreshTail(d, t[..|t| - 1], sep) && !Matches(t[|t| - 1].0, sep) && t[|t| - 1].0 !in Keys(d + t[..|t| - 1]))
  }

  lemma {:induction false} DistinctFreshTail(d: Dict, t: Dict, sep: char)
    requires DistinctKeys(d + t)
    requires forall k :: 0 <= k < |t| ==> !Matches(t[k].0, sep)
    ensures FreshTail(d, t, sep)
  {
    if t != [] {
      DistinctInit(d, t);
      assert forall k :: 0 <= k < |t| - 1 ==> t[..|t| - 1][k] == t[k];
      DistinctFreshTail(d, t[..|t| - 1], sep);
    }
  }

  /** Numbered entries are collected, in order, and nothing else changes. */
  lemma {:induction false} CollectNumberedTail(c: Collected, t: Dict, sep: char)
    requires forall k :: 0 <= k < |t| ==> Matches(t[k].0, sep)
    ensures CollectFrom(c, t, sep) == Collected(c.converted, c.keys + Keys(t), c.values + ValuesOf(t))
  {
    if t != [] {
      var init := t[..|t| - 1];
      assert forall k :: 0 <= k < |init| ==> init[k] == t[k];
      CollectNumberedTail(c, init, sep);
      assert Keys(init) + [t[|t| - 1].0] == Keys(t);
      assert ValuesOf(init) + [t[|t| - 1].1] == ValuesOf(t);
    }
  }

  /** `list_to_keys` of such a dict puts the numbered keys where the list was. */
  lemma ExpandOneList(params: Dict, idx: nat)
    requires OneListAmongPlain(params, idx)
    ensures ListToKeysSpec(params, '_') ==
              params[..idx] + Expansion(params[idx].0, params[idx].1, '_') + params[idx + 1..]
  {
    assert params[..|params|] == params;
    ConcatOfOneList(params, idx, |params|);
    ExpandedKeysDistinct(params, idx);
    ListToKeysIsConcat(params, '_');
  }

  /** Numbered entries between unnumbered entries with distinct keys: the
      unnumbered ones are kept in order and the numbered ones collected. */
  lemma CollectAround(pre: Dict, e: Dict, post: Dict, sep: char)
    requires DistinctKeys(pre + post)
    requires forall k :: 0 <= k < |pre| ==> !Matches(pre[k].0, sep)
    requires forall k :: 0 <= k < |post| ==> !Matches(post[k].0, sep)
    requires forall k :: 0 <= k < |e| ==> Matches(e[k].0, sep)
    ensures Collect(pre + e + post, sep) == Collected(pre + post, Keys(e), ValuesOf(e))
  {
    assert [] + pre == pre;
    DistinctPrefix(pre + post, |pre|);
    assert (pre + post)[..|pre|] == pre;
    DistinctFreshTail([], pre, sep);
    CollectPlainTail(Collected([], [], []), pre, sep);
    CollectAppend([], pre, sep);
    CollectNumberedTail(Collect(pre, sep), e, sep);
    CollectAppend(pre, e, sep);
    DistinctFreshTail(pre, post, sep);
    CollectPlainTail(Collect(pre + e, sep), post, sep);
    CollectAppend(pre + e, post, sep);
  }

  /** Collecting the expanded dict gathers the list's values, in order, under
      keys whose stem is the list's key, and keeps the other entries. */
  lemma CollectOneList(params: Dict, idx: nat)
    requires OneListAmongPlain(params, idx)
    ensures var c := Collect(params[..idx] + Expansion(params[idx].0, params[idx].1, '_') + params[idx + 1..], '_');
      && c.converted == RemoveAt(params, idx) && c.values == params[idx].1.items
      && |c.keys| > 1 && Stem(c.keys[0], '_') == params[idx].0
  {
    var key := params[idx].0;
    var e := Expansion(key, params[idx].1, '_');
    var pre := params[..idx];
    var post := params[idx + 1..];
    ExpandedKeysDistinct(params, idx);
    assert DistinctKeys(RemoveAt(params, idx)) by {
      var rest := RemoveAt(params, idx);
      forall k | 0 <= k < |rest| ensures rest[k] == params[if k < idx then k else k + 1] { }
    }
    forall k | 0 <= k < |e| ensures Matches(e[k].0, '_') {
      GeneratedKeyMatches(key, k);
    }
    assert forall k :: 0 <= k < |pre| ==> pre[k] == params[k];
    assert forall k :: 0 <= k < |post| ==> post[k] == params[idx + 1 + k];
    CollectAround(pre, e, post, '_');
    var c := Collect(pre + e + post, '_');
    assert c.converted == pre + post;
    assert c.values == params[idx].1.items;
    GeneratedKeyMatches(key, 0);
    assert c.keys[0] == e[0].0;
  }

  /** `keys_to_list(list_to_keys(p)) == p` for a dict holding one list-valued
      key among plain keys, up to where the regrouped key lands: at the end. */
  lemma RoundTrip(params: Dict, idx: nat)
    requires OneListAmongPlain(params, idx)
    ensures KeysToListSpec(ListToKeysSpec(params, '_'), '_') == RemoveAt(params, idx) + [params[idx]]
  {
    ExpandOneList(params, idx);
    CollectOneList(params, idx);
    var rest := RemoveAt(params, idx);
    assert params[idx].0 !in Keys(rest) by {
      forall k | 0 <= k < |rest| ensures rest[k] == params[if k < idx then k else k + 1] { }
    }
    assert params[idx] == (params[idx].0, List(params[idx].1.items));
  }
}
