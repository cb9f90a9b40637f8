/** The earlier workflow revision (deconvtest2). Steps are wired by the same
    checks, but the graph has a single join strategy: every step with inputs
    takes the Cartesian product of its input blocks' items and its own.
    Steps named `Evaluation` add no block, each item is a chain of plain
    step records whose last `outputID` is the joined IDs with trailing `'_'`
    removed, and the graph is the last block as built. */
module LegacyWorkflows {
  import opened Wrappers
  import opened Values
  import opened Strings
  import opened Conversion
  import opened Combinations
  import opened Tables
  import opened Steps
  import W = Workflows

  /** One step to run: the dict `get_workflow_graph` builds per row. */
  datatype StepRec = StepRec(name: string, chosen: MethodRef, params: Dict, outputID: Value)

  datatype Item = Item(name: string, steps: seq<StepRec>)

  datatype Block = Block(name: string, items: seq<Item>)

  /** The step name whose steps contribute no block. */
  const EVALUATION := "Evaluation"

  /** Every item has at least one step. */
  predicate Chained(items: seq<Item>)
  {
    forall k :: 0 <= k < |items| ==> items[k].steps != []
  }

  function Last(it: Item): StepRec
    requires it.steps != []
  {
    it.steps[|it.steps| - 1]
  }

  predicate AllChained(lists: seq<seq<Item>>)
  {
    forall k :: 0 <= k < |lists| ==> Chained(lists[k])
  }

  predicate BlocksChained(blocks: seq<Block>)
  {
    forall b :: 0 <= b < |blocks| ==> Chained(blocks[b].items)
  }

  // ----- a step's own items -----

  /** The step record of parameter row i: the row regrouped by
      `keys_to_list`, with `ID` popped into `outputID`. */
  function RowStep(v: W.StepView, i: nat): (r: Result<StepRec>)
    requires Rectangular(v.parameters) && i < |v.parameters.rows|
  {
    var popped :- Pop(KeysToListSpec(RowDict(v.parameters, i), '_'), "ID");
    Ok(StepRec(v.name, v.chosen, popped.1, popped.0))
  }

  /** The row's record fails exactly when the regrouped row has no `ID`;
      otherwise it carries the step's name and method and the `ID`, of
      whatever type, as `outputID`. */
  lemma RowStepSpec(v: W.StepView, i: nat)
    requires Rectangular(v.parameters) && i < |v.parameters.rows|
    ensures var params := KeysToListSpec(RowDict(v.parameters, i), '_');
      var r := RowStep(v, i);
      && (r.Err? <==> "ID" !in Keys(params))
      && (r.Err? ==> r.error == Error(KeyError, MissingKey("ID")))
      && (r.Ok? ==> && r.value.name == v.name && r.value.chosen == v.chosen
                    && Get(params, "ID") == Some(r.value.outputID)
                    && |r.value.params| == |params| - 1)
  {
  }

  /** The item of row i: named `item%02d`, holding that row's record alone. */
  function RowItem(i: nat, s: StepRec): Item
  {
    Item(Label("item", i, 2), [s])
  }

  /** The items of the first rows, appended one by one; the first failing
      row stops the loop. */
  function RowItems(rows: seq<Result<StepRec>>): (r: Result<seq<Item>>)
    ensures r.Ok? ==> |r.value| == |rows| && Chained(r.value)
  {
    if rows == [] then Ok([])
    else
      var init :- RowItems(rows[..|rows| - 1]);
      var s :- rows[|rows| - 1];
      Ok(init + [RowItem(|rows| - 1, s)])
  }

  function RowSteps(v: W.StepView): (rs: seq<Result<StepRec>>)
    requires Rectangular(v.parameters)
    ensures |rs| == |v.parameters.rows|
    ensures forall i :: 0 <= i < |rs| ==> rs[i] == RowStep(v, i)
  {
    seq(|v.parameters.rows|, i requires 0 <= i < |v.parameters.rows| => RowStep(v, i))
  }

  /** The record of a step whose table has no rows: no parameters and an
      empty `outputID`. */
  function EmptyTableStep(v: W.StepView): StepRec
  {
    StepRec(v.name, v.chosen, [], Str(""))
  }

  /** The step's own items: one per row, or one for an empty table. */
  function OwnItems(v: W.StepView): (r: Result<seq<Item>>)
    requires Rectangular(v.parameters)
    ensures r.Ok? ==> r.value != [] && Chained(r.value)
    ensures r.Ok? ==> |r.value| == if |v.parameters.rows| == 0 then 1 else |v.parameters.rows|
  {
    if |v.parameters.rows| == 0 then Ok([RowItem(0, EmptyTableStep(v))])
    else RowItems(RowSteps(v))
  }

  /** The items fail exactly when some row does. */
  lemma RowItemsFail(rows: seq<Result<StepRec>>)
    ensures RowItems(rows).Ok? <==> forall i :: 0 <= i < |rows| ==> rows[i].Ok?
  {
    if RowItems(rows).Ok? {
      forall i | 0 <= i < |rows| ensures rows[i].Ok? {
        RowItemsClosedForm(rows, i);
      }
    } else if forall i :: 0 <= i < |rows| ==> rows[i].Ok? {
      RowItemsAllOk(rows);
    }
  }

  lemma {:induction false} RowItemsAllOk(rows: seq<Result<StepRec>>)
    requires forall i :: 0 <= i < |rows| ==> rows[i].Ok?
    ensures RowItems(rows).Ok?
  {
    if rows != [] {
      var init := rows[..|rows| - 1];
      forall i | 0 <= i < |init| ensures init[i].Ok? {
        assert init[i] == rows[i];
      }
      RowItemsAllOk(init);
    }
  }

  /** Item i holds row i's record alone and is named `item%02d`. */
  lemma {:induction false} RowItemsClosedForm(rows: seq<Result<StepRec>>, i: nat)
    requires i < |rows| && RowItems(rows).Ok?
    ensures rows[i].Ok? && RowItems(rows).value[i] == RowItem(i, rows[i].value)
  {
    var init := rows[..|rows| - 1];
    var r := RowItems(rows).value;
    assert RowItems(init).Ok? && rows[|rows| - 1].Ok?;
    assert r == RowItems(init).value + [RowItem(|rows| - 1, rows[|rows| - 1].value)];
    if i < |rows| - 1 {
      RowItemsClosedForm(init, i);
      assert r[i] == RowItems(init).value[i] && init[i] == rows[i];
    }
  }

  lemma {:induction false} RowItemsStop(rows: seq<Result<StepRec>>, i: nat)
    requires i < |rows| && RowItems(rows[..i]).Ok? && rows[i].Err?
    ensures RowItems(rows) == Err(rows[i].error)
  {
    if |rows| > i + 1 {
      assert rows[..|rows| - 1][..i] == rows[..i];
      RowItemsStop(rows[..|rows| - 1], i);
    } else {
      assert rows[..|rows| - 1] == rows[..i];
    }
  }

  lemma RowItemsStep(rows: seq<Result<StepRec>>, i: nat, items: seq<Item>, s: StepRec)
    requires i < |rows| && RowItems(rows[..i]) == Ok(items) && rows[i] == Ok(s)
    ensures RowItems(rows[..i + 1]) == Ok(items + [RowItem(i, s)])
  {
    assert rows[..i + 1][..i] == rows[..i];
  }

  /** An empty table gives the single item `item00` with `outputID` `''`. */
  lemma NoRowsOneItem(v: W.StepView)
    requires Rectangular(v.parameters) && |v.parameters.rows| == 0
    ensures OwnItems(v).Ok? && |OwnItems(v).value| == 1
    ensures OwnItems(v).value[0].name == "item00"
    ensures OwnItems(v).value[0].steps == [EmptyTableStep(v)]
    ensures EmptyTableStep(v).outputID == Str("") && EmptyTableStep(v).params == []
  {
    assert ZFill(NatToString(0), 2) == "00";
  }

  /** The loop over the parameter rows, then the empty-table case. */
  method AddOwnItems(v: W.StepView) returns (r: Result<seq<Item>>)
    requires Rectangular(v.parameters)
    ensures r == OwnItems(v)
  {
    var n := |v.parameters.rows|;
    ghost var rows := RowSteps(v);
    var items: seq<Item> := [];
    var i := 0;
    while i < n
      invariant 0 <= i <= n
      invariant RowItems(rows[..i]) == Ok(items)
    {
      var s := RowStep(v, i);
      if s.Err? {
        RowItemsStop(rows, i);
        return Err(s.error);
      }
      RowItemsStep(rows, i, items, s.value);
      items := items + [RowItem(i, s.value)];
      i := i + 1;
    }
    if n == 0 {
      items := [RowItem(0, EmptyTableStep(v))];
    } else {
      assert rows[..n] == rows;
    }
    r := Ok(items);
  }

  // ----- the items of the input blocks -----

  /** `blocks[input_step]['items']` for each entry, in order. */
  function InputItems(inputStep: seq<int>, blocks: seq<Block>): (r: Result<seq<seq<Item>>>)
    ensures r.Ok? ==> |r.value| == |inputStep|
  {
    if inputStep == [] then Ok([])
    else
      var init :- InputItems(inputStep[..|inputStep| - 1], blocks);
      var b :- W.PyIndex(blocks, inputStep[|inputStep| - 1]);
      Ok(init + [b.items])
  }

  /** The lookup fails exactly at an index outside the blocks; otherwise
      entry k is the items of the block that index names. */
  lemma {:induction false} InputItemsSpec(inputStep: seq<int>, blocks: seq<Block>)
    ensures InputItems(inputStep, blocks).Ok? <==>
              forall k :: 0 <= k < |inputStep| ==> -|blocks| <= inputStep[k] < |blocks|
    ensures InputItems(inputStep, blocks).Ok? ==>
              forall k :: 0 <= k < |inputStep| ==>
                InputItems(inputStep, blocks).value[k] == W.PyIndex(blocks, inputStep[k]).value.items
  {
    if inputStep != [] {
      var init := inputStep[..|inputStep| - 1];
      InputItemsSpec(init, blocks);
      assert forall k :: 0 <= k < |init| ==> init[k] == inputStep[k];
    }
  }

  lemma {:induction false} InputItemsStop(inputStep: seq<int>, blocks: seq<Block>, i: nat)
    requires i < |inputStep| && InputItems(inputStep[..i], blocks).Ok?
    requires W.PyIndex(blocks, inputStep[i]).Err?
    ensures InputItems(inputStep, blocks) == Err(W.PyIndex(blocks, inputStep[i]).error)
  {
    if |inputStep| > i + 1 {
      assert inputStep[..|inputStep| - 1][..i] == inputStep[..i];
      InputItemsStop(inputStep[..|inputStep| - 1], blocks, i);
    } else {
      assert inputStep[..|inputStep| - 1] == inputStep[..i];
    }
  }

  /** The loop collecting the input blocks' items. */
  method InputLists(inputStep: seq<int>, blocks: seq<Block>) returns (r: Result<seq<seq<Item>>>)
    ensures r == InputItems(inputStep, blocks)
  {
    var lists: seq<seq<Item>> := [];
    var i := 0;
    while i < |inputStep|
      invariant 0 <= i <= |inputStep|
      invariant InputItems(inputStep[..i], blocks) == Ok(lists)
    {
      var b := W.PyIndex(blocks, inputStep[i]);
      if b.Err? {
        InputItemsStop(inputStep, blocks, i);
        return Err(b.error);
      }
      assert inputStep[..i + 1][..i] == inputStep[..i];
      lists := lists + [b.value.items];
      i := i + 1;
    }
    assert inputStep[..i] == inputStep;
    r := Ok(lists);
  }

  lemma InputsChained(inputStep: seq<int>, blocks: seq<Block>)
    requires BlocksChained(blocks) && InputItems(inputStep, blocks).Ok?
    ensures AllChained(InputItems(inputStep, blocks).value)
  {
    InputItemsSpec(inputStep, blocks);
  }

  /** Every combination of chained lists is chained and takes one item from
      each list. */
  lemma ProductChained(lists: seq<seq<Item>>)
    requires AllChained(lists)
    ensures forall m :: 0 <= m < |Product(lists)| ==> Chained(Product(lists)[m]) && |Product(lists)[m]| == |lists|
  {
    forall m | 0 <= m < |Product(lists)| ensures Chained(Product(lists)[m]) {
      ProductMembers(lists, m);
    }
  }

  // ----- the join -----

  /** The in-order concatenation of the items' chains. */
  function Chain(items: seq<Item>): (r: seq<StepRec>)
    ensures Chained(items) ==> |r| >= |items|
  {
    if items == [] then [] else Chain(items[..|items| - 1]) + items[|items| - 1].steps
  }

  /** Every contributor's last `outputID` is a string. */
  predicate StrIds(items: seq<Item>)
    requires Chained(items)
  {
    forall k :: 0 <= k < |items| ==> Last(items[k]).outputID.Str?
  }

  /** The contributors' last `outputID`s. */
  function IdStrings(items: seq<Item>): (ids: seq<string>)
    requires Chained(items) && StrIds(items)
    ensures |ids| == |items| && forall k :: 0 <= k < |items| ==> Str(ids[k]) == Last(items[k]).outputID
  {
    seq(|items|, k requires 0 <= k < |items| => Last(items[k]).outputID.s)
  }

  /** `outputID` as the loop accumulates it; adding a string to a value that
      is not one is a `TypeError`. */
  function Accumulated(items: seq<Item>): (r: Result<string>)
    requires Chained(items)
  {
    if items == [] then Ok("")
    else
      var acc :- Accumulated(items[..|items| - 1]);
      var id := Last(items[|items| - 1]).outputID;
      if id.Str? then Ok(acc + id.s + "_") else Err(Error(TypeError, InvalidType("outputID")))
  }

  /** The accumulation succeeds exactly when every last `outputID` is a
      string, and is then the `'_'`-join of them with one more `'_'`. */
  lemma {:induction false} AccumulatedSpec(items: seq<Item>)
    requires Chained(items)
    ensures Accumulated(items).Ok? <==> StrIds(items)
    ensures Accumulated(items).Ok? && items != [] ==> Accumulated(items).value == Join("_", IdStrings(items)) + "_"
  {
    if items != [] {
      var init := items[..|items| - 1];
      AccumulatedSpec(init);
      AccumulatedStep(items);
    }
  }

  /** The last contributor extends the ids of the others. */
  lemma AccumulatedStep(items: seq<Item>)
    requires Chained(items) && items != []
    ensures Chained(items[..|items| - 1])
    ensures StrIds(items) <==> StrIds(items[..|items| - 1]) && Last(items[|items| - 1]).outputID.Str?
    ensures StrIds(items) && |items| > 1 ==>
              IdStrings(items) == IdStrings(items[..|items| - 1]) + [Last(items[|items| - 1]).outputID.s]
  {
    var init := items[..|items| - 1];
    assert forall k :: 0 <= k < |init| ==> init[k] == items[k];
    if StrIds(items) && |items| > 1 {
      assert IdStrings(items)[..|init|] == IdStrings(init);
    }
  }


  lemma {:induction false} AccumulatedStop(items: seq<Item>, k: nat)
    requires Chained(items) && k < |items| && Accumulated(items[..k]).Ok?
    requires !Last(items[k]).outputID.Str?
    ensures Accumulated(items) == Err(Error(TypeError, InvalidType("outputID")))
  {
    if |items| > k + 1 {
      assert items[..|items| - 1][..k] == items[..k] && items[..|items| - 1][k] == items[k];
      AccumulatedStop(items[..|items| - 1], k);
    } else {
      assert items[..|items| - 1] == items[..k];
    }
  }

  /** The last step of the chain gets the combined `outputID`. */
  function Relabel(chain: seq<StepRec>, outputID: string): (r: seq<StepRec>)
    requires chain != []
    ensures |r| == |chain| && r[..|r| - 1] == chain[..|chain| - 1]
    ensures r[|r| - 1] == chain[|chain| - 1].(outputID := Str(outputID))
  {
    chain[..|chain| - 1] + [chain[|chain| - 1].(outputID := Str(outputID))]
  }

  /** Combination i, as `item%03d`. */
  function JoinedItem(i: nat, combo: seq<Item>): (r: Result<Item>)
    requires Chained(combo) && combo != []
    ensures r.Ok? ==> r.value.steps != []
  {
    var acc :- Accumulated(combo);
    Ok(Item(Label("item", i, 3), Relabel(Chain(combo), RStrip(acc, '_'))))
  }

  /** A combined item is the in-order concatenation of its contributors'
      chains, whose last `outputID` is the `'_'`-join of their last
      `outputID`s with trailing `'_'` removed; it fails exactly when one of
      those is not a string. */
  lemma JoinedItemSpec(i: nat, combo: seq<Item>)
    requires Chained(combo) && combo != []
    ensures JoinedItem(i, combo).Ok? <==> StrIds(combo)
    ensures JoinedItem(i, combo).Ok? ==>
              var st := JoinedItem(i, combo).value.steps;
              && JoinedItem(i, combo).value.name == Label("item", i, 3)
              && |st| == |Chain(combo)| && st[..|st| - 1] == Chain(combo)[..|st| - 1]
              && st[|st| - 1] == Chain(combo)[|st| - 1].(outputID := Str(RStrip(Join("_", IdStrings(combo)), '_')))
  {
    AccumulatedSpec(combo);
    if StrIds(combo) {
      W.RStripTrailing(Join("_", IdStrings(combo)));
    }
  }

  /** Where item k's chain starts in the concatenation. */
  function Offset(items: seq<Item>, k: nat): nat
    requires k <= |items|
  {
    |Chain(items[..k])|
  }

  /** Each contributor's chain appears whole, in order, in the concatenation. */
  lemma {:induction false} ChainHolds(items: seq<Item>, k: nat)
    requires k < |items|
    ensures Offset(items, k) + |items[k].steps| <= |Chain(items)|
    ensures Chain(items)[Offset(items, k)..Offset(items, k) + |items[k].steps|] == items[k].steps
  {
    var init := items[..|items| - 1];
    if k < |items| - 1 {
      ChainHolds(init, k);
      assert init[..k] == items[..k] && init[k] == items[k];
    } else {
      assert items[..k] == init;
    }
  }

  /** The items of the first combinations; the first failing one stops the
      loop. */
  function JoinedItems(combos: seq<seq<Item>>): (r: Result<seq<Item>>)
    requires forall m :: 0 <= m < |combos| ==> Chained(combos[m]) && combos[m] != []
    ensures r.Ok? ==> |r.value| == |combos| && Chained(r.value)
  {
    if combos == [] then Ok([])
    else
      var init :- JoinedItems(combos[..|combos| - 1]);
      var item :- JoinedItem(|combos| - 1, combos[|combos| - 1]);
      Ok(init + [item])
  }

  /** Item i is combination i, joined. */
  lemma {:induction false} JoinedItemsClosedForm(combos: seq<seq<Item>>, i: nat)
    requires forall m :: 0 <= m < |combos| ==> Chained(combos[m]) && combos[m] != []
    requires i < |combos| && JoinedItems(combos).Ok?
    ensures JoinedItem(i, combos[i]).Ok? && JoinedItems(combos).value[i] == JoinedItem(i, combos[i]).value
  {
    var init := combos[..|combos| - 1];
    var r := JoinedItems(combos).value;
    assert r == JoinedItems(init).value + [JoinedItem(|combos| - 1, combos[|combos| - 1]).value];
    if i < |combos| - 1 {
      JoinedItemsClosedForm(init, i);
      assert r[i] == JoinedItems(init).value[i] && init[i] == combos[i];
    }
  }

  lemma {:induction false} JoinedItemsStop(combos: seq<seq<Item>>, i: nat)
    requires forall m :: 0 <= m < |combos| ==> Chained(combos[m]) && combos[m] != []
    requires i < |combos| && JoinedItems(combos[..i]).Ok? && JoinedItem(i, combos[i]).Err?
    ensures JoinedItems(combos) == Err(JoinedItem(i, combos[i]).error)
  {
    if |combos| > i + 1 {
      assert combos[..|combos| - 1][..i] == combos[..i] && combos[..|combos| - 1][i] == combos[i];
      JoinedItemsStop(combos[..|combos| - 1], i);
    } else {
      assert combos[..|combos| - 1] == combos[..i];
    }
  }

  lemma JoinedItemsStep(combos: seq<seq<Item>>, i: nat)
    requires forall m :: 0 <= m < |combos| ==> Chained(combos[m]) && combos[m] != []
    requires i < |combos| && JoinedItems(combos[..i]).Ok? && JoinedItem(i, combos[i]).Ok?
    ensures JoinedItems(combos[..i + 1]) == Ok(JoinedItems(combos[..i]).value + [JoinedItem(i, combos[i]).value])
  {
    assert combos[..i + 1][..i] == combos[..i] && combos[..i + 1][i] == combos[i];
  }

  /** The join: every combination of one item per input block and one of
      the step's own items, in `itertools.product` order. The own list is
      never empty, so it always takes part. */
  function PermuteJoin(inputStep: seq<int>, own: seq<Item>, blocks: seq<Block>): (r: Result<Block>)
    requires own != [] && Chained(own) && BlocksChained(blocks)
    ensures r.Ok? ==> Chained(r.value.items)
  {
    var inputs :- InputItems(inputStep, blocks);
    InputsChained(inputStep, blocks);
    var lists := inputs + [own];
    ProductChained(lists);
    var items :- JoinedItems(Product(lists));
    Ok(Block(Label("updated_block", |blocks|, 2), items))
  }

  /** A successful join has one item per combination: the product of the
      input block sizes times the number of the step's own items. */
  lemma PermuteCount(inputStep: seq<int>, own: seq<Item>, blocks: seq<Block>)
    requires own != [] && Chained(own) && BlocksChained(blocks)
    requires PermuteJoin(inputStep, own, blocks).Ok?
    ensures InputItems(inputStep, blocks).Ok?
    ensures |PermuteJoin(inputStep, own, blocks).value.items| == CountProduct(InputItems(inputStep, blocks).value) * |own|
  {
    var inputs := InputItems(inputStep, blocks).value;
    assert (inputs + [own])[..|inputs|] == inputs;
  }

  /** A successful join's items are the combinations joined, in
      `itertools.product` order; each takes one item from each list. */
  lemma PermuteJoinItems(inputStep: seq<int>, own: seq<Item>, blocks: seq<Block>)
    requires own != [] && Chained(own) && BlocksChained(blocks)
    requires PermuteJoin(inputStep, own, blocks).Ok?
    ensures InputItems(inputStep, blocks).Ok?
    ensures var lists := InputItems(inputStep, blocks).value + [own];
      && AllChained(lists)
      && (forall m :: 0 <= m < |Product(lists)| ==> Chained(Product(lists)[m]) && |Product(lists)[m]| == |lists|)
      && JoinedItems(Product(lists)) == Ok(PermuteJoin(inputStep, own, blocks).value.items)
  {
    var lists := InputItems(inputStep, blocks).value + [own];
    InputsChained(inputStep, blocks);
    ProductChained(lists);
  }

  /** The loop over one combination's items: copy their chains, accumulate
      the IDs, then write the combined `outputID` into the last step. */
  method CombineItems(i: nat, combo: seq<Item>) returns (r: Result<Item>)
    requires Chained(combo) && combo != []
    ensures r == JoinedItem(i, combo)
  {
    var steps: seq<StepRec> := [];
    var outputID := "";
    var k := 0;
    while k < |combo|
      invariant 0 <= k <= |combo|
      invariant steps == Chain(combo[..k])
      invariant Accumulated(combo[..k]) == Ok(outputID)
    {
      assert combo[..k + 1][..k] == combo[..k] && combo[..k + 1][k] == combo[k];
      var id := Last(combo[k]).outputID;
      if !id.Str? {
        AccumulatedStop(combo, k);
        return Err(Error(TypeError, InvalidType("outputID")));
      }
      steps := steps + combo[k].steps;
      outputID := outputID + id.s + "_";
      k := k + 1;
    }
    assert combo[..k] == combo;
    r := Ok(Item(Label("item", i, 3), Relabel(steps, RStrip(outputID, '_'))));
  }

  /** The loop over the combinations, numbering them. */
  method CombineAll(combos: seq<seq<Item>>) returns (r: Result<seq<Item>>)
    requires forall m :: 0 <= m < |combos| ==> Chained(combos[m]) && combos[m] != []
    ensures r == JoinedItems(combos)
  {
    var items: seq<Item> := [];
    var i := 0;
    while i < |combos|
      invariant 0 <= i <= |combos|
      invariant JoinedItems(combos[..i]) == Ok(items)
    {
      var item := CombineItems(i, combos[i]);
      if item.Err? {
        JoinedItemsStop(combos, i);
        return Err(item.error);
      }
      JoinedItemsStep(combos, i);
      items := items + [item.value];
      i := i + 1;
    }
    assert combos[..i] == combos;
    r := Ok(items);
  }

  method PermuteItems(inputStep: seq<int>, own: seq<Item>, blocks: seq<Block>) returns (r: Result<Block>)
    requires own != [] && Chained(own) && BlocksChained(blocks)
    ensures r == PermuteJoin(inputStep, own, blocks)
  {
    var inputs :- InputLists(inputStep, blocks);
    InputsChained(inputStep, blocks);
    var lists := inputs + [own];
    ProductChained(lists);
    var items :- CombineAll(Product(lists));
    r := Ok(Block(Label("updated_block", |blocks|, 2), items));
  }

  // ----- get_workflow_graph -----

  /** The block of a step that is not an evaluation. */
  function StepBlock(v: W.StepView, blocks: seq<Block>): (r: Result<Block>)
    requires W.Wired(v) && BlocksChained(blocks)
    ensures r.Ok? ==> Chained(r.value.items)
  {
    var own :- OwnItems(v);
    if v.flags.nInputs > 0 then PermuteJoin(v.inputStep.value, own, blocks)
    else Ok(Block(Label("block", |blocks|, 2), own))
  }

  /** The number of steps that are not evaluations. */
  function Counted(views: seq<W.StepView>): (n: nat)
    ensures n <= |views|
  {
    if views == [] then 0
    else Counted(views[..|views| - 1]) + if views[|views| - 1].name == EVALUATION then 0 else 1
  }

  /** One block per step that is not an evaluation, in step order. */
  function BuildBlocks(views: seq<W.StepView>): (r: Result<seq<Block>>)
    requires W.AllWired(views)
    ensures r.Ok? ==> |r.value| == Counted(views) && BlocksChained(r.value)
  {
    if views == [] then Ok([])
    else
      var blocks :- BuildBlocks(views[..|views| - 1]);
      var v := views[|views| - 1];
      if v.name == EVALUATION then Ok(blocks)
      else
        var b :- StepBlock(v, blocks);
        Ok(blocks + [b])
  }

  /** The graph: the last block built. */
  function Graph(views: seq<W.StepView>): (r: Result<Block>)
    requires W.AllWired(views)
  {
    var blocks :- BuildBlocks(views);
    W.PyIndex(blocks, -1)
  }

  /** An evaluation step leaves the blocks as they were. */
  lemma EvaluationAddsNoBlock(views: seq<W.StepView>, v: W.StepView)
    requires W.AllWired(views) && W.Wired(v) && v.name == EVALUATION
    ensures W.AllWired(views + [v]) && BuildBlocks(views + [v]) == BuildBlocks(views)
  {
    assert (views + [v])[..|views|] == views;
  }

  /** Any other step adds exactly its own block, built from the blocks
      before it. */
  lemma OtherStepAddsBlock(views: seq<W.StepView>, v: W.StepView)
    requires W.AllWired(views) && W.Wired(v) && v.name != EVALUATION && BuildBlocks(views).Ok?
    ensures W.AllWired(views + [v])
    ensures BuildBlocks(views + [v]) ==
              match StepBlock(v, BuildBlocks(views).value)
              case Ok(b) => Ok(BuildBlocks(views).value + [b])
              case Err(e) => Err(e)
  {
    assert (views + [v])[..|views|] == views;
  }

  /** The graph is the last block when one was built, and an `IndexError`
      when every step is an evaluation or there are none. */
  lemma GraphIsLastBlock(views: seq<W.StepView>)
    requires W.AllWired(views) && BuildBlocks(views).Ok?
    ensures Counted(views) == 0 ==> Graph(views) == Err(Error(IndexError, ListIndexOutOfRange(-1, 0)))
    ensures Counted(views) > 0 ==> Graph(views) == Ok(BuildBlocks(views).value[Counted(views) - 1])
  {
  }

  lemma {:induction false} BuildBlocksStop(views: seq<W.StepView>, k: nat)
    requires W.AllWired(views) && k < |views| && views[k].name != EVALUATION
    requires BuildBlocks(views[..k]).Ok?
    requires StepBlock(views[k], BuildBlocks(views[..k]).value).Err?
    ensures BuildBlocks(views) == Err(StepBlock(views[k], BuildBlocks(views[..k]).value).error)
  {
    if |views| > k + 1 {
      assert views[..|views| - 1][..k] == views[..k] && views[..|views| - 1][k] == views[k];
      BuildBlocksStop(views[..|views| - 1], k);
    } else {
      assert views[..|views| - 1] == views[..k];
    }
  }

  /** The blocks of one more step, given those of the steps before it. */
  lemma BuildBlocksNext(views: seq<W.StepView>, k: nat, blocks: seq<Block>)
    requires W.AllWired(views) && k < |views|
    requires BuildBlocks(views[..k]) == Ok(blocks)
    ensures W.AllWired(views[..k + 1]) && W.Wired(views[k]) && BlocksChained(blocks)
    ensures views[k].name == EVALUATION ==> BuildBlocks(views[..k + 1]) == Ok(blocks)
    ensures views[k].name != EVALUATION && StepBlock(views[k], blocks).Ok? ==>
              BuildBlocks(views[..k + 1]) == Ok(blocks + [StepBlock(views[k], blocks).value])
  {
    assert views[..k + 1][..k] == views[..k];
  }

  /** One iteration of the loop over the steps. */
  method BuildBlock(v: W.StepView, blocks: seq<Block>) returns (r: Result<Block>)
    requires W.Wired(v) && BlocksChained(blocks)
    ensures r == StepBlock(v, blocks)
  {
    var own :- AddOwnItems(v);
    if v.flags.nInputs > 0 {
      r := PermuteItems(v.inputStep.value, own, blocks);
    } else {
      r := Ok(Block(Label("block", |blocks|, 2), own));
    }
  }

  /** The loop over the steps, skipping evaluations. */
  method BuildAll(views: seq<W.StepView>) returns (r: Result<seq<Block>>)
    requires W.AllWired(views)
    ensures r == BuildBlocks(views)
  {
    var blocks: seq<Block> := [];
    var k := 0;
    while k < |views|
      invariant 0 <= k <= |views|
      invariant W.AllWired(views[..k]) && BuildBlocks(views[..k]) == Ok(blocks)
    {
      BuildBlocksNext(views, k, blocks);
      if views[k].name != EVALUATION {
        var b := BuildBlock(views[k], blocks);
        if b.Err? {
          BuildBlocksStop(views, k);
          return Err(b.error);
        }
        blocks := blocks + [b.value];
      }
      k := k + 1;
    }
    assert views[..k] == views;
    r := Ok(blocks);
  }

  // ----- the workflow object -----

  class Workflow {
    var steps: seq<Step>
    var graph: Option<Block>    // `self.workflow`

    /** Every step was wired by `add_step`. */
    predicate Valid()
      reads this, steps
    {
      W.AllReady(steps)
    }

    constructor()
      ensures Valid() && steps == [] && graph.None?
    {
      steps := [];
      graph := None;
    }

    /** `add_step`: the same checks as the later revision, then the step is
        wired and appended. */
    method AddStep(step: Step, inputStep: Option<seq<int>>) returns (r: Outcome)
      requires Valid() && step.Valid()
      modifies this, step
      ensures Valid() && graph == old(graph) && step.parameters == old(step.parameters)
      ensures var resolved := W.ResolveInputs(step.name, step.chosen, step.flags.nInputs, |old(steps)|, inputStep);
        && (resolved.Err? ==> r == Fail(resolved.error) && steps == old(steps) && step.inputStep == old(step.inputStep))
        && (resolved.Ok? ==> r == Pass && steps == old(steps) + [step] && step.inputStep == Some(resolved.value))
    {
      var resolved := W.CheckInputs(step, |steps|, inputStep);
      if resolved.Err? {
        return Fail(resolved.error);
      }
      W.Wire(steps, step, resolved.value);
      steps := steps + [step];
      r := Pass;
    }

    /** `get_workflow_graph`: the last block, kept in `graph` when it can be
        built. */
    method GetWorkflowGraph() returns (r: Result<Block>)
      requires Valid()
      modifies this
      ensures steps == old(steps) && Valid()
      ensures W.AllWired(W.Views(steps)) && r == Graph(W.Views(steps))
      ensures r.Ok? ==> graph == Some(r.value)
      ensures r.Err? ==> graph == old(graph)
    {
      var views := W.Views(steps);
      assert W.AllWired(views);
      var blocks :- BuildAll(views);
      r := W.PyIndex(blocks, -1);
      if r.Ok? {
        graph := Some(r.value);
      }
    }
  }
}
