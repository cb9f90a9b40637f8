/** The workflow: an ordered list of steps, each wired to earlier steps, and
    the graph built from them. Every step contributes one block of items; an
    item is a chain of module records to run in order. A step without
    inputs contributes its own items. A step with inputs joins the items of
    its input blocks with its own, either by the Cartesian product (permute
    join) or by pairing items whose first modules agree (align join). The
    graph is the last block, with a module id added to every module and
    repeated modules removed from each chain. */
module Workflows {
  import opened Wrappers
  import opened Values
  import opened Strings
  import opened Conversion
  import opened Combinations
  import opened Tables
  import opened Steps

  /** One module to run: the dict `__add_items_to_block` builds. */
  datatype ModuleRec = ModuleRec(name: string, chosen: MethodRef, params: Dict, outputID: string,
                                 typeOutput: string, typeInput: Value,
                                 inputIDs: Option<seq<string>>, moduleId: Option<string>)

  datatype Item = Item(name: string, modules: seq<ModuleRec>)

  datatype Block = Block(name: string, items: seq<Item>)

  /** What the graph reads from a step. */
  datatype StepView = StepView(name: string, flags: ModuleFlags, chosen: MethodRef,
                               parameters: Table, inputStep: Option<seq<int>>)

  /** A step as `add_step` leaves it: a rectangular table and exactly
      `n_inputs` input references. */
  predicate Wired(v: StepView)
  {
    Rectangular(v.parameters) && v.inputStep.Some? && |v.inputStep.value| == v.flags.nInputs
  }

  /** Every item has at least one module. */
  predicate Chained(items: seq<Item>)
  {
    forall k :: 0 <= k < |items| ==> items[k].modules != []
  }

  function First(it: Item): ModuleRec
    requires it.modules != []
  {
    it.modules[0]
  }

  function Last(it: Item): ModuleRec
    requires it.modules != []
  {
    it.modules[|it.modules| - 1]
  }

  /** `xs[i]` with Python's negative indexing. */
  function PyIndex<T>(xs: seq<T>, i: int): (r: Result<T>)
    ensures r.Ok? <==> -|xs| <= i < |xs|
    ensures r.Ok? ==> r.value == xs[if i < 0 then |xs| + i else i]
    ensures r.Err? ==> r.error == Error(IndexError, ListIndexOutOfRange(i, |xs|))
  {
    if -|xs| <= i < 0 then Ok(xs[|xs| + i])
    else if 0 <= i < |xs| then Ok(xs[i])
    else Err(Error(IndexError, ListIndexOutOfRange(i, |xs|)))
  }

  // ----- __add_items_to_block -----

  /** The module for parameter row i: the row as a dict, regrouped by
      `keys_to_list`, with `ID` popped into `outputID` (or dropped when the
      step does not add IDs). */
  function RowModule(v: StepView, i: nat): (r: Result<ModuleRec>)
    requires Rectangular(v.parameters) && i < |v.parameters.rows|
  {
    var popped :- Pop(KeysToListSpec(RowDict(v.parameters, i), '_'), "ID");
    var id := popped.0;
    if !v.flags.addId then
      Ok(ModuleRec(v.name, v.chosen, popped.1, "", v.flags.typeOutput, v.flags.typeInput, None, None))
    else if id.Str? then
      Ok(ModuleRec(v.name, v.chosen, popped.1, id.s, v.flags.typeOutput, v.flags.typeInput, None, None))
    else
      Err(Error(TypeError, InvalidType("ID")))
  }

  /** The row's module fails exactly when the regrouped row has no `ID`, or
      its `ID` is not a string while the step adds IDs; otherwise it carries
      the step's name, method and types and the `ID` as `outputID`. */
  lemma RowModuleSpec(v: StepView, i: nat)
    requires Rectangular(v.parameters) && i < |v.parameters.rows|
    ensures var params := KeysToListSpec(RowDict(v.parameters, i), '_');
      var r := RowModule(v, i);
      && (r.Err? <==> "ID" !in Keys(params) || (v.flags.addId && !Get(params, "ID").value.Str?))
      && (r.Ok? ==> var m := r.value;
           && m.name == v.name && m.chosen == v.chosen
           && m.outputID == (if v.flags.addId then Get(params, "ID").value.s else "")
           && m.typeOutput == v.flags.typeOutput && m.typeInput == v.flags.typeInput
           && m.inputIDs.None? && m.moduleId.None?
           && |m.params| == |params| - 1)
  {
  }

  /** The item of row i: named `item%02d`, holding that row's module alone. */
  function RowItem(i: nat, m: ModuleRec): Item
  {
    Item(Label("item", i, 2), [m])
  }

  /** The items built from the first rows' modules, appended one by one;
      the first failing module stops the loop. */
  function RowItems(mods: seq<Result<ModuleRec>>): (r: Result<seq<Item>>)
    ensures r.Ok? ==> |r.value| == |mods| && Chained(r.value)
  {
    if mods == [] then Ok([])
    else
      var init :- RowItems(mods[..|mods| - 1]);
      var m :- mods[|mods| - 1];
      Ok(init + [RowItem(|mods| - 1, m)])
  }

  /** The modules of all rows of the table. */
  function RowModules(v: StepView): (mods: seq<Result<ModuleRec>>)
    requires Rectangular(v.parameters)
    ensures |mods| == |v.parameters.rows|
    ensures forall i :: 0 <= i < |mods| ==> mods[i] == RowModule(v, i)
  {
    seq(|v.parameters.rows|, i requires 0 <= i < |v.parameters.rows| => RowModule(v, i))
  }

  /** The module of a step whose table has no rows. */
  function NoRowModule(v: StepView): ModuleRec
  {
    ModuleRec(v.name, v.chosen, [], if v.flags.addId then v.name + "0000" else "",
              v.flags.typeOutput, v.flags.typeInput, None, None)
  }

  /** The step's own items: one per row, or a single item for an empty table. */
  function OwnItems(v: StepView): (r: Result<seq<Item>>)
    requires Rectangular(v.parameters)
    ensures r.Ok? ==> r.value != [] && Chained(r.value)
    ensures r.Ok? ==> |r.value| == if |v.parameters.rows| == 0 then 1 else |v.parameters.rows|
  {
    if |v.parameters.rows| == 0 then Ok([RowItem(0, NoRowModule(v))])
    else RowItems(RowModules(v))
  }

  /** The items fail exactly when some module does. */
  lemma RowItemsFail(mods: seq<Result<ModuleRec>>)
    ensures RowItems(mods).Ok? <==> forall i :: 0 <= i < |mods| ==> mods[i].Ok?
  {
    if RowItems(mods).Ok? {
      forall i | 0 <= i < |mods| ensures mods[i].Ok? {
        RowItemsClosedForm(mods, i);
      }
    } else if forall i :: 0 <= i < |mods| ==> mods[i].Ok? {
      RowItemsAllOk(mods);
    }
  }

  lemma {:induction false} RowItemsAllOk(mods: seq<Result<ModuleRec>>)
    requires forall i :: 0 <= i < |mods| ==> mods[i].Ok?
    ensures RowItems(mods).Ok?
  {
    if mods != [] {
      var init := mods[..|mods| - 1];
      forall i | 0 <= i < |init| ensures init[i].Ok? {
        assert init[i] == mods[i];
      }
      RowItemsAllOk(init);
    }
  }

  /** Item i holds module i alone and is named `item%02d`. */
  lemma {:induction false} RowItemsClosedForm(mods: seq<Result<ModuleRec>>, i: nat)
    requires i < |mods| && RowItems(mods).Ok?
    ensures mods[i].Ok? && RowItems(mods).value[i] == RowItem(i, mods[i].value)
  {
    var init := mods[..|mods| - 1];
    var r := RowItems(mods).value;
    assert RowItems(init).Ok? && mods[|mods| - 1].Ok?;
    assert r == RowItems(init).value + [RowItem(|mods| - 1, mods[|mods| - 1].value)];
    if i < |mods| - 1 {
      RowItemsClosedForm(init, i);
      assert r[i] == RowItems(init).value[i] && init[i] == mods[i];
    }
  }

  /** The first failing module decides the error. */
  lemma {:induction false} RowItemsStop(mods: seq<Result<ModuleRec>>, i: nat)
    requires i < |mods| && RowItems(mods[..i]).Ok? && mods[i].Err?
    ensures RowItems(mods) == Err(mods[i].error)
  {
    if |mods| > i + 1 {
      assert mods[..|mods| - 1][..i] == mods[..i];
      RowItemsStop(mods[..|mods| - 1], i);
    } else {
      assert mods[..|mods| - 1] == mods[..i];
    }
  }

  /** One more module appends one more item. */
  lemma RowItemsStep(mods: seq<Result<ModuleRec>>, i: nat)
    requires i < |mods| && RowItems(mods[..i]).Ok? && mods[i].Ok?
    ensures RowItems(mods[..i + 1]) == Ok(RowItems(mods[..i]).value + [RowItem(i, mods[i].value)])
  {
    assert mods[..i + 1][..i] == mods[..i];
  }

  /** An empty table gives the single item `item00`, whose `outputID` is
      `name + '0000'` when the step adds IDs and empty otherwise. */
  lemma NoRowsOneItem(v: StepView)
    requires Rectangular(v.parameters) && |v.parameters.rows| == 0
    ensures OwnItems(v).Ok? && |OwnItems(v).value| == 1
    ensures OwnItems(v).value[0].name == "item00"
    ensures OwnItems(v).value[0].modules == [NoRowModule(v)]
    ensures NoRowModule(v).outputID == if v.flags.addId then v.name + "0000" else ""
  {
    assert ZFill(NatToString(0), 2) == "00";
  }

  /** `__add_items_to_block`: a loop appending one item per row. */
  method AddItemsToBlock(v: StepView) returns (r: Result<seq<Item>>)
    requires Rectangular(v.parameters)
    ensures r == OwnItems(v)
  {
    var n := |v.parameters.rows|;
    ghost var mods := RowModules(v);
    var items: seq<Item> := [];
    var i := 0;
    while i < n
      invariant 0 <= i <= n
      invariant RowItems(mods[..i]) == Ok(items)
    {
      var m := RowModule(v, i);
      if m.Err? {
        RowItemsStop(mods, i);
        return Err(m.error);
      }
      RowItemsStep(mods, i);
      items := items + [RowItem(i, m.value)];
      i := i + 1;
    }
    if n == 0 {
      items := [RowItem(0, NoRowModule(v))];
    } else {
      assert mods[..n] == mods;
    }
    r := Ok(items);
  }

  // ----- the items of the input blocks -----

  /** `[blocks[s]['items'] for s in input_step]`. */
  function InputItems(inputStep: seq<int>, blocks: seq<Block>): (r: Result<seq<seq<Item>>>)
    ensures r.Ok? ==> |r.value| == |inputStep|
  {
    if inputStep == [] then Ok([])
    else
      var init :- InputItems(inputStep[..|inputStep| - 1], blocks);
      var b :- PyIndex(blocks, inputStep[|inputStep| - 1]);
      Ok(init + [b.items])
  }

  /** The lookup fails exactly at an index outside the blocks; otherwise entry
      k holds the items of the block `input_step[k]` names. */
  lemma {:induction false} InputItemsSpec(inputStep: seq<int>, blocks: seq<Block>)
    ensures InputItems(inputStep, blocks).Ok? <==> forall k :: 0 <= k < |inputStep| ==> -|blocks| <= inputStep[k] < |blocks|
    ensures InputItems(inputStep, blocks).Ok? ==> forall k :: 0 <= k < |inputStep| ==>
              InputItems(inputStep, blocks).value[k] == PyIndex(blocks, inputStep[k]).value.items
  {
    if inputStep != [] {
      var init := inputStep[..|inputStep| - 1];
      InputItemsSpec(init, blocks);
      assert forall k :: 0 <= k < |init| ==> init[k] == inputStep[k];
    }
  }

  lemma {:induction false} InputItemsStop(inputStep: seq<int>, blocks: seq<Block>, i: nat)
    requires i < |inputStep| && InputItems(inputStep[..i], blocks).Ok? && PyIndex(blocks, inputStep[i]).Err?
    ensures InputItems(inputStep, blocks) == Err(PyIndex(blocks, inputStep[i]).error)
  {
    if |inputStep| > i + 1 {
      assert inputStep[..|inputStep| - 1][..i] == inputStep[..i];
      InputItemsStop(inputStep[..|inputStep| - 1], blocks, i);
    } else {
      assert inputStep[..|inputStep| - 1] == inputStep[..i];
    }
  }

  /** The loop collecting the input blocks' items. */
  method InputLists(inputStep: seq<int>, blocks: seq<Block>) returns (r: Result<seq<seq<Item>>>)
    ensures r == InputItems(inputStep, blocks)
  {
    var lists: seq<seq<Item>> := [];
    var k := 0;
    while k < |inputStep|
      invariant 0 <= k <= |inputStep|
      invariant InputItems(inputStep[..k], blocks) == Ok(lists)
    {
      var b := PyIndex(blocks, inputStep[k]);
      if b.Err? {
        InputItemsStop(inputStep, blocks, k);
        return Err(b.error);
      }
      assert inputStep[..k + 1][..k] == inputStep[..k];
      lists := lists + [b.value.items];
      k := k + 1;
    }
    assert inputStep[..k] == inputStep;
    r := Ok(lists);
  }

  /** The lists joined: the input blocks' items, then the step's own items
      when there are any. */
  function JoinLists(inputs: seq<seq<Item>>, own: seq<Item>): seq<seq<Item>>
  {
    inputs + if |own| > 0 then [own] else []
  }

  predicate AllChained(lists: seq<seq<Item>>)
  {
    forall k :: 0 <= k < |lists| ==> Chained(lists[k])
  }

  predicate BlocksChained(blocks: seq<Block>)
  {
    forall b :: 0 <= b < |blocks| ==> Chained(blocks[b].items)
  }

  lemma InputsChained(inputStep: seq<int>, blocks: seq<Block>)
    requires BlocksChained(blocks) && InputItems(inputStep, blocks).Ok?
    ensures AllChained(InputItems(inputStep, blocks).value)
  {
    InputItemsSpec(inputStep, blocks);
  }

  /** Every combination of chained lists is chained and takes one item from
      each list. */
  lemma ProductChained(lists: seq<seq<Item>>)
    requires AllChained(lists)
    ensures forall m :: 0 <= m < |Product(lists)| ==> Chained(Product(lists)[m]) && |Product(lists)[m]| == |lists|
  {
    forall m | 0 <= m < |Product(lists)| ensures Chained(Product(lists)[m]) {
      ProductMembers(lists, m);
    }
  }

  // ----- __permute_items -----

  /** The in-order concatenation of the items' chains. */
  function Chain(items: seq<Item>): (r: seq<ModuleRec>)
    ensures Chained(items) ==> |r| >= |items|
  {
    if items == [] then [] else Chain(items[..|items| - 1]) + items[|items| - 1].modules
  }

  /** The last `outputID` of each item. */
  function LastIds(items: seq<Item>): (ids: seq<string>)
    requires Chained(items)
    ensures |ids| == |items| && forall k :: 0 <= k < |items| ==> ids[k] == Last(items[k]).outputID
  {
    seq(|items|, k requires 0 <= k < |items| => Last(items[k]).outputID)
  }

  /** `outputID` as the loop accumulates it: each last `outputID` followed by `'_'`. */
  function Accumulated(items: seq<Item>): string
    requires Chained(items)
  {
    if items == [] then "" else Accumulated(items[..|items| - 1]) + Last(items[|items| - 1]).outputID + "_"
  }

  /** `xs[:n]`. */
  function Take<T>(xs: seq<T>, n: nat): (r: seq<T>)
    ensures |r| == if n < |xs| then n else |xs|
    ensures r == xs[..|r|]
  {
    if n < |xs| then xs[..n] else xs
  }

  /** `.rstrip('_').strip('_')`. */
  function Tidy(s: string): string
  {
    Strip(RStrip(s, '_'), '_')
  }

  /** `__add_ids`: the last module of the chain gets `inputIDs` and `outputID`. */
  function Relabel(chain: seq<ModuleRec>, inputIDs: seq<string>, outputID: string): (r: seq<ModuleRec>)
    requires chain != []
    ensures |r| == |chain| && r[..|r| - 1] == chain[..|chain| - 1]
    ensures r[|r| - 1] == chain[|chain| - 1].(inputIDs := Some(inputIDs), outputID := outputID)
  {
    chain[..|chain| - 1] + [chain[|chain| - 1].(inputIDs := Some(inputIDs), outputID := outputID)]
  }

  /** Combination i of the permute join, as `item%03d`. */
  function PermutedItem(i: nat, combo: seq<Item>, nInputs: nat): (r: Item)
    requires Chained(combo) && combo != []
    ensures r.modules != []
  {
    Item(Label("item", i, 3), Relabel(Chain(combo), Take(LastIds(combo), nInputs), Tidy(Accumulated(combo))))
  }

  /** The permute join: every combination of one item per input block and one
      of the step's own items, in `itertools.product` order. */
  function PermuteJoin(inputStep: seq<int>, own: seq<Item>, blocks: seq<Block>): (r: Result<Block>)
    requires own != [] && Chained(own) && BlocksChained(blocks)
    ensures r.Ok? ==> Chained(r.value.items)
  {
    var inputs :- InputItems(inputStep, blocks);
    InputsChained(inputStep, blocks);
    var lists := JoinLists(inputs, own);
    ProductChained(lists);
    Ok(Block(Label("updated_block", |blocks|, 2), PermutedItems(Product(lists), |inputStep|)))
  }

  /** The combinations combined and numbered in order. */
  function PermutedItems(combos: seq<seq<Item>>, nInputs: nat): (r: seq<Item>)
    requires forall m :: 0 <= m < |combos| ==> Chained(combos[m]) && combos[m] != []
    ensures |r| == |combos| && Chained(r)
  {
    seq(|combos|, j requires 0 <= j < |combos| => PermutedItem(j, combos[j], nInputs))
  }

  /** The items of the first i + 1 combinations: those of the first i, then
      combination i combined. */
  lemma PermutedItemsNext(combos: seq<seq<Item>>, nInputs: nat, i: nat)
    requires forall m :: 0 <= m < |combos| ==> Chained(combos[m]) && combos[m] != []
    requires i < |combos|
    ensures PermutedItems(combos, nInputs)[..i + 1] ==
              PermutedItems(combos, nInputs)[..i] + [PermutedItem(i, combos[i], nInputs)]
  {
    PrefixSnoc(PermutedItems(combos, nInputs), i);
  }

  /** The join has one item per combination: the product of the input block
      sizes times the number of the step's own items. */
  lemma PermuteCount(inputStep: seq<int>, own: seq<Item>, blocks: seq<Block>)
    requires own != [] && Chained(own) && BlocksChained(blocks)
    requires InputItems(inputStep, blocks).Ok?
    ensures PermuteJoin(inputStep, own, blocks).Ok?
    ensures |PermuteJoin(inputStep, own, blocks).value.items| == CountProduct(InputItems(inputStep, blocks).value) * |own|
  {
    var inputs := InputItems(inputStep, blocks).value;
    assert (inputs + [own])[..|inputs|] == inputs;
  }

  /** The choice `choice` made: element `choice[k]` of list k. */
  function Pick(lists: seq<seq<Item>>, choice: seq<nat>): (combo: seq<Item>)
    requires |choice| == |lists| && forall k :: 0 <= k < |lists| ==> choice[k] < |lists[k]|
    ensures |combo| == |lists|
    ensures AllChained(lists) ==> Chained(combo)
  {
    seq(|lists|, k requires 0 <= k < |lists| => lists[k][choice[k]])
  }

  /** Over any chained lists, the combination at a choice's
      `itertools.product` position is combined from exactly the chosen items. */
  lemma PermutedProduct(lists: seq<seq<Item>>, nInputs: nat, choice: seq<nat>)
    requires lists != [] && AllChained(lists)
    requires |choice| == |lists| && forall k :: 0 <= k < |lists| ==> choice[k] < |lists[k]|
    ensures forall m :: 0 <= m < |Product(lists)| ==> Chained(Product(lists)[m]) && Product(lists)[m] != []
    ensures ProductIndex(lists, choice) < |Product(lists)|
    ensures PermutedItems(Product(lists), nInputs)[ProductIndex(lists, choice)] ==
              PermutedItem(ProductIndex(lists, choice), Pick(lists, choice), nInputs)
  {
    ProductChained(lists);
    ProductComplete(lists, choice);
    var i := ProductIndex(lists, choice);
    assert Product(lists)[i] == Pick(lists, choice);

  }

  /** Every choice of one item per input block and one own item appears, at
      its `itertools.product` position, combined from exactly those items. */
  lemma PermuteComplete(inputStep: seq<int>, own: seq<Item>, blocks: seq<Block>, choice: seq<nat>)
    requires own != [] && Chained(own) && BlocksChained(blocks)
    requires InputItems(inputStep, blocks).Ok?
    requires var lists := JoinLists(InputItems(inputStep, blocks).value, own);
      |choice| == |lists| && forall k :: 0 <= k < |lists| ==> choice[k] < |lists[k]|
    ensures AllChained(JoinLists(InputItems(inputStep, blocks).value, own))
    ensures PermuteJoin(inputStep, own, blocks).Ok?
    ensures var lists := JoinLists(InputItems(inputStep, blocks).value, own);
      var i := ProductIndex(lists, choice);
      && i < |PermuteJoin(inputStep, own, blocks).value.items|
      && PermuteJoin(inputStep, own, blocks).value.items[i] == PermutedItem(i, Pick(lists, choice), |inputStep|)
  {
    var lists := JoinLists(InputItems(inputStep, blocks).value, own);
    InputsChained(inputStep, blocks);
    PermuteJoinIsPermuted(inputStep, own, blocks);
    PermutedProduct(lists, |inputStep|, choice);
  }

  lemma PermuteJoinIsPermuted(inputStep: seq<int>, own: seq<Item>, blocks: seq<Block>)
    requires own != [] && Chained(own) && BlocksChained(blocks)
    requires InputItems(inputStep, blocks).Ok?
    ensures AllChained(JoinLists(InputItems(inputStep, blocks).value, own))
    ensures var lists := JoinLists(InputItems(inputStep, blocks).value, own);
      && (forall m :: 0 <= m < |Product(lists)| ==> Chained(Product(lists)[m]) && Product(lists)[m] != [])
      && PermuteJoin(inputStep, own, blocks) == Ok(Block(Label("updated_block", |blocks|, 2), PermutedItems(Product(lists), |inputStep|)))
  {
    InputsChained(inputStep, blocks);
    ProductChained(JoinLists(InputItems(inputStep, blocks).value, own));
  }

  /** `Accumulated` is the `'_'`-join of the last IDs with one more `'_'`. */
  lemma {:induction false} AccumulatedIsJoin(items: seq<Item>)
    requires Chained(items) && items != []
    ensures Accumulated(items) == Join("_", LastIds(items)) + "_"
  {
    var init := items[..|items| - 1];
    var ids := LastIds(items);
    assert ids[..|ids| - 1] == LastIds(init);
    if init != [] {
      AccumulatedIsJoin(init);
    }
  }

  lemma RStripTrailing(s: string)
    ensures RStrip(s + "_", '_') == RStrip(s, '_')
  {
    assert (s + "_")[..|s|] == s;
  }

  lemma RStripIdempotent(s: string)
    ensures RStrip(RStrip(s, '_'), '_') == RStrip(s, '_')
  {
  }

  /** The combined `outputID` is the `'_'`-join of the contributors' last
      `outputID`s with leading and trailing `'_'` stripped. */
  lemma PermutedOutputId(combo: seq<Item>)
    requires Chained(combo) && combo != []
    ensures Tidy(Accumulated(combo)) == Strip(Join("_", LastIds(combo)), '_')
  {
    AccumulatedIsJoin(combo);
    RStripTrailing(Join("_", LastIds(combo)));
    RStripIdempotent(Join("_", LastIds(combo)));
  }

  /** Where item k's chain starts in the concatenation. */
  function Offset(items: seq<Item>, k: nat): nat
    requires k <= |items|
  {
    |Chain(items[..k])|
  }

  /** Each contributor's chain appears whole, in order, in the concatenation. */
  lemma {:induction false} ChainHolds(items: seq<Item>, k: nat)
    requires k < |items|
    ensures Offset(items, k) + |items[k].modules| <= |Chain(items)|
    ensures Chain(items)[Offset(items, k)..Offset(items, k) + |items[k].modules|] == items[k].modules
  {
    var init := items[..|items| - 1];
    if k < |items| - 1 {
      ChainHolds(init, k);
      assert init[..k] == items[..k] && init[k] == items[k];
    } else {
      assert items[..k] == init;
    }
  }

  /** A permuted item keeps every contributor's chain; only the last module
      gets the combined IDs, and its `inputIDs` are the first `len(input_step)`
      last IDs. */
  lemma PermutedItemShape(i: nat, combo: seq<Item>, nInputs: nat, k: nat)
    requires Chained(combo) && k < |combo|
    ensures var ms := PermutedItem(i, combo, nInputs).modules;
      && |ms| == |Chain(combo)|
      && ms[..|ms| - 1] == Chain(combo)[..|ms| - 1]
      && ms[|ms| - 1].inputIDs == Some(Take(LastIds(combo), nInputs))
      && Offset(combo, k) + |combo[k].modules| <= |ms|
      && Chain(combo)[Offset(combo, k)..Offset(combo, k) + |combo[k].modules|] == combo[k].modules
  {
    ChainHolds(combo, k);
  }

  /** The body of `__permute_items` for one combination: the loop over its
      items collecting modules and IDs, then `__add_ids`. */
  method CombineItems(i: nat, combo: seq<Item>, nInputs: nat) returns (item: Item)
    requires Chained(combo) && combo != []
    ensures item == PermutedItem(i, combo, nInputs)
  {
    var modules: seq<ModuleRec> := [];
    var outputID := "";
    var inputIDs: seq<string> := [];
    var k := 0;
    while k < |combo|
      invariant 0 <= k <= |combo|
      invariant Chained(combo[..k])
      invariant modules == Chain(combo[..k])
      invariant outputID == Accumulated(combo[..k])
      invariant inputIDs == LastIds(combo[..k])
    {
      assert combo[..k + 1][..k] == combo[..k];
      modules := modules + combo[k].modules;
      outputID := outputID + Last(combo[k]).outputID + "_";
      inputIDs := inputIDs + [Last(combo[k]).outputID];
      k := k + 1;
    }
    assert combo[..k] == combo;
    item := Item(Label("item", i, 3), Relabel(modules, Take(inputIDs, nInputs), Tidy(outputID)));
  }

  /** `__permute_items`: the loop over the combinations. */
  method PermuteItems(inputStep: seq<int>, own: seq<Item>, blocks: seq<Block>) returns (r: Result<Block>)
    requires own != [] && Chained(own) && BlocksChained(blocks)
    ensures r == PermuteJoin(inputStep, own, blocks)
  {
    var inputs := InputLists(inputStep, blocks);
    if inputs.Err? {
      return Err(inputs.error);
    }
    var lists := JoinLists(inputs.value, own);
    InputsChained(inputStep, blocks);
    ProductChained(lists);
    var items := CombineAll(Product(lists), |inputStep|);
    r := Ok(Block(Label("updated_block", |blocks|, 2), items));
  }

  /** The loop over the combinations, numbering them. */
  method CombineAll(combos: seq<seq<Item>>, nInputs: nat) returns (items: seq<Item>)
    requires forall m :: 0 <= m < |combos| ==> Chained(combos[m]) && combos[m] != []
    ensures items == PermutedItems(combos, nInputs)
  {
    items := [];
    var i := 0;
    while i < |combos|
      invariant 0 <= i <= |combos|
      invariant items == PermutedItems(combos, nInputs)[..i]
    {
      var item := CombineItems(i, combos[i], nInputs);
      PermutedItemsNext(combos, nInputs, i);
      items := items + [item];
      i := i + 1;
    }
  }

  // ----- __align_items -----

  /** Combinations of one item from each of three lists (two inputs and the
      step's own items). */
  predicate Triples(combos: seq<seq<Item>>)
  {
    forall m :: 0 <= m < |combos| ==> |combos[m]| == 3 && Chained(combos[m])
  }

  /** The first modules of the two input items have the same `outputID`. */
  predicate Matching(combo: seq<Item>)
    requires |combo| >= 2 && Chained(combo)
  {
    First(combo[0]).outputID == First(combo[1]).outputID
  }

  /** The matching combinations, in order. */
  function Kept(combos: seq<seq<Item>>): (r: seq<seq<Item>>)
    requires Triples(combos)
    ensures |r| <= |combos| && Triples(r)
  {
    if combos == [] then []
    else
      var init := Kept(combos[..|combos| - 1]);
      if Matching(combos[|combos| - 1]) then init + [combos[|combos| - 1]] else init
  }

  /** Kept combination number i: input 1's chain followed by the first module
      of the own item; the last module gets `outputID` from input 1's and the
      own item's IDs (for `Organize`, with input 0's ID removed) and both
      input IDs as `inputIDs`. */
  function AlignedItem(i: nat, combo: seq<Item>, stepName: string, nInputs: nat): Item
    requires |combo| == 3 && Chained(combo)
  {
    var ids := [Last(combo[0]).outputID, Last(combo[1]).outputID];
    var joined := Last(combo[1]).outputID + "_" + Last(combo[2]).outputID;
    var outputID := if stepName == "Organize" then RemoveAll(joined, ids[0]) else joined;
    Item(Label("item", i, 3), Relabel(combo[1].modules + [First(combo[2])], Take(ids, nInputs), Tidy(outputID)))
  }

  /** The kept combinations' items, numbered as the loop numbers them. */
  function AlignedItems(combos: seq<seq<Item>>, stepName: string, nInputs: nat): (r: seq<Item>)
    requires Triples(combos)
    ensures Chained(r)
  {
    if combos == [] then []
    else
      var init := AlignedItems(combos[..|combos| - 1], stepName, nInputs);
      var last := combos[|combos| - 1];
      if Matching(last) then init + [AlignedItem(|init|, last, stepName, nInputs)] else init
  }

  /** Item j is kept combination j. */
  lemma {:induction false} AlignedItemsClosedForm(combos: seq<seq<Item>>, stepName: string, nInputs: nat)
    requires Triples(combos)
    ensures |AlignedItems(combos, stepName, nInputs)| == |Kept(combos)|
  {
    if combos != [] {
      AlignedItemsClosedForm(combos[..|combos| - 1], stepName, nInputs);
    }
  }

  lemma {:induction false} AlignedItemAt(combos: seq<seq<Item>>, stepName: string, nInputs: nat, j: nat)
    requires Triples(combos) && j < |Kept(combos)|
    ensures j < |AlignedItems(combos, stepName, nInputs)|
    ensures AlignedItems(combos, stepName, nInputs)[j] == AlignedItem(j, Kept(combos)[j], stepName, nInputs)
  {
    AlignedItemsClosedForm(combos, stepName, nInputs);
    var init := combos[..|combos| - 1];
    var last := combos[|combos| - 1];
    AlignedItemsClosedForm(init, stepName, nInputs);
    var prev := AlignedItems(init, stepName, nInputs);
    if j < |Kept(init)| {
      AlignedItemAt(init, stepName, nInputs, j);
      assert Kept(combos)[j] == Kept(init)[j];
      assert AlignedItems(combos, stepName, nInputs)[j] == prev[j];
    } else {
      assert Matching(last) && j == |prev|;
      assert Kept(combos)[j] == last;
      assert AlignedItems(combos, stepName, nInputs) == prev + [AlignedItem(j, last, stepName, nInputs)];
    }
  }

  /** The align join of a step with two inputs. */
  function AlignJoin(stepName: string, inputStep: seq<int>, own: seq<Item>, blocks: seq<Block>): (r: Result<Block>)
    requires |inputStep| == 2 && own != [] && Chained(own) && BlocksChained(blocks)
    ensures r.Ok? ==> Chained(r.value.items)
  {
    var inputs :- InputItems(inputStep, blocks);
    InputsChained(inputStep, blocks);
    var lists := JoinLists(inputs, own);
    ProductChained(lists);
    var combos := Product(lists);
    Ok(Block(Label("updated_block", |blocks|, 2), AlignedItems(combos, stepName, |inputStep|)))
  }

  /** `Kept` keeps exactly the matching combinations. */
  lemma {:induction false} KeptExactly(combos: seq<seq<Item>>)
    requires Triples(combos)
    ensures forall j :: 0 <= j < |Kept(combos)| ==> Kept(combos)[j] in combos && Matching(Kept(combos)[j])
    ensures forall m :: 0 <= m < |combos| && Matching(combos[m]) ==> combos[m] in Kept(combos)
  {
    if combos != [] {
      var init := combos[..|combos| - 1];
      KeptExactly(init);
      assert forall m :: 0 <= m < |init| ==> init[m] == combos[m];
    }
  }

  /** For items a, b, c of input 0, input 1 and the step's own items, the
      combination (a, b, c) is kept exactly when the first modules of a and b
      have equal `outputID`s. */
  lemma AlignExact(lists: seq<seq<Item>>, a: nat, b: nat, c: nat)
    requires |lists| == 3 && AllChained(lists)
    requires a < |lists[0]| && b < |lists[1]| && c < |lists[2]|
    ensures Triples(Product(lists))
    ensures [lists[0][a], lists[1][b], lists[2][c]] in Kept(Product(lists)) <==>
              First(lists[0][a]).outputID == First(lists[1][b]).outputID
  {
    ProductChained(lists);
    var combos := Product(lists);
    var triple := [lists[0][a], lists[1][b], lists[2][c]];
    var choice: seq<nat> := [a, b, c];
    ProductComplete(lists, choice);
    var i := ProductIndex(lists, choice);
    assert combos[i] == triple;
    KeptExactly(combos);
    if triple in Kept(combos) {
      var j :| 0 <= j < |Kept(combos)| && Kept(combos)[j] == triple;
      assert Matching(Kept(combos)[j]);
    }
  }

  /** The body of `__align_items` for one kept combination. */
  method AlignItem(i: nat, combo: seq<Item>, stepName: string, nInputs: nat) returns (item: Item)
    requires |combo| == 3 && Chained(combo)
    ensures item == AlignedItem(i, combo, stepName, nInputs)
  {
    var modules: seq<ModuleRec> := [];
    var k := 0;
    while k < |combo[1].modules|
      invariant 0 <= k <= |combo[1].modules|
      invariant modules == combo[1].modules[..k]
    {
      modules := modules + [combo[1].modules[k]];
      k := k + 1;
    }
    assert modules == combo[1].modules;
    modules := modules + [First(combo[2])];
    var inputIDs := [Last(combo[0]).outputID, Last(combo[1]).outputID];
    var joined := Last(combo[1]).outputID + "_" + Last(combo[2]).outputID;
    var outputID := if stepName == "Organize" then RemoveAll(joined, inputIDs[0]) else joined;
    item := Item(Label("item", i, 3), Relabel(modules, Take(inputIDs, nInputs), Tidy(outputID)));
  }

  /** One more combination extends the aligned prefix by at most the item built from it. */
  lemma AlignedItemsNext(combos: seq<seq<Item>>, stepName: string, nInputs: nat, m: nat, init: seq<Item>)
    requires Triples(combos) && m < |combos|
    requires init == AlignedItems(combos[..m], stepName, nInputs)
    ensures Triples(combos[..m + 1])
    ensures AlignedItems(combos[..m + 1], stepName, nInputs)
         == if Matching(combos[m]) then init + [AlignedItem(|init|, combos[m], stepName, nInputs)] else init
  {
    assert combos[..m + 1][..m] == combos[..m];
  }

  /** The loop over the combinations, numbering only the kept ones. */
  method AlignAll(combos: seq<seq<Item>>, stepName: string, nInputs: nat) returns (items: seq<Item>)
    requires Triples(combos)
    ensures items == AlignedItems(combos, stepName, nInputs)
  {
    items := [];
    var i := 0;
    var m := 0;
    while m < |combos|
      invariant 0 <= m <= |combos|
      invariant items == AlignedItems(combos[..m], stepName, nInputs) && i == |items|
    {
      var combo := combos[m];
      AlignedItemsNext(combos, stepName, nInputs, m, items);
      if First(combo[0]).outputID == First(combo[1]).outputID {
        var item := AlignItem(i, combo, stepName, nInputs);
        items := items + [item];
        i := i + 1;
      }
      m := m + 1;
    }
    assert combos[..m] == combos;
  }

  /** `__align_items`. */
  method AlignItems(stepName: string, inputStep: seq<int>, own: seq<Item>, blocks: seq<Block>) returns (r: Result<Block>)
    requires |inputStep| == 2 && own != [] && Chained(own) && BlocksChained(blocks)
    ensures r == AlignJoin(stepName, inputStep, own, blocks)
  {
    var inputs := InputLists(inputStep, blocks);
    if inputs.Err? {
      return Err(inputs.error);
    }
    var lists := JoinLists(inputs.value, own);
    InputsChained(inputStep, blocks);
    ProductChained(lists);
    var items := AlignAll(Product(lists), stepName, |inputStep|);
    r := Ok(Block(Label("updated_block", |blocks|, 2), items));
  }

  // ----- __add_module_ids -----

  /** `name + '_' + outputID`, followed by `'_'` and the `'_'`-joined
      `inputIDs` when the module has them. */
  function ModuleId(m: ModuleRec): string
  {
    m.name + "_" + m.outputID + if m.inputIDs.Some? then "_" + Join("_", m.inputIDs.value) else ""
  }

  function WithModuleId(m: ModuleRec): ModuleRec
  {
    m.(moduleId := Some(ModuleId(m)))
  }

  function IdentifiedItem(it: Item): (r: Item)
    ensures r.name == it.name && |r.modules| == |it.modules|
    ensures forall k :: 0 <= k < |it.modules| ==> r.modules[k] == WithModuleId(it.modules[k])
  {
    it.(modules := seq(|it.modules|, k requires 0 <= k < |it.modules| => WithModuleId(it.modules[k])))
  }

  function WithModuleIds(items: seq<Item>): (r: seq<Item>)
    ensures |r| == |items| && forall i :: 0 <= i < |items| ==> r[i] == IdentifiedItem(items[i])
  {
    seq(|items|, i requires 0 <= i < |items| => IdentifiedItem(items[i]))
  }

  /** A module whose `moduleId` is its own id. */
  predicate Identified(m: ModuleRec)
  {
    m.moduleId == Some(ModuleId(m))
  }

  /** Adding the id changes nothing else, and the id it records is the
      module's own: the id does not depend on the field it is stored in. */
  lemma ModuleIdSet(m: ModuleRec)
    ensures Identified(WithModuleId(m))
    ensures WithModuleId(m).(moduleId := m.moduleId) == m
  {
  }

  /** `__add_module_ids`: the loop over the items and their modules. */
  method AddModuleIds(items: seq<Item>) returns (r: seq<Item>)
    ensures r == WithModuleIds(items)
  {
    r := [];
    var i := 0;
    while i < |items|
      invariant 0 <= i <= |items|
      invariant r == WithModuleIds(items[..i])
    {
      var ms := items[i].modules;
      var out: seq<ModuleRec> := [];
      var k := 0;
      while k < |ms|
        invariant 0 <= k <= |ms|
        invariant |out| == k && forall j :: 0 <= j < k ==> out[j] == WithModuleId(ms[j])
      {
        out := out + [WithModuleId(ms[k])];
        k := k + 1;
      }
      assert items[i].(modules := out) == IdentifiedItem(items[i]);
      assert items[..i + 1][..i] == items[..i];
      r := r + [items[i].(modules := out)];
      i := i + 1;
    }
    assert items[..i] == items;
  }

  // ----- __remove_repeating_steps -----

  function Ids(ms: seq<ModuleRec>): (ids: seq<Option<string>>)
    ensures |ids| == |ms| && forall k :: 0 <= k < |ms| ==> ids[k] == ms[k].moduleId
  {
    seq(|ms|, k requires 0 <= k < |ms| => ms[k].moduleId)
  }

  /** The loop keeping a module only when its id has not been kept yet. */
  function KeepFirst(ms: seq<ModuleRec>): (r: seq<ModuleRec>)
    ensures |r| <= |ms|
  {
    if ms == [] then []
    else
      var kept := KeepFirst(ms[..|ms| - 1]);
      if ms[|ms| - 1].moduleId in Ids(kept) then kept else kept + [ms[|ms| - 1]]
  }

  /** No earlier module has the same id as module k. */
  predicate IsFirst(ms: seq<ModuleRec>, k: nat)
    requires k < |ms|
  {
    forall j :: 0 <= j < k ==> ms[j].moduleId != ms[k].moduleId
  }

  /** Reference definition: the first occurrences among the first n modules,
      in their original order. */
  function FirstOccurrences(ms: seq<ModuleRec>, n: nat): seq<ModuleRec>
    requires n <= |ms|
  {
    if n == 0 then [] else FirstOccurrences(ms, n - 1) + if IsFirst(ms, n - 1) then [ms[n - 1]] else []
  }

  /** The kept modules cover exactly the ids of the chain. */
  lemma {:induction false} KeepFirstIds(ms: seq<ModuleRec>)
    ensures forall id :: id in Ids(KeepFirst(ms)) <==> id in Ids(ms)
  {
    if ms != [] {
      var init := ms[..|ms| - 1];
      KeepFirstIds(init);
      assert Ids(ms) == Ids(init) + [ms[|ms| - 1].moduleId];
      var kept := KeepFirst(init);
      if ms[|ms| - 1].moduleId !in Ids(kept) {
        assert Ids(kept + [ms[|ms| - 1]]) == Ids(kept) + [ms[|ms| - 1].moduleId];
      }
    }
  }

  /** No two kept modules share an id. */
  lemma {:induction false} KeepFirstDistinct(ms: seq<ModuleRec>)
    ensures forall i, j :: 0 <= i < j < |KeepFirst(ms)| ==> KeepFirst(ms)[i].moduleId != KeepFirst(ms)[j].moduleId
  {
    if ms != [] {
      var init := ms[..|ms| - 1];
      KeepFirstDistinct(init);
      var kept := KeepFirst(init);
      if ms[|ms| - 1].moduleId !in Ids(kept) {
        var r := kept + [ms[|ms| - 1]];
        forall i, j | 0 <= i < j < |r| ensures r[i].moduleId != r[j].moduleId {
          if j == |kept| {
            assert Ids(kept)[i] == r[i].moduleId;
          }
        }
      }
    }
  }

  lemma {:induction false} FirstOccurrencesPrefix(ms: seq<ModuleRec>, n: nat)
    requires n < |ms|
    ensures FirstOccurrences(ms, n) == FirstOccurrences(ms[..|ms| - 1], n)
  {
    if n > 0 {
      FirstOccurrencesPrefix(ms, n - 1);
      assert IsFirst(ms, n - 1) == IsFirst(ms[..|ms| - 1], n - 1);
    }
  }

  /** The last module is a first occurrence exactly when its id is new. */
  lemma IsFirstLast(ms: seq<ModuleRec>)
    requires ms != []
    ensures IsFirst(ms, |ms| - 1) <==> ms[|ms| - 1].moduleId !in Ids(ms[..|ms| - 1])
  {
    var init := ms[..|ms| - 1];
    if ms[|ms| - 1].moduleId in Ids(init) {
      var j :| 0 <= j < |init| && Ids(init)[j] == ms[|ms| - 1].moduleId;
      assert ms[j].moduleId == ms[|ms| - 1].moduleId;
    }
  }

  /** The loop keeps exactly the first occurrence of every id, in order. */
  lemma {:induction false} KeepFirstIsFirstOccurrences(ms: seq<ModuleRec>)
    ensures KeepFirst(ms) == FirstOccurrences(ms, |ms|)
  {
    if ms != [] {
      var init := ms[..|ms| - 1];
      KeepFirstIsFirstOccurrences(init);
      FirstOccurrencesPrefix(ms, |ms| - 1);
      KeepFirstIds(init);
      IsFirstLast(ms);
    }
  }

  function Deduplicated(items: seq<Item>): (r: seq<Item>)
    ensures |r| == |items| && forall i :: 0 <= i < |items| ==> r[i] == items[i].(modules := KeepFirst(items[i].modules))
  {
    seq(|items|, i requires 0 <= i < |items| => items[i].(modules := KeepFirst(items[i].modules)))
  }

  /** The inner loop of `__remove_repeating_steps` over one chain, with the
      list of ids seen so far. */
  method RemoveRepeating(ms: seq<ModuleRec>) returns (kept: seq<ModuleRec>)
    ensures kept == KeepFirst(ms)
  {
    kept := [];
    var seen: seq<Option<string>> := [];
    var k := 0;
    while k < |ms|
      invariant 0 <= k <= |ms|
      invariant kept == KeepFirst(ms[..k]) && seen == Ids(kept)
    {
      assert ms[..k + 1][..k] == ms[..k];
      if !(ms[k].moduleId in seen) {
        kept := kept + [ms[k]];
        seen := seen + [ms[k].moduleId];
      }
      k := k + 1;
    }
    assert ms[..k] == ms;
  }

  /** `__remove_repeating_steps`: each item's chain rebuilt without repeats. */
  method RemoveRepeatingSteps(items: seq<Item>) returns (r: seq<Item>)
    ensures r == Deduplicated(items)
  {
    r := [];
    var i := 0;
    while i < |items|
      invariant 0 <= i <= |items|
      invariant |r| == i && forall j :: 0 <= j < i ==> r[j] == items[j].(modules := KeepFirst(items[j].modules))
    {
      var kept := RemoveRepeating(items[i].modules);
      r := r + [items[i].(modules := kept)];
      i := i + 1;
    }
  }

  // ----- get_workflow_graph -----

  predicate AllWired(views: seq<StepView>)
  {
    forall k :: 0 <= k < |views| ==> Wired(views[k])
  }

  /** The block a step contributes: its own items, or their join with the
      items of its input blocks. */
  function StepBlock(v: StepView, blocks: seq<Block>): (r: Result<Block>)
    requires Wired(v) && BlocksChained(blocks)
    ensures r.Ok? ==> Chained(r.value.items)
  {
    var own :- OwnItems(v);
    if v.flags.nInputs > 0 then
      if v.flags.nInputs == 2 && v.flags.align then AlignJoin(v.name, v.inputStep.value, own, blocks)
      else PermuteJoin(v.inputStep.value, own, blocks)
    else Ok(Block(Label("block", |blocks|, 2), own))
  }

  /** One block per step, in step order. */
  function BuildBlocks(views: seq<StepView>): (r: Result<seq<Block>>)
    requires AllWired(views)
    ensures r.Ok? ==> |r.value| == |views| && BlocksChained(r.value)
  {
    if views == [] then Ok([])
    else
      var blocks :- BuildBlocks(views[..|views| - 1]);
      var b :- StepBlock(views[|views| - 1], blocks);
      Ok(blocks + [b])
  }

  /** The graph: the last block, renamed, with module ids and without
      repeated modules. */
  function Graph(views: seq<StepView>): (r: Result<Block>)
    requires AllWired(views)
  {
    var blocks :- BuildBlocks(views);
    var last :- PyIndex(blocks, -1);
    Ok(Block("workflow_graph", Deduplicated(WithModuleIds(last.items))))
  }

  /** Block k is the block step k builds from the blocks before it, so
      `input_step` entries, which index steps, index the right blocks. */
  lemma {:induction false} BlockOfStep(views: seq<StepView>, k: nat)
    requires AllWired(views) && k < |views| && BuildBlocks(views).Ok?
    ensures BlocksChained(BuildBlocks(views).value[..k])
    ensures StepBlock(views[k], BuildBlocks(views).value[..k]) == Ok(BuildBlocks(views).value[k])
  {
    var blocks := BuildBlocks(views).value;
    var init := views[..|views| - 1];
    assert AllWired(init);
    var prev := BuildBlocks(init).value;
    assert blocks == prev + [blocks[|blocks| - 1]];
    if k < |views| - 1 {
      BlockOfStep(init, k);
      assert blocks[..k] == prev[..k] && blocks[k] == prev[k] && init[k] == views[k];
    } else {
      assert blocks[..k] == prev;
    }
  }

  lemma {:induction false} BuildBlocksStop(views: seq<StepView>, k: nat)
    requires AllWired(views) && k < |views| && BuildBlocks(views[..k]).Ok?
    requires StepBlock(views[k], BuildBlocks(views[..k]).value).Err?
    ensures BuildBlocks(views) == Err(StepBlock(views[k], BuildBlocks(views[..k]).value).error)
  {
    if |views| > k + 1 {
      assert views[..|views| - 1][..k] == views[..k] && views[..|views| - 1][k] == views[k];
      BuildBlocksStop(views[..|views| - 1], k);
    } else {
      assert views[..|views| - 1] == views[..k];
    }
  }

  /** With no steps there is no block to take. */
  lemma NoStepsNoGraph()
    ensures Graph([]) == Err(Error(IndexError, ListIndexOutOfRange(-1, 0)))
  {
  }

  /** Every kept module comes from the chain. */
  lemma {:induction false} KeepFirstMembers(ms: seq<ModuleRec>)
    ensures forall j :: 0 <= j < |KeepFirst(ms)| ==> KeepFirst(ms)[j] in ms
  {
    if ms != [] {
      var init := ms[..|ms| - 1];
      KeepFirstMembers(init);
      assert forall m :: m in init ==> m in ms;
    }
  }

  /** In the graph, every module records its own id, no chain repeats an id,
      and each chain keeps every id of the last block's chain. */
  lemma GraphModules(views: seq<StepView>, i: nat)
    requires AllWired(views) && Graph(views).Ok? && i < |Graph(views).value.items|
    ensures var blocks := BuildBlocks(views).value;
      var ms := Graph(views).value.items[i].modules;
      var source := WithModuleIds(blocks[|blocks| - 1].items)[i].modules;
      && Graph(views).value.name == "workflow_graph"
      && |Graph(views).value.items| == |blocks[|blocks| - 1].items|
      && (forall j :: 0 <= j < |ms| ==> Identified(ms[j]))
      && (forall j, j' :: 0 <= j < j' < |ms| ==> ms[j].moduleId != ms[j'].moduleId)
      && (forall id :: id in Ids(source) <==> id in Ids(ms))
  {
    var blocks := BuildBlocks(views).value;
    var source := WithModuleIds(blocks[|blocks| - 1].items)[i].modules;
    var ms := Graph(views).value.items[i].modules;
    assert ms == KeepFirst(source);
    KeepFirstMembers(source);
    KeepFirstDistinct(source);
    KeepFirstIds(source);
    forall j | 0 <= j < |ms| ensures Identified(ms[j]) {
      var k :| 0 <= k < |source| && source[k] == ms[j];
      ModuleIdSet(blocks[|blocks| - 1].items[i].modules[k]);
    }
  }

  // ----- add_step -----

  /** The first entry of `xs` that is not below `bound`. */
  function FirstTooLarge(xs: seq<int>, bound: int): (r: Option<nat>)
    ensures r.None? <==> forall k :: 0 <= k < |xs| ==> xs[k] < bound
    ensures r.Some? ==> r.value < |xs| && xs[r.value] >= bound && forall k :: 0 <= k < r.value ==> xs[k] < bound
  {
    if xs == [] then None
    else if xs[0] >= bound then Some(0)
    else
      match FirstTooLarge(xs[1..], bound)
      case None => None
      case Some(k) => Some(k + 1)
  }

  /** `add_step`'s checks and the resulting `input_step` for a step with
      `nInputs` inputs added after `count` steps. */
  function ResolveInputs(stepName: string, chosen: MethodRef, nInputs: nat, count: nat,
                         inputStep: Option<seq<int>>): (r: Result<seq<int>>)
    ensures chosen.Unset? ==> r == Err(Error(ValueError, NoMethod(stepName)))
    ensures !chosen.Unset? && nInputs > count ==> r == Err(Error(IndexError, NotEnoughSteps(count, nInputs)))
    ensures inputStep.Some? && !chosen.Unset? && nInputs <= count && |inputStep.value| != nInputs ==>
              r == Err(Error(ValueError, WrongInputCount(nInputs, |inputStep.value|)))
    ensures inputStep.Some? && !chosen.Unset? && nInputs <= count && |inputStep.value| == nInputs ==>
              && (r.Ok? <==> forall k :: 0 <= k < nInputs ==> inputStep.value[k] < count)
              && (r.Err? ==> exists k :: 0 <= k < nInputs && r.error == Error(IndexError, InvalidStepIndex(inputStep.value[k], count)))
    ensures r.Ok? ==> !chosen.Unset? && |r.value| == nInputs && forall k :: 0 <= k < nInputs ==> r.value[k] < count
    ensures r.Ok? && inputStep.Some? ==> r.value == inputStep.value
    ensures r.Ok? && inputStep.None? ==> forall k :: 0 <= k < nInputs ==> 0 <= r.value[k] && r.value[k] == count - nInputs + k
    ensures inputStep.None? ==> (r.Ok? <==> !chosen.Unset? && nInputs <= count)
  {
    if chosen.Unset? then Err(Error(ValueError, NoMethod(stepName)))
    else if nInputs > count then Err(Error(IndexError, NotEnoughSteps(count, nInputs)))
    else
      match inputStep
      case None => Ok(seq(nInputs, k requires 0 <= k < nInputs => count - nInputs + k))
      case Some(xs) =>
        if |xs| != nInputs then Err(Error(ValueError, WrongInputCount(nInputs, |xs|)))
        else
          match FirstTooLarge(xs, count)
          case Some(k) => Err(Error(IndexError, InvalidStepIndex(xs[k], count)))
          case None => Ok(xs)
  }

  /** `len(limiting_step.parameters)`: the row count of the step two hops
      upstream, found through the first input of the step's first input. */
  function LimitingRows(steps: seq<Step>, inputs: seq<int>): (r: Result<nat>)
    reads steps
  {
    var first :- PyIndex(inputs, 0);
    var previous :- PyIndex(steps, first);
    var upstream :- if previous.inputStep.Some? then Ok(previous.inputStep.value)
                    else Err(Error(TypeError, NotSubscriptable));
    var second :- PyIndex(upstream, 0);
    var limiting :- PyIndex(steps, second);
    Ok(|limiting.parameters.rows|)
  }

  /** `add_step` of a step that has no `wait_complete` attribute. */
  function AddStepAsWrittenOutcome(stepName: string, chosen: MethodRef, nInputs: nat, count: nat,
                                   inputStep: Option<seq<int>>): (r: Outcome)
    ensures r.Fail?
    ensures ResolveInputs(stepName, chosen, nInputs, count, inputStep).Ok? ==>
              r.error == Error(AttributeError, MissingAttribute("wait_complete"))
  {
    var resolved := ResolveInputs(stepName, chosen, nInputs, count, inputStep);
    if resolved.Err? then Fail(resolved.error)
    else Fail(Error(AttributeError, MissingAttribute("wait_complete")))
  }

  /** The first step of a new workflow, fully specified, is refused. */
  lemma FirstStepRefused()
    ensures AddStepAsWrittenOutcome("PSF", Single("gaussian"), 0, 0, None) ==
              Fail(Error(AttributeError, MissingAttribute("wait_complete")))
  {
  }

  /** A rows-preserving column write keeps a step's table valid. */
  lemma BroadcastKeepsIds(t: Table, key: string, v: Value)
    requires WellFormed(t) && HasIds(t) && key != "ID"
    ensures WellFormed(Broadcast(t, key, v)) && HasIds(Broadcast(t, key, v))
  {
    var values := seq(|t.rows|, i => v);
    SetColumnCells(t, key, values);
  }

  function View(s: Step): StepView
    reads s
  {
    StepView(s.name, s.flags, s.chosen, s.parameters, s.inputStep)
  }

  function Views(steps: seq<Step>): (vs: seq<StepView>)
    reads steps
    ensures |vs| == |steps| && forall k :: 0 <= k < |steps| ==> vs[k] == View(steps[k])
  {
    if steps == [] then [] else Views(steps[..|steps| - 1]) + [View(steps[|steps| - 1])]
  }

  // ----- the workflow object -----

  /** A step as `add_step` leaves it: a valid table and an `input_step`
      with one entry per input. */
  predicate Ready(s: Step)
    reads s
  {
    s.Valid() && Wired(View(s))
  }

  /** Every step of the list is ready. */
  predicate AllReady(steps: seq<Step>)
    reads steps
  {
    forall k :: 0 <= k < |steps| ==> Ready(steps[k])
  }

  /** The checks of `add_step`, including the loop over an explicit
      `input_step`, for a step added after `count` steps. */
  method CheckInputs(step: Step, count: nat, inputStep: Option<seq<int>>) returns (r: Result<seq<int>>)
    ensures r == ResolveInputs(step.name, step.chosen, step.flags.nInputs, count, inputStep)
  {
    var n := step.flags.nInputs;
    if step.chosen.Unset? {
      return Err(Error(ValueError, NoMethod(step.name)));
    }
    if n > count {
      return Err(Error(IndexError, NotEnoughSteps(count, n)));
    }
    if inputStep.None? {
      return Ok(seq(n, k requires 0 <= k < n => count - n + k));
    }
    var xs := inputStep.value;
    if |xs| != n {
      return Err(Error(ValueError, WrongInputCount(n, |xs|)));
    }
    var k := 0;
    while k < |xs|
      invariant 0 <= k <= |xs|
      invariant forall j :: 0 <= j < k ==> xs[j] < count
    {
      if xs[k] >= count {
        assert FirstTooLarge(xs, count) == Some(k);
        return Err(Error(IndexError, InvalidStepIndex(xs[k], count)));
      }
      k := k + 1;
    }
    r := Ok(xs);
  }

  /** `step.input_step = input_step`, keeping every listed step ready, even
      when the step itself is one of them. */
  method Wire(steps: seq<Step>, step: Step, inputs: seq<int>)
    requires AllReady(steps) && step.Valid()
    requires |inputs| == step.flags.nInputs
    modifies step
    ensures AllReady(steps) && Ready(step)
    ensures step.inputStep == Some(inputs) && step.parameters == old(step.parameters)
  {
    step.inputStep := Some(inputs);
    assert Ready(step);
    forall k | 0 <= k < |steps| ensures Ready(steps[k]) {
      if steps[k] != step {
        assert old(Ready(steps[k]));
      }
    }
  }

  class Workflow {
    var steps: seq<Step>
    var graph: Option<Block>    // `self.workflow`

    /** Every step was wired by `add_step`. */
    predicate Valid()
      reads this, steps
    {
      AllReady(steps)
    }

    constructor()
      ensures Valid() && steps == [] && graph.None?
    {
      steps := [];
      graph := None;
    }

    /** `add_step` as written: after the checks and the `input_step` write,
        the read of `step.wait_complete` fails because a step never has that
        attribute, so no step is ever appended. */
    method AddStepAsWritten(step: Step, inputStep: Option<seq<int>>) returns (r: Outcome)
      requires Valid() && step.Valid()
      modifies step
      ensures Valid()
      ensures r == AddStepAsWrittenOutcome(step.name, step.chosen, step.flags.nInputs, |steps|, inputStep)
      ensures var resolved := ResolveInputs(step.name, step.chosen, step.flags.nInputs, |steps|, inputStep);
        step.inputStep == if resolved.Ok? then Some(resolved.value) else old(step.inputStep)
      ensures step.parameters == old(step.parameters)
    {
      var resolved := CheckInputs(step, |steps|, inputStep);
      if resolved.Err? {
        return Fail(resolved.error);
      }
      Wire(steps, step, resolved.value);
      r := Fail(Error(AttributeError, MissingAttribute("wait_complete")));
    }

    /** `step.parameters['min_inputs'] = len(limiting_step.parameters)` for
        a waiting step, keeping every step ready. */
    method Wait(step: Step, inputs: seq<int>) returns (r: Outcome)
      requires Valid() && Ready(step)
      modifies step
      ensures Valid() && Ready(step) && step.inputStep == old(step.inputStep)
      ensures LimitingRows(steps, inputs) == old(LimitingRows(steps, inputs))
      ensures var limit := LimitingRows(steps, inputs);
        && (limit.Err? ==> r == Fail(limit.error) && step.parameters == old(step.parameters))
        && (limit.Ok? ==> r == Pass && step.parameters == Broadcast(old(step.parameters), "min_inputs", Int(limit.value)))
    {
      var limit := LimitingRows(steps, inputs);
      if limit.Err? {
        return Fail(limit.error);
      }
      BroadcastKeepsIds(step.parameters, "min_inputs", Int(limit.value));
      step.parameters := Broadcast(step.parameters, "min_inputs", Int(limit.value));
      assert LimitingRows(steps, inputs) == limit;
      assert Ready(step);
      forall k | 0 <= k < |steps| ensures Ready(steps[k]) {
        if steps[k] != step {
          assert old(Ready(steps[k]));
        }
      }
      r := Pass;
    }

    /** `add_step` with the `wait_complete` flag read from the module: the
        step gets its `input_step`; a waiting step also gets the column
        `min_inputs`, the row count of the step two hops upstream, found
        after the step is wired; then the step is appended. */
    method AddStep(step: Step, inputStep: Option<seq<int>>) returns (r: Outcome)
      requires Valid() && step.Valid()
      modifies this, step
      ensures Valid() && graph == old(graph)
      ensures var resolved := ResolveInputs(step.name, step.chosen, step.flags.nInputs, |old(steps)|, inputStep);
        && (resolved.Err? ==> r == Fail(resolved.error) && steps == old(steps)
                              && step.inputStep == old(step.inputStep) && step.parameters == old(step.parameters))
        && (resolved.Ok? ==> step.inputStep == Some(resolved.value))
        && (resolved.Ok? && !step.flags.waitComplete ==>
              r == Pass && steps == old(steps) + [step] && step.parameters == old(step.parameters))
    ensures var resolved := ResolveInputs(step.name, step.chosen, step.flags.nInputs, |old(steps)|, inputStep);
        resolved.Ok? && step.flags.waitComplete ==>
          var limit := LimitingRows(old(steps), resolved.value);
          && (limit.Err? ==> r == Fail(limit.error) && steps == old(steps) && step.parameters == old(step.parameters))
          && (limit.Ok? ==> r == Pass && steps == old(steps) + [step]
                            && step.parameters == Broadcast(old(step.parameters), "min_inputs", Int(limit.value)))
    {
      var resolved := CheckInputs(step, |steps|, inputStep);
      if resolved.Err? {
        return Fail(resolved.error);
      }
      Wire(steps, step, resolved.value);
      if step.flags.waitComplete {
        r := Wait(step, resolved.value);
        if r.Fail? {
          return;
        }
      }
      steps := steps + [step];
      r := Pass;
    }

    /** `get_workflow_graph`: the graph of the current steps, kept in
        `graph` when it can be built. */
    method GetWorkflowGraph() returns (r: Result<Block>)
      requires Valid()
      modifies this
      ensures steps == old(steps) && Valid()
      ensures AllWired(Views(steps)) && r == Graph(Views(steps))
      ensures r.Ok? ==> graph == Some(r.value)
      ensures r.Err? ==> graph == old(graph)
    {
      ghost var views := Views(steps);
      r := GraphOf(steps);
      if r.Ok? {
        graph := Some(r.value);
      }
      assert Views(steps) == views;
    }
  }

  /** The graph of ready steps, read from their current state. */
  method GraphOf(steps: seq<Step>) returns (r: Result<Block>)
    requires AllReady(steps)
    ensures AllWired(Views(steps)) && r == Graph(Views(steps))
  {
    var views := Views(steps);
    assert AllWired(views);
    r := BuildGraph(views);
  }

  /** The loop of `get_workflow_graph` over the steps, one block each. */
  method BuildAll(views: seq<StepView>) returns (r: Result<seq<Block>>)
    requires AllWired(views)
    ensures r == BuildBlocks(views)
  {
    var blocks: seq<Block> := [];
    var k := 0;
    while k < |views|
      invariant 0 <= k <= |views|
      invariant AllWired(views[..k]) && BuildBlocks(views[..k]) == Ok(blocks)
    {
      assert views[..k + 1][..k] == views[..k] && views[..k + 1][k] == views[k];
      var b := BuildBlock(views[k], blocks);
      if b.Err? {
        BuildBlocksStop(views, k);
        return Err(b.error);
      }
      blocks := blocks + [b.value];
      k := k + 1;
    }
    assert views[..k] == views;
    r := Ok(blocks);
  }

  /** The last block, renamed, with module ids and without repeats. */
  method BuildGraph(views: seq<StepView>) returns (r: Result<Block>)
    requires AllWired(views)
    ensures r == Graph(views)
  {
    var blocks :- BuildAll(views);
    if blocks == [] {
      return Err(Error(IndexError, ListIndexOutOfRange(-1, 0)));
    }
    var last := blocks[|blocks| - 1];
    var items := AddModuleIds(last.items);
    items := RemoveRepeatingSteps(items);
    r := Ok(Block("workflow_graph", items));
  }

  /** One iteration of `get_workflow_graph`'s loop. */
  method BuildBlock(v: StepView, blocks: seq<Block>) returns (r: Result<Block>)
    requires Wired(v) && BlocksChained(blocks)
    ensures r == StepBlock(v, blocks)
  {
    var own :- AddItemsToBlock(v);
    if v.flags.nInputs > 0 {
      if v.flags.nInputs == 2 && v.flags.align {
        r := AlignItems(v.name, v.inputStep.value, own, blocks);
      } else {
        r := PermuteItems(v.inputStep.value, own, blocks);
      }
    } else {
      r := Ok(Block(Label("block", |blocks|, 2), own));
    }
  }
}
