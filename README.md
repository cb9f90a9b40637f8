# deconvtest workflow construction, in Dafny

deconvtest benchmarks deconvolution methods by running them over many
combinations of synthetic images, point-spread functions and parameters. A
study is a *workflow*, an ordered list of *steps*. Each step wraps one
*module*, the registered method it runs. Each step also holds a *parameter
table* with one row per combination of keyword values, and every row is
labelled with an `ID`.

Before anything runs, the workflow is turned into a *graph*. The graph is a
block of *items*, and each item is a chain of module records. A step with
inputs joins the items of its input steps with its own. The join is either a
Cartesian *permute* join or an *align* join that keeps only matching
combinations. The joined items get a composite `outputID` and `inputIDs`.
Every module then gets a `module_id`, and repeated modules are dropped from
each chain.

This project models that construction engine and proves what it promises:

- how a step is wired to earlier steps (`add_step`);
- how a step's parameter table is built (`specify_parameters`);
- how a module binds keyword values to the parameters of its method (`add_parameters`, `verify_parameters`, `run`);
- how the graph is built, in both revisions of the workflow;
- the small helpers these rely on: size and shape conversion, flattening list-valued parameters into numbered keys and back, exact-type checks, the bounding box of an array, and identifiers derived from paths.

Objects whose methods update their fields are Dafny classes:

- `Steps.Step` holds the stored table and `input_step`.
- `Modules.Module` holds the imported method, the parameters and the bound values.
- `Workflows.Workflow` and `LegacyWorkflows.Workflow` hold the steps and the graph.

Every loop of the source is a method with loop invariants. Each such method is
proved equal to a reference function, and the properties are proved about
those functions as lemmas.

Python's ordered dicts are sequences of `(key, value)` pairs
(`Values.Dict`). A pandas table is a list of column labels with rows of cells
(`Tables.Table`). Python exceptions are `Err(Error(kind, reason))` values,
where `kind` names the exception class.

Files:

| file | module | contents |
|---|---|---|
| `wrappers.dfy` | `Wrappers` | `Option`, `Result`, `Outcome`, error kinds and reasons, two sequence lemmas |
| `values.dfy` | `Values` | values, exact types, annotations, `is_valid_type`, `check_type`, ordered dicts |
| `strings.dfy` | `Strings` | `str(i)`, `zfill`, join, strip, replace, slicing |
| `product.dfy` | `Combinations` | `itertools.product` |
| `tables.dfy` | `Tables` | the DataFrame operations the tables go through |
| `conversion.dfy` | `Conversion` | `convert_size`, `unify_shape`, `list_to_keys`, `keys_to_list` |
| `measure.dfy` | `Measure` | `bounding_box` |
| `artifacts.dfy` | `Artifacts` | identifiers from paths, artifact names, the skip rule |
| `module.dfy` | `Modules` | `Module` of both revisions |
| `step.dfy` | `Steps` | `Step` and `specify_parameters` |
| `workflow.dfy` | `Workflows` | `Workflow` of deconvtest: `add_step` and `get_workflow_graph` |
| `legacy.dfy` | `LegacyWorkflows` | `Workflow` of deconvtest2 |

## Model

| member | source | states |
|---|---|---|
| Values.IsValidType | deconvtest/core/utils/utils.py:20-26 | A plain annotation accepts exactly the values whose exact type is that class. A Union accepts exactly the values whose exact type is one of its arguments. A missing annotation is an AttributeError. |
| Values.ValidTypeIsExact | deconvtest/core/utils/utils.py:26 | A value whose exact type is not listed is rejected, even when its type is a subclass of a listed one. |
| Values.CheckType | deconvtest/core/utils/utils.py:13-17 | Passes exactly when, over the zipped prefix of names, values and types, every value's exact type is among its flattened allowed types. Otherwise it is a TypeError naming the first offending variable, and all earlier variables are allowed. The same holds of the copy in `deconvtest2_core/utils/utils.py`. |
| Values.CheckTypeSingleAsList | deconvtest/core/utils/utils.py:15 | A single class and a one-element list of it give the same verdict. |
| Values.Get | deconvtest/framework/workflow/workflow.py:162 | A dict lookup finds nothing exactly for an absent key. With distinct keys it finds the value stored under the key. |
| Values.PutGet | deconvtest/core/utils/conversion.py:86-88 | `d[key] = v` keeps an existing key in place and appends a new one. The key then maps to `v`, keys stay distinct, and every other key is unaffected. |
| Values.Pop | deconvtest/framework/workflow/workflow.py:172 | `pop` is a KeyError exactly for an absent key. Otherwise it returns the stored value and a dict one entry shorter. |
| Values.PopGet | deconvtest/framework/workflow/workflow.py:172 | After `pop` the key is gone, keys stay distinct, and every other key finds what it found before. |
| Values.RemovedEntries | deconvtest/framework/workflow/workflow.py:172 | Removing one entry keeps the others in order, with distinct keys, none of them the removed key. |
| Strings.NatToString | deconvtest/framework/workflow/step.py:228 | `str(i)` is a non-empty run of decimal digits without a leading zero. |
| Strings.ZFill | deconvtest/framework/workflow/step.py:228 | `zfill` leaves a string of at least the width unchanged. Otherwise it pads to exactly the width, and the result is always zeros followed by the input. |
| Strings.DecimalOfNatToString | deconvtest/framework/workflow/step.py:228 | The digits of `str(n)` denote `n`. |
| Strings.PaddedIndexInjective | deconvtest/framework/workflow/step.py:228 | Distinct indices give distinct zero-padded labels, whatever the width. |
| Strings.RStrip | deconvtest/framework/workflow/workflow.py:246 | `rstrip(c)` returns the longest prefix not ending in `c` such that only `c`s were dropped. |
| Strings.LStrip | deconvtest/framework/workflow/workflow.py:246 | `lstrip(c)` returns the longest suffix not starting with `c` such that only `c`s were dropped. |
| Strings.RemoveAll | deconvtest/framework/workflow/workflow.py:236 | `replace(pattern, '')` never lengthens the string. |
| Strings.RemoveAllKeepsPrefix | deconvtest/framework/workflow/workflow.py:236 | Text in which no occurrence of the pattern starts is kept unchanged at the front, and the deletion continues after it. |
| Strings.RemoveAllAbsent | deconvtest/framework/workflow/workflow.py:236 | With no occurrence of a non-empty pattern, `replace(pattern, '')` returns the string unchanged. |
| Strings.RemoveAllOnce | deconvtest/framework/workflow/workflow.py:236 | When the pattern occurs only once, between `a` and `b`, `replace(pattern, '')` returns `a + b`. This is the `Organize` case, where input 0's ID occurs once in the joined ID. |
| Strings.ReplaceChar | deconvtest/framework/workflow/utils.py:9 | `replace(a, b)` on characters keeps the length and swaps exactly the `a`s. |
| Strings.LastPiece | deconvtest/framework/workflow/utils.py:9 | `split(c)[-1]` is the suffix after the last `c`, and contains no `c`. |
| Artifacts.IdFromPath | deconvtest/framework/workflow/utils.py:9 | A derived identifier never contains '/' and is never longer than the path. |
| Artifacts.IdOfPath | deconvtest/framework/workflow/utils.py:9 | For `input_dir/rel.ext` (an extension without '.') the identifier is `rel` with every '/' turned into '_'. |
| Artifacts.IdWithoutDot | deconvtest/framework/workflow/utils.py:9 | A path without any '.' yields the empty identifier. |
| Artifacts.GenerateIdTable | deconvtest/framework/workflow/utils.py:7-11 | One row per file in walk order, keeping the full file name and its derived identifier. |
| Artifacts.Extension | deconvtest/core/utils/constants.py:2-7 | Exactly the six output types of `EXTENSIONS` have an extension: `.tif` for `image`, `.csv` for `stat`, `.npz` for `data`, and the empty string for `folder`, `file` and `model`. |
| Artifacts.ArtifactName | deconvtest/framework/workflow/workflow.py:289 | An unknown output type is a KeyError. Otherwise the name is the `outputID` followed by the type's `EXTENSIONS` entry, at most four more characters; a `folder`, `file` or `model` artifact is named by its `outputID` alone. |
| Artifacts.ArtifactNamesDistinct | deconvtest/framework/workflow/workflow.py:289 | Within one output type, distinct identifiers give distinct artifact names. The `number` type has no entry. |
| Artifacts.SkipRule | deconvtest/framework/workflow/workflow.py:294-295 | `Organize` is skipped exactly while its lock exists. Any other module runs exactly when neither the lock nor its output exists. |
| Measure.Positives | core/deconvtest2_core/utils/measure.py:5 | The listed indices are exactly those of the positive entries. |
| Measure.MinCoord | core/deconvtest2_core/utils/measure.py:8 | It returns a coordinate attained on the axis that is below or equal to all the others. |
| Measure.MaxCoord | core/deconvtest2_core/utils/measure.py:8 | It returns a coordinate attained on the axis that is above or equal to all the others. |
| Measure.NoneList | core/deconvtest2_core/utils/measure.py:7 | `[None] * n` has `n` entries, all None. |
| Measure.BoundingBox | core/deconvtest2_core/utils/measure.py:4-8 | With no positive entry both corners are `ndim` Nones. Otherwise, for an array with at least one axis, they hold on every axis the minimum and maximum index over the positive entries, both attained. A zero-dimensional array with a positive value gives the corners `[0]` and `[0]`, and otherwise two empty lists. |
| Measure.PositivesInsideBox | core/deconvtest2_core/utils/measure.py:5-8 | Every positive entry lies inside the box, and the lower corner never exceeds the upper one. |
| Measure.BoxIsSmallest | core/deconvtest2_core/utils/measure.py:5-8 | Any box holding every positive entry contains the computed box. |
| Measure.BoxIsSmallestOn | core/deconvtest2_core/utils/measure.py:8 | The same on one axis. |
| Conversion.ConvertSize | deconvtest/core/utils/conversion.py:9-33 | It succeeds exactly for one to three values, always with three values. Each value is the input's at that position, or its last value when the input is shorter. Any other length is a ValueError. The same holds of the copy in `deconvtest2/core/utils/conversion.py` and `deconvtest2_core/utils/conversion.py`. |
| Conversion.ConvertSizeCases | deconvtest/core/utils/conversion.py:24-30 | `[a]` gives `[a,a,a]`, `[a,b]` gives `[a,b,b]`, and `[a,b,c]` is unchanged. |
| Conversion.ConvertSizeIdempotent | deconvtest/core/utils/conversion.py:31-32 | Converting a converted size changes nothing. The empty input and inputs of four or more values are refused. |
| Conversion.PadsTo | deconvtest/core/utils/conversion.py:56-58 | There is one pad pair per axis. |
| Conversion.PadToShape | deconvtest/core/utils/conversion.py:54-59 | The padded shape is the target shape. On each axis the two pads add up to the missing length, and the one after is the one before or one more. |
| Conversion.PadWidths | deconvtest/core/utils/conversion.py:56-58 | The pad-width loop computes the pads that bring the array to the target shape. |
| Conversion.UnifyShape | deconvtest/core/utils/conversion.py:36-61 | Different ranks are a ValueError. Otherwise both arrays are padded to the element-wise maximum shape, which bounds both. The same holds of the copy in `deconvtest2/core/utils/conversion.py`. |
| Conversion.Expansion | deconvtest/core/utils/conversion.py:84-88 | A list under `k` becomes entries `k_0 .. k_{n-1}` holding its values in order. Any other value is kept under its key. |
| Conversion.ListToKeys | deconvtest/core/utils/conversion.py:64-89 | The loop computes the expansions written one after the other into a new dict. |
| Conversion.PutAllFresh | deconvtest/core/utils/conversion.py:82-89 | Writing entries with fresh, distinct keys appends them. |
| Conversion.ListToKeysIsConcat | deconvtest/core/utils/conversion.py:82-89 | When no expanded keys collide, `list_to_keys` lays the expansions end to end, in the order of the input. |
| Conversion.LastMatch | deconvtest/core/utils/conversion.py:111 | A position found for the greedy stem lies within the searched range. |
| Conversion.LastMatchIsLast | deconvtest/core/utils/conversion.py:111 | The stem of `(.+)_\d` ends at the last position followed by the separator and a digit. There is none exactly when no such position exists. |
| Conversion.Collect | deconvtest/core/utils/conversion.py:110-119 | The loop gathers matching keys with their values, in pairs. |
| Conversion.CollectAppend | deconvtest/core/utils/conversion.py:114-119 | Running the loop over `a + t` is running it over `a` and then over `t`. |
| Conversion.KeysToList | deconvtest/core/utils/conversion.py:92-122 | The loop computes the reference `keys_to_list`. Unnumbered keys are kept. Several numbered keys are gathered, in key order, under the first key's stem. A lone numbered key is dropped. |
| Conversion.GeneratedKeyMatches | deconvtest/core/utils/conversion.py:86 | Every key `k_i` generated from a non-empty `k` matches the pattern, with stem `k`. |
| Conversion.GeneratedKeysDistinct | deconvtest/core/utils/conversion.py:86 | Distinct indices give distinct keys. |
| Conversion.ExpandedKeysDistinct | deconvtest/core/utils/conversion.py:82-89 | For one list among plain keys, the expanded dict has distinct keys. |
| Conversion.CollectPlainTail | deconvtest/core/utils/conversion.py:118-119 | Unnumbered entries with fresh keys are appended to the kept dict. |
| Conversion.CollectNumberedTail | deconvtest/core/utils/conversion.py:115-117 | Numbered entries are collected in order, and nothing else changes. |
| Conversion.ExpandOneList | deconvtest/core/utils/conversion.py:82-89 | The numbered keys take the place of the list. |
| Conversion.CollectAround | deconvtest/core/utils/conversion.py:110-119 | Numbered entries between plain ones are collected, and the plain ones are kept in order. |
| Conversion.CollectOneList | deconvtest/core/utils/conversion.py:110-121 | Collecting the expanded dict recovers the list's values, in order, under keys whose stem is the list's key. |
| Conversion.RoundTrip | deconvtest/core/utils/conversion.py:64-122 | `keys_to_list(list_to_keys(p))` gives back `p` for one list among plain keys, with the regrouped key moved to the end. |
| Combinations.Extend | deconvtest/framework/workflow/step.py:156 | Extending the combinations by one list multiplies their number by its length. |
| Combinations.ExtendMembers | deconvtest/framework/workflow/step.py:156 | Each extended combination is an old one followed by an element of the new list. |
| Combinations.ExtendAt | deconvtest/framework/workflow/step.py:156 | Combination `i` followed by element `j` sits at `i * len + j`. |
| Combinations.Product | deconvtest/framework/workflow/workflow.py:202 | The product has one combination per choice, the product of the lengths, each as long as the number of lists. |
| Combinations.ProductMembers | deconvtest/framework/workflow/workflow.py:202 | Each combination takes its k-th element from the k-th list. |
| Combinations.ProductComplete | deconvtest/framework/workflow/workflow.py:202 | Every choice of one element per list appears, at its lexicographic position, with the last list varying fastest. |
| Combinations.ProductEdges | deconvtest/framework/workflow/step.py:156 | An empty list empties the product. With no lists there is one empty combination. |
| Combinations.ZeroFactor | deconvtest/framework/workflow/step.py:156 | An empty list makes the count zero. |
| Tables.Position | deconvtest/framework/workflow/step.py:154 | It finds the first position holding the column, and nothing exactly when the column is absent. |
| Tables.SetColumn | deconvtest/framework/workflow/step.py:154 | Writing a column keeps the row count. An existing column keeps its place and a new one goes last. |
| Tables.SetColumnCells | deconvtest/framework/workflow/step.py:154 | After the write the column holds the values and every other cell is unchanged. |
| Tables.Assign | deconvtest/framework/workflow/step.py:154 | A list is a ValueError exactly when the table has rows and the lengths differ. Otherwise the table has one row per value. |
| Tables.AssignWellFormed | deconvtest/framework/workflow/step.py:154 | The assignment keeps a table well formed. |
| Tables.Broadcast | deconvtest/framework/workflow/step.py:163 | A scalar write keeps the row count. |
| Tables.NewColumns | deconvtest/framework/workflow/step.py:141 | The columns `concat` adds are exactly those of the second table that the first lacks, without repeats. |
| Tables.Concat | deconvtest/framework/workflow/step.py:141 | `concat` has the rows of both tables and the union of their columns. |
| Tables.ConcatCells | deconvtest/framework/workflow/step.py:141 | The old rows keep their cells, and the new rows follow with theirs. |
| Tables.ConcatOntoEmpty | deconvtest/framework/workflow/step.py:138-141 | Concatenating onto an empty table (the `overwrite` case) gives the new table back. |
| Tables.RowDict | deconvtest/framework/workflow/workflow.py:170 | A row as a dict has the table's columns as keys, holding that row's cells. |
| Modules.MismatchKind | deconvtest/framework/module_base/module.py:86-88 | A wrong type is a TypeError in `module_base` and a ValueError in the earlier `module`. |
| Modules.RegistryNames | deconvtest/framework/module_base/module.py:44-46 | There is one name per registry entry, in order. |
| Modules.LastEntryNamed | deconvtest/framework/module_base/module.py:48-53 | A found entry has the requested name. |
| Modules.LastEntryNamedIsLast | deconvtest/framework/module_base/module.py:50-53 | Nothing is found exactly when no entry has the name. Otherwise the entry found is the last one holding it. |
| Modules.ParametersOf | deconvtest/framework/module_base/module.py:59-80 | There is one parameter per argument. |
| Modules.ParameterAt | deconvtest/framework/module_base/module.py:65-73 | Parameter `i` is optional exactly from `len(args) - len(defaults)` on, and then has the default aligned to the tail. |
| Modules.CountMandatoryOfPrefix | deconvtest/framework/module_base/module.py:65-70 | Among the first `m` parameters, `min(m, n)` are mandatory. |
| Modules.OptionalDefaultsOfPrefix | deconvtest/framework/module_base/module.py:71-73 | The optional defaults of the first `m` parameters are the matching slice of the trailing defaults. |
| Modules.ParameterSplit | deconvtest/framework/module_base/module.py:59-80 | Parameters follow the argument names in order. The optional ones form a suffix, and mandatory ones default to None. An annotation is present exactly for annotated names. There are `max(0, n)` mandatory ones, and the optional defaults are the trailing defaults. The same holds of the copy in `deconvtest/framework/module/module.py`. |
| Modules.Bind | deconvtest/framework/module_base/module.py:83-96 | The loop defers a mandatory parameter only when there are inputs. |
| Modules.BindStops | deconvtest/framework/module_base/module.py:87-96 | Once the loop has raised, later parameters change nothing. |
| Modules.BindValues | deconvtest/framework/module_base/module.py:84-96 | While the loop has not raised, every key holds its bound value: a supplied value, or the default of an absent optional parameter. |
| Modules.BindValuesStep | deconvtest/framework/module_base/module.py:84-96 | Each iteration that does not raise keeps that true. |
| Modules.BindOneValues | deconvtest/framework/module_base/module.py:90-92 | An iteration adds the default of an absent optional parameter and otherwise leaves the values alone. |
| Modules.BoundValueOfLast | deconvtest/framework/module_base/module.py:85-92 | A parameter changes the bound value of its own name only. |
| Modules.BindFailure | deconvtest/framework/module_base/module.py:84-96 | The loop runs through exactly when every supplied value has its declared type and every absent mandatory parameter can be deferred to an input. |
| Modules.BindOneFailure | deconvtest/framework/module_base/module.py:85-96 | One iteration raises exactly on a wrong type or on an absent mandatory parameter with no inputs. |
| Modules.BindMissing | deconvtest/framework/module_base/module.py:93-94 | A loop that runs through counts exactly the absent mandatory parameters. |
| Modules.VerifyPassIff | deconvtest/framework/module_base/module.py:82-99 | `verify_parameters` passes exactly when every supplied value is valid, every absent mandatory parameter can be deferred, and the deferred count is zero or equals the number of inputs. |
| Modules.VerifyFillsDefaults | deconvtest/framework/module_base/module.py:90-92 | On success an absent optional parameter holds its default and supplied values are kept. Only optional parameters' names are added. |
| Modules.RevisionsDifferOnlyInKind | deconvtest/framework/module/module.py:76-95 | Both revisions bind the same values and fail in the same cases for the same reason. A wrong type is a TypeError in one and a ValueError in the other. |
| Modules.BindOneRevisions | deconvtest/framework/module/module.py:79-83 | One iteration in each revision keeps the two loop states related that way. |
| Modules.Module.constructor | deconvtest/framework/module_base/module.py:13-37 | A new module has no method, no parameters, no inputs and no result. |
| Modules.Module.ImportMethod | deconvtest/framework/module_base/module.py:48-57 | It keeps the last registry entry of that name. The name is refused (ValueError with the registered names) exactly when no method is set afterwards. Nothing else changes. The same holds of the copy in `deconvtest/framework/module/module.py`. |
| Modules.Module.AddParameters | deconvtest/framework/module_base/module.py:59-80 | The parameters become those derived from the signature. Nothing else changes. |
| Modules.Module.Init | deconvtest/framework/module_base/module.py:13-37 | Construction fails exactly when no method is found. Otherwise the parameters come from the found method's signature. |
| Modules.Module.VerifyParameters | deconvtest/framework/module_base/module.py:82-99 | The outcome is the reference verdict, and the bound values are those the loop computes. The earlier revision in `deconvtest/framework/module/module.py` (`Legacy`) is the same, with ValueError for a wrong type. |
| Modules.Module.Run | deconvtest/framework/module_base/module.py:101-106 | The keywords replace earlier bindings, then the parameters are verified and the method is called. The result is stored only on success. The same holds of the copy in `deconvtest/framework/module/module.py`. |
| Modules.RunOutcome | deconvtest/framework/module_base/module.py:101-106 | A failed verification is the result. A success is the method called on the inputs and the bound keywords. |
| Modules.RunIgnoresEarlierBindings | deconvtest/framework/module_base/module.py:102 | `run` succeeds exactly under the verification conditions on this call's own keywords and inputs, whatever was bound before. |
| Steps.MethodParameters | deconvtest/framework/workflow/step.py:213-222 | No method is a ModuleNotFoundError and an empty list an IndexError. Otherwise the (first) method's parameters come from the catalogue, and an unknown name is a ValueError listing the names. |
| Steps.Lookup | deconvtest/framework/module_base/module.py:48-57 | The lookup fails exactly for a name no entry has. Otherwise it gives the parameters of an entry of that name. |
| Steps.CheckElements | deconvtest/framework/workflow/step.py:190-204 | Passes exactly when every element is of the declared type. The first failure is a TypeError, or an AttributeError without an annotation. |
| Steps.SplitStops | deconvtest/framework/workflow/step.py:169-211 | The first error ends the split. |
| Steps.ParameterLists | deconvtest/framework/workflow/step.py:169-211 | The loop computes the reference split into axes and singletons: absent optional parameters give their default, an absent mandatory one is a ValueError, `'pipeline'` leaves the parameter out, and lists of several values become axes. |
| Steps.SplitParameter | deconvtest/framework/workflow/step.py:178-209 | One iteration, with its element-by-element type check, computes the reference step. |
| Steps.SplitDistinct | deconvtest/framework/workflow/step.py:206-209 | Axis and singleton keys stay distinct. |
| Steps.AxisItems | deconvtest/framework/workflow/step.py:156 | The axes' value lists, in key order. |
| Steps.PermuteTable | deconvtest/framework/workflow/step.py:156-157 | Permute mode has one column per axis. It is a ValueError exactly in two cases: there are two or more axes and one of them is empty (`pd.DataFrame` refuses the one-dimensional empty array for several columns), or every axis value is a list of one common length (the array has a third axis). |
| Steps.ListAxisRefused | deconvtest/framework/workflow/step.py:156-157 | The single axis `size=[[10, 6, 6], [12, 6, 6]]` is refused. |
| Steps.MixedAxisKept | deconvtest/framework/workflow/step.py:156-157 | The single axis `size=[[10, 6, 6], 10]` gives two rows, one per value. |
| Steps.EmptyAxisNoCombination | deconvtest/framework/workflow/step.py:156 | `itertools.product` yields no combination exactly when some axis is empty. |
| Steps.PermuteRows | deconvtest/framework/workflow/step.py:156-157 | Without axes permute mode never fails, and with one axis it fails exactly when every value is a list of one common length. When it succeeds it has one row per combination, the product of the axis lengths, and a single empty row with no axes. Every cell of column k is a value of axis k. |
| Steps.Zipped | deconvtest/framework/workflow/step.py:147-154 | Row `i` of the zipped table holds the `i`-th value of each axis. |
| Steps.AssignNextAxis | deconvtest/framework/workflow/step.py:154 | Assigning the next axis adds exactly its column to the zipped table. |
| Steps.AssignFirstAxis | deconvtest/framework/workflow/step.py:148-154 | The first axis gives the empty table its rows. |
| Steps.AlignTable | deconvtest/framework/workflow/step.py:147-154 | The align loop computes the reference table: an IndexError without axes, a ValueError for an axis of another length, otherwise the zipped table. |
| Steps.AddSingle | deconvtest/framework/workflow/step.py:162-165 | Writing one singleton keeps the table rectangular. |
| Steps.AddSingles | deconvtest/framework/workflow/step.py:161-165 | Writing all singletons keeps the table rectangular. |
| Steps.AddSinglesLoop | deconvtest/framework/workflow/step.py:161-165 | The singleton loop computes the reference writes. |
| Steps.SinglesBroadcast | deconvtest/framework/workflow/step.py:162-163 | On a table with rows, scalar singletons reach every row unchanged, the row count is kept, and the other cells are untouched. |
| Steps.SinglesOnEmpty | deconvtest/framework/workflow/step.py:164-165 | On a table without rows, singletons create exactly one row. |
| Steps.AddIds | deconvtest/framework/workflow/step.py:224-230 | Adding IDs keeps the rows and adds the `ID` column. |
| Steps.IdsDistinct | deconvtest/framework/workflow/step.py:224-230 | Row `i`'s ID is `base + sep + str(i).zfill(pos)`, the IDs are pairwise distinct, and other columns are untouched. |
| Steps.ParameterTable | deconvtest/framework/workflow/step.py:132-136 | A returned table is well formed and has an `ID` column. |
| Steps.InvalidModeRefused | deconvtest/framework/workflow/step.py:132-133 | A mode other than `align` or `permute` is a ValueError. |
| Steps.RowIdsDistinct | deconvtest/framework/workflow/step.py:224-230 | Every row of the returned table carries its label (base defaulting to the step name), and the labels are pairwise distinct. |
| Steps.ConcatKeepsIds | deconvtest/framework/workflow/step.py:141 | Appending rows keeps every row's string `ID`. |
| Steps.Step.constructor | deconvtest/framework/workflow/step.py:25-39 | A new step has an empty table and no `input_step`. |
| Steps.Step.SpecifyParameters | deconvtest/framework/workflow/step.py:94-142 | It returns the new rows. The stored table becomes them (`overwrite`) or has them appended. An error leaves it unchanged, and it stays valid. |
| Workflows.PyIndex | deconvtest/framework/workflow/workflow.py:196 | `xs[i]` succeeds exactly for `-len <= i < len`, counting negative indices from the end, and is an IndexError otherwise. |
| Workflows.RowModuleSpec | deconvtest/framework/workflow/workflow.py:167-179 | A row's module fails exactly when the regrouped row has no `ID`, or has a non-string one while the step adds IDs. Otherwise it carries the step's name, method and types, and the `ID` (or `''`) as `outputID`. |
| Workflows.RowItems | deconvtest/framework/workflow/workflow.py:168-179 | Successful items number the rows and each hold one module. |
| Workflows.RowItemsFail | deconvtest/framework/workflow/workflow.py:168-179 | The items fail exactly when some row does. |
| Workflows.RowItemsClosedForm | deconvtest/framework/workflow/workflow.py:178 | Item `i` holds row `i`'s module alone and is named `item%02d`. |
| Workflows.RowItemsStop | deconvtest/framework/workflow/workflow.py:168-179 | The first failing row decides the error. |
| Workflows.OwnItems | deconvtest/framework/workflow/workflow.py:167-191 | A step's own items are never empty: one per row, or one for an empty table. |
| Workflows.NoRowsOneItem | deconvtest/framework/workflow/workflow.py:181-190 | An empty table gives the single item `item00`, whose `outputID` is `name + '0000'` or `''`. |
| Workflows.AddItemsToBlock | deconvtest/framework/workflow/workflow.py:167-191 | The loop computes the step's own items. |
| Workflows.InputItemsSpec | deconvtest/framework/workflow/workflow.py:194-196 | The lookup fails exactly at an index outside the blocks. Otherwise entry k holds the items of the block that `input_step[k]` names. |
| Workflows.InputLists | deconvtest/framework/workflow/workflow.py:194-196 | The loop computes that lookup. |
| Workflows.ProductChained | deconvtest/framework/workflow/workflow.py:202 | Every combination of chained lists is chained and takes one item per list. |
| Workflows.PermuteCount | deconvtest/framework/workflow/workflow.py:193-214 | The permute join has the product of the input block sizes times the number of own items. |
| Workflows.PermutedProduct | deconvtest/framework/workflow/workflow.py:202-212 | Over any chained lists, the item at a choice's product position is combined from exactly the chosen items. |
| Workflows.PermuteComplete | deconvtest/framework/workflow/workflow.py:193-214 | Every choice of one item per input block and one own item appears, at its product position, combined from exactly those items. |
| Workflows.PermuteJoinIsPermuted | deconvtest/framework/workflow/workflow.py:193-214 | The join is the block `updated_block%02d` of the combinations, combined and numbered in order. |
| Workflows.AccumulatedIsJoin | deconvtest/framework/workflow/workflow.py:205-210 | The accumulated `outputID` is the `'_'`-join of the last IDs plus one `'_'`. |
| Workflows.PermutedOutputId | deconvtest/framework/workflow/workflow.py:246 | The combined `outputID` is the `'_'`-join of the contributors' last `outputID`s, with leading and trailing `'_'` stripped. |
| Workflows.ChainHolds | deconvtest/framework/workflow/workflow.py:207-209 | Each contributor's chain appears whole, in order, in the concatenation. |
| Workflows.PermutedItemShape | deconvtest/framework/workflow/workflow.py:207-212 | A combined item keeps every contributor's chain. Only the last module changes, and its `inputIDs` are the first `len(input_step)` last IDs. |
| Workflows.CombineItems | deconvtest/framework/workflow/workflow.py:203-212 | The loop over one combination computes the combined item. |
| Workflows.CombineAll | deconvtest/framework/workflow/workflow.py:202-212 | The loop over the combinations computes the numbered items. |
| Workflows.PermuteItems | deconvtest/framework/workflow/workflow.py:193-214 | `__permute_items` computes the permute join. |
| Workflows.Kept | deconvtest/framework/workflow/workflow.py:225-226 | The kept combinations are at most all of them. |
| Workflows.AlignedItemsClosedForm | deconvtest/framework/workflow/workflow.py:222-239 | There is one aligned item per kept combination. |
| Workflows.AlignedItemAt | deconvtest/framework/workflow/workflow.py:227-239 | Item `j` is built from kept combination `j`. Its chain is input 1's chain plus the own item's first module. Its `outputID` is formed from input 1's and the own item's IDs, with input 0's ID removed for `Organize`. |
| Workflows.KeptExactly | deconvtest/framework/workflow/workflow.py:226 | The kept combinations are exactly the matching ones. |
| Workflows.AlignExact | deconvtest/framework/workflow/workflow.py:225-226 | For items a, b, c of the three lists, (a, b, c) is kept exactly when the first modules of a and b have equal `outputID`s. |
| Workflows.AlignItem | deconvtest/framework/workflow/workflow.py:227-237 | The body computes the aligned item. |
| Workflows.AlignAll | deconvtest/framework/workflow/workflow.py:225-239 | The loop computes the aligned items, numbering only kept combinations. |
| Workflows.AlignItems | deconvtest/framework/workflow/workflow.py:216-241 | `__align_items` computes the align join. |
| Workflows.WithModuleIds | deconvtest/framework/workflow/workflow.py:249-260 | Every module of every item gets its id, and nothing else changes. |
| Workflows.ModuleIdSet | deconvtest/framework/workflow/workflow.py:254-257 | The recorded `module_id` is the module's own id, and only that field changes. |
| Workflows.AddModuleIds | deconvtest/framework/workflow/workflow.py:249-260 | The loop computes those ids. |
| Workflows.KeepFirstIds | deconvtest/framework/workflow/workflow.py:266-269 | The kept modules cover exactly the ids of the chain. |
| Workflows.KeepFirstDistinct | deconvtest/framework/workflow/workflow.py:266-269 | No two kept modules share an id. |
| Workflows.KeepFirstIsFirstOccurrences | deconvtest/framework/workflow/workflow.py:262-271 | The loop keeps exactly the first occurrence of every id, in the original order. |
| Workflows.KeepFirstMembers | deconvtest/framework/workflow/workflow.py:268 | Every kept module comes from the chain. |
| Workflows.RemoveRepeating | deconvtest/framework/workflow/workflow.py:264-269 | The loop with its seen-ids list computes the deduplicated chain. |
| Workflows.RemoveRepeatingSteps | deconvtest/framework/workflow/workflow.py:262-271 | Every item's chain is deduplicated. |
| Workflows.BuildBlocks | deconvtest/framework/workflow/workflow.py:103-114 | There is one block per step, every one chained. |
| Workflows.BlockOfStep | deconvtest/framework/workflow/workflow.py:104-114 | Block k is the block step k builds from the blocks before it, so `input_step` entries index the right blocks. |
| Workflows.BuildBlocksStop | deconvtest/framework/workflow/workflow.py:104-114 | The first failing step decides the error. |
| Workflows.NoStepsNoGraph | deconvtest/framework/workflow/workflow.py:115 | With no steps, taking the last block is an IndexError. |
| Workflows.GraphModules | deconvtest/framework/workflow/workflow.py:115-118 | The graph is named `workflow_graph` and has the last block's items. Every module records its own id, no chain repeats an id, and each chain keeps every id of the last block's chain. |
| Workflows.FirstTooLarge | deconvtest/framework/workflow/workflow.py:56-58 | It finds the first entry not below the bound, or none when all are below. |
| Workflows.ResolveInputs | deconvtest/framework/workflow/workflow.py:43-60 | No method is a ValueError, too few steps an IndexError, a wrong count a ValueError, and an index not below the step count an IndexError. On success `input_step` has `n_inputs` entries below the count: the given ones, or `[len-n .. len-1]` ascending. |
| Workflows.AddStepAsWrittenOutcome | deconvtest/framework/workflow/workflow.py:43-61 | As written, `add_step` always fails. Once the checks pass, the failure is the AttributeError for `wait_complete`. |
| Workflows.FirstStepRefused | deconvtest/framework/workflow/workflow.py:61 | The first step of a new workflow is refused. |
| Workflows.BroadcastKeepsIds | deconvtest/framework/workflow/workflow.py:64 | Writing `min_inputs` keeps a step's table valid. |
| Workflows.CheckInputs | deconvtest/framework/workflow/workflow.py:44-58 | The checks, with the loop over an explicit `input_step`, compute the resolved inputs. |
| Workflows.Wire | deconvtest/framework/workflow/workflow.py:60 | The step gets its `input_step`, and every step stays ready even when it is one of the listed steps. |
| Workflows.Workflow.constructor | deconvtest/framework/workflow/workflow.py:33-41 | A new workflow has no steps and no graph. |
| Workflows.Workflow.AddStepAsWritten | deconvtest/framework/workflow/workflow.py:43-65 | As written, it writes `input_step` when the checks pass and then fails, so no step is ever appended. |
| Workflows.Workflow.Wait | deconvtest/framework/workflow/workflow.py:61-64 | A waiting step gets `min_inputs`, the row count of the step two hops upstream, or the lookup's error. |
| Workflows.Workflow.AddStep | deconvtest/framework/workflow/workflow.py:43-65 | A failed check leaves everything unchanged. Otherwise the step is wired, a waiting step gets `min_inputs`, and the step is appended last. |
| Workflows.Workflow.GetWorkflowGraph | deconvtest/framework/workflow/workflow.py:102-123 | It returns the graph of the current steps and keeps it when built. The steps are unchanged. |
| Workflows.GraphOf | deconvtest/framework/workflow/workflow.py:102-118 | The graph of ready steps is the reference graph of their current state. |
| Workflows.BuildAll | deconvtest/framework/workflow/workflow.py:103-114 | The loop over the steps computes the blocks. |
| Workflows.BuildGraph | deconvtest/framework/workflow/workflow.py:115-118 | It computes the graph from the blocks. |
| Workflows.BuildBlock | deconvtest/framework/workflow/workflow.py:105-114 | One iteration computes the step's block. |
| LegacyWorkflows.RowStepSpec | deconvtest2/framework/workflow/workflow.py:96-104 | A row's record fails (KeyError) exactly when the regrouped row has no `ID`. Otherwise it carries the step's name, method and the `ID` as `outputID`. |
| LegacyWorkflows.RowItemsFail | deconvtest2/framework/workflow/workflow.py:93-106 | The items fail exactly when some row does. |
| LegacyWorkflows.RowItemsClosedForm | deconvtest2/framework/workflow/workflow.py:94-106 | Item `i` holds row `i`'s record alone and is named `item%02d`. |
| LegacyWorkflows.RowItemsStop | deconvtest2/framework/workflow/workflow.py:93-106 | The first failing row decides the error. |
| LegacyWorkflows.OwnItems | deconvtest2/framework/workflow/workflow.py:93-113 | A step's own items are never empty: one per row, or one for an empty table. |
| LegacyWorkflows.NoRowsOneItem | deconvtest2/framework/workflow/workflow.py:107-113 | An empty table gives the single item `item00` with `outputID` `''`. |
| LegacyWorkflows.AddOwnItems | deconvtest2/framework/workflow/workflow.py:93-113 | The loops compute the step's own items. |
| LegacyWorkflows.InputItemsSpec | deconvtest2/framework/workflow/workflow.py:116-118 | The lookup fails exactly at an index outside the blocks. Otherwise entry k holds the items of the block that index names. |
| LegacyWorkflows.InputLists | deconvtest2/framework/workflow/workflow.py:116-118 | The loop computes that lookup. |
| LegacyWorkflows.AccumulatedSpec | deconvtest2/framework/workflow/workflow.py:127-131 | The accumulation succeeds exactly when every last `outputID` is a string. It is then their `'_'`-join plus one `'_'`. |
| LegacyWorkflows.AccumulatedStop | deconvtest2/framework/workflow/workflow.py:131 | A non-string `outputID` is a TypeError. |
| LegacyWorkflows.JoinedItemSpec | deconvtest2/framework/workflow/workflow.py:124-133 | A combined item is the in-order concatenation of its contributors' chains. Its last `outputID` is the `'_'`-join of their last IDs with trailing `'_'` removed. It fails exactly when one of those is not a string. |
| LegacyWorkflows.ChainHolds | deconvtest2/framework/workflow/workflow.py:128-130 | Each contributor's chain appears whole, in order, in the concatenation. |
| LegacyWorkflows.JoinedItemsClosedForm | deconvtest2/framework/workflow/workflow.py:124-133 | Item `i` is combination `i` joined. |
| LegacyWorkflows.JoinedItemsStop | deconvtest2/framework/workflow/workflow.py:124-133 | The first failing combination decides the error. |
| LegacyWorkflows.PermuteCount | deconvtest2/framework/workflow/workflow.py:115-124 | The join has the product of the input block sizes times the number of own items. |
| LegacyWorkflows.PermuteJoinItems | deconvtest2/framework/workflow/workflow.py:115-134 | The join's items are the combinations of the input blocks and the own items, joined in product order. |
| LegacyWorkflows.CombineItems | deconvtest2/framework/workflow/workflow.py:125-133 | The loops over one combination compute the joined item. |
| LegacyWorkflows.CombineAll | deconvtest2/framework/workflow/workflow.py:124-133 | The loop over the combinations computes the joined items. |
| LegacyWorkflows.PermuteItems | deconvtest2/framework/workflow/workflow.py:115-134 | The join block computed by the loops. |
| LegacyWorkflows.Counted | deconvtest2/framework/workflow/workflow.py:90 | At most every step counts. |
| LegacyWorkflows.BuildBlocks | deconvtest2/framework/workflow/workflow.py:88-136 | There is one chained block per step that is not an evaluation. |
| LegacyWorkflows.EvaluationAddsNoBlock | deconvtest2/framework/workflow/workflow.py:90 | A step named `Evaluation` leaves the blocks as they were. |
| LegacyWorkflows.OtherStepAddsBlock | deconvtest2/framework/workflow/workflow.py:91-136 | Any other step adds exactly its own block, built from the blocks before it, or fails. |
| LegacyWorkflows.GraphIsLastBlock | deconvtest2/framework/workflow/workflow.py:137 | The graph is the last block built, and an IndexError when there is none. |
| LegacyWorkflows.BuildBlocksStop | deconvtest2/framework/workflow/workflow.py:89-136 | The first failing step decides the error. |
| LegacyWorkflows.BuildBlock | deconvtest2/framework/workflow/workflow.py:91-136 | One iteration computes the step's block. |
| LegacyWorkflows.BuildAll | deconvtest2/framework/workflow/workflow.py:88-136 | The loop over the steps, skipping evaluations, computes the blocks. |
| LegacyWorkflows.Workflow.constructor | deconvtest2/framework/workflow/workflow.py:27-32 | A new workflow has no steps and no graph. |
| LegacyWorkflows.Workflow.AddStep | deconvtest2/framework/workflow/workflow.py:34-52 | A failed check (the same checks as the later revision) leaves everything unchanged. Otherwise the step is wired with the resolved `input_step` and appended last. |
| LegacyWorkflows.Workflow.GetWorkflowGraph | deconvtest2/framework/workflow/workflow.py:87-141 | It returns the last block built from the current steps and keeps it when built. The steps are unchanged. |

## Findings

| source | as written | input that shows it | evidently intended | confidence | as-written member | corrected member |
|---|---|---|---|---|---|---|
| deconvtest/framework/workflow/workflow.py:61 | `add_step` reads `step.wait_complete` after its checks, but `Step` never defines that attribute. `set_module` (deconvtest/framework/workflow/step.py:50-61) copies the module's other flags but not this one, so the read raises AttributeError after `input_step` was written and no step is ever appended. This is reached only once the missing `list_to_columns` import (see "Left out") is repaired. | A new workflow and a `PSF` step with method `gaussian` and no inputs (`Workflows.FirstStepRefused`). | The flag is read from the step's module class (`wait_complete = False` in deconvtest/framework/module_base/module.py:31), and the step is appended. | high, not executed | Workflows.Workflow.AddStepAsWritten | Workflows.Workflow.AddStep |

## Left out

- I/O and concurrency: the thread pool, random sleeps, lock files, the file system, and CSV and JSON persistence (`run`, `run_item`, `save`, `load`, `to_dict`) are not modelled. Only `run_item`'s artifact name and skip rule are.
- Reflection: module and method discovery is replaced by a given registry of names and signatures (`Modules.MethodEntry`). `set_module` and the step classes' constant flags are a `Steps.ModuleFlags` value.
- `list_to_columns`: deconvtest/framework/workflow/step.py:12 imports it from deconvtest/core/utils/conversion.py, which defines only `convert_size`, `unify_shape`, `list_to_keys` and `keys_to_list`, and no file of the repository defines it. As written, the step module therefore fails with an ImportError, and so does the workflow module, which imports `Step`. The model takes `list_to_columns` as a function parameter assumed only to keep a table well formed (`Steps.ShapePreserving`).
- The numeric code is not modelled: shape generators, convolution, noise and the evaluation metrics.
- `np.array` conversion in the permute table coerces mixed cell types to one dtype; the model keeps each value as given.
- Steps.PermuteTable: axis values that are lists of differing lengths, or lists beside scalars, give an object array as in numpy before 1.24, so the table is built (`Steps.MixedAxisKept`). numpy 1.24 and later raise a ValueError for such a ragged array instead. The same holds for `Steps.PermuteRows`.
- Workflows.ResolveInputs: `input_step` is `None` or a sequence of indices. The `int` that the signature at deconvtest/framework/workflow/workflow.py:43 also allows fails with a TypeError at `len(input_step)` (line 54), and that case is not modelled.
- `.item()` on table cells is the identity.
- The rewrite of the caller's keyword dict at deconvtest/framework/workflow/step.py:201 is not modelled; only its effect on the table is.
- The warnings for keywords that are not parameters of the method (deconvtest/framework/workflow/step.py:174) and for listing parameters without a method (deconvtest/framework/workflow/step.py:88) are not modelled, because they do not change any result.
- Parameter keys named `name` or `method` overwrite the module record's own fields in the source; the model keeps parameters apart from those fields.
- Conversion.ListToKeys: the separator is one character; only Python lists are spread; the round trip is proved for the default `'_'`.
- Conversion.KeysToList: the separator is one character and is not a regular-expression metacharacter. A digit is an ASCII `0`-`9`, while Python's `\d` also matches the other Unicode decimal digits. Keys containing a newline are not modelled: `.` does not match it, so the match need not start at the beginning of the key.
- Conversion.UnifyShape: works on shapes only; array contents and the zero fill are not modelled.
- Conversion.ConvertSize: works on the flattened input sequence; a scalar is the sequence of one value.
- Measure.BoundingBox: the array is given by its entries with their index tuples rather than as a dense array.
- Measure.BoundingBox: a zero-dimensional array follows `np.where` before numpy 2.1, which searches it as a one-element vector; numpy 2.1 and later raise a ValueError for it instead.
- LegacyWorkflows.RowStepSpec: deconvtest2/framework/workflow/workflow.py:11 imports `keys_to_list` from deconvtest2/core/utils/conversion.py, which defines only `convert_size` and `unify_shape`, so that module fails with an ImportError as written. The model uses the deconvtest `keys_to_list` (`Conversion.KeysToListSpec`) in its place, which is what the import evidently means.
- LegacyWorkflows: the deconvtest2 `Step` of the later source is not part of this model; its workflow is modelled over the deconvtest `Step` shape, with `outputID` kept as any value so that a non-string ID fails at the join (TypeError) as in the source.
- Workflows.RowModuleSpec: a non-string `ID` of a step that adds IDs is refused when the row's module is built. The source fails only where the ID is later concatenated (a join or a `module_id`), so a step whose block is never used would not fail there.
- Strings.RemoveAll: its own contract states only the length bound. What it deletes is stated in `Strings.RemoveAllKeepsPrefix`, `Strings.RemoveAllAbsent` and `Strings.RemoveAllOnce`; overlapping occurrences are not described beyond the definition.
- Modules.LastEntryNamed: its own contract states only the found entry's name. That it is the last entry of that name, and nothing is found exactly when no entry has it, is stated in `Modules.LastEntryNamedIsLast`.
- Dict order: Python dicts are insertion-ordered sequences here. A repeated key overwrites in place, as in Python.
