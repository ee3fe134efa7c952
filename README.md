# raffia core, modelled in Dafny

raffia is a JSON library. It reads and writes JSON values called *baskets*: strings,
numbers, booleans, null, arrays and insertion-ordered objects. JSONPath-like paths
project a basket (select the values a path reaches) or update it (rewrite those values),
either on a value in memory or on a stream of tokens as they arrive. This project models
the Kotlin core of `raffia-core` and proves properties of it.

Modules, in the order the program builds them up:

- **Values, Baskets, PropertySets, ArrayContents** — the basket union and its typed accessors;
  the ordered property set with `with`/`minus`/`get`/`of`; the array contents with
  `get`/`plus`/`with`/`minus`. Wrong-type and index errors are the `Outcomes` exceptions,
  with the source's messages.
- **ProjectionResults, Updaters** — projection results (empty, singleton, multiple, nested)
  with `add`, `map`, `size`, `single`, iteration and equality; the updater combinators.
- **Segments, IndexSegment, SliceSegment, KeySegment, WildcardSegment, DeepScanSegment,
  MatchingSegment, PathProjection** — the path segments. For streaming, each segment answers
  `matchesIndex`/`matchesKey` with unmatched, matched-unbound or matched-bound. In memory, it
  builds a projector and an updater. Where the source loops, the projectors and updaters are
  methods proved equal to a functional specification. The properties of that specification
  are proved as lemmas.
- **Strands, StrandPaths, PathParser, PathRoundTrip** — the lens strands with their `get` and
  `update`, and the path string each strand prints. The recursive-descent parser turns a path
  string into strands. A printed strand chain parses back to the same chain.
- **TokenStreams, Positions, PathBinding, PositionTracking** — the token stream a basket
  writes (`writeTo`), the position stack machine and the path-binding stack machine that
  follow the stream one token at a time, and the `PositionTrackingState` class that drives
  both.
- **Writers, TransientWriters, StreamWeaving** — the weavers that build a basket from
  tokens: the persistent weavers as functions, the transient weaver and `StreamWeaverState`
  as classes. Feeding a basket's own tokens rebuilds the basket.
- **ProjectingFilter, Updating, IgnoreAll** — the projecting and updating interpreters, which
  buffer a matched subtree, project or update it, and pass on the result; and the
  depth-counting filter that skips a whole value.

In the "## Model" table, source paths are relative to the repository root. Files under
`raffia-core/src/main/java/com/codepoetics/raffia/` are cited with their full path.

## Model

| member | source | states |
|---|---|---|
| Values.GetType | raffia-core/src/main/java/com/codepoetics/raffia/baskets/Baskets.kt:58-66 | the type tag is total; true and false both have the tag BOOLEAN, and only arrays and objects have the tags ARRAY and OBJECT |
| Baskets.AsString | raffia-core/src/main/java/com/codepoetics/raffia/baskets/Baskets.kt:19 | succeeds exactly on a string basket and returns its payload; any other variant fails with the wrong-type error naming STRING and the actual type |
| Baskets.AsNumber | raffia-core/src/main/java/com/codepoetics/raffia/baskets/Baskets.kt:22 | succeeds exactly on a number basket and returns its payload; otherwise the wrong-type error naming NUMBER |
| Baskets.AsBoolean | raffia-core/src/main/java/com/codepoetics/raffia/baskets/Baskets.kt:25-29 | succeeds exactly on true and false, returning the boolean that rebuilds the basket; otherwise the wrong-type error naming BOOLEAN |
| Baskets.AsNull | raffia-core/src/main/java/com/codepoetics/raffia/baskets/Baskets.kt:32 | succeeds exactly on the null basket; otherwise the wrong-type error naming NULL |
| Baskets.AsArray | raffia-core/src/main/java/com/codepoetics/raffia/baskets/Baskets.kt:35 | succeeds exactly on an array basket and returns its contents; otherwise the wrong-type error naming ARRAY |
| Baskets.AsObject | raffia-core/src/main/java/com/codepoetics/raffia/baskets/Baskets.kt:38 | succeeds exactly on an object basket and returns its property set; otherwise the wrong-type error naming OBJECT |
| Baskets.EmptyBaskets | raffia-core/src/main/java/com/codepoetics/raffia/baskets/Baskets.kt:51-56 | a well-formed basket is empty exactly when it is null, the empty array or the empty object |
| Baskets.WithProperty | raffia-core/src/main/java/com/codepoetics/raffia/baskets/Baskets.kt:124 | on an object, the new value is then found under the key and every other key keeps its value; on anything else, the wrong-type error |
| Baskets.WithoutProperty | raffia-core/src/main/java/com/codepoetics/raffia/baskets/Baskets.kt:126 | on an object, the key is then absent and every other key keeps its value; on anything else, the wrong-type error |
| Baskets.WithArrayItem | raffia-core/src/main/java/com/codepoetics/raffia/baskets/Baskets.kt:128 | on an array, appends the item, so the length grows by one and the last item is the new one; on anything else, the wrong-type error |
| Baskets.WithArrayItemAt | raffia-core/src/main/java/com/codepoetics/raffia/baskets/Baskets.kt:130 | on an array with the index in range, the item is then at that index, every other item is unchanged and the length is kept; out of range it is the index error, on a non-array the wrong-type error |
| Baskets.WithoutArrayItem | raffia-core/src/main/java/com/codepoetics/raffia/baskets/Baskets.kt:132 | on an array with the index in range, removes that item and only it: the items before it are unchanged and those after it move down by one; out of range the index error, on a non-array the wrong-type error |
| Baskets.GetProperty | raffia-core/src/main/java/com/codepoetics/raffia/baskets/Baskets.kt:134 | on an object, the value under the key or none; on anything else, the wrong-type error |
| Baskets.GetItem | raffia-core/src/main/java/com/codepoetics/raffia/baskets/Baskets.kt:138 | on an array with the index in range, the item at the index; out of range the index error, on a non-array the wrong-type error |
| Baskets.OfObject | raffia-core/src/main/java/com/codepoetics/raffia/baskets/Baskets.kt:174-183 | builds an object basket whose property set keeps its invariant |
| PropertySets.Get | raffia-core/src/main/java/com/codepoetics/raffia/baskets/PropertySet.kt:36 | a value is found exactly when the key is in the map, and it is the mapped value |
| PropertySets.With | raffia-core/src/main/java/com/codepoetics/raffia/baskets/PropertySet.kt:27-31 | afterwards the key maps to the new value and every other key is unchanged; an existing key keeps the key order, a new key is appended; the set invariant is kept |
| PropertySets.Minus | raffia-core/src/main/java/com/codepoetics/raffia/baskets/PropertySet.kt:40 | afterwards the key is absent from the map and from the key list, every other key is unchanged, and the set invariant is kept |
| PropertySets.RemoveFirstSplices | raffia-core/src/main/java/com/codepoetics/raffia/baskets/PropertySet.kt:40 | removing a key from the key list cuts out its first occurrence and leaves a list without the key unchanged |
| PropertySets.RemoveFirstDistinct | raffia-core/src/main/java/com/codepoetics/raffia/baskets/PropertySet.kt:40 | on a list without repeats, the result has no repeats and holds exactly the other keys |
| PropertySets.Entries | raffia-core/src/main/java/com/codepoetics/raffia/baskets/PropertySet.kt:65-72 | iteration yields one entry per key in key-list order, each with the value stored under its key |
| PropertySets.EntriesRoundTrip | raffia-core/src/main/java/com/codepoetics/raffia/baskets/PropertySet.kt:65-98 | building a set with `of` from the entries a valid set yields gives the same set back: same key order, same mapping |
| PropertySets.EntriesKeys | raffia-core/src/main/java/com/codepoetics/raffia/baskets/PropertySet.kt:65-72 | the keys of a valid set's entries are its key list |
| PropertySets.Of | raffia-core/src/main/java/com/codepoetics/raffia/baskets/PropertySet.kt:88-94 | the loop that fills an insertion-ordered map with the entries yields the set that putting the entries one by one yields, and it is valid |
| PropertySets.OfEntriesLastValueWins | raffia-core/src/main/java/com/codepoetics/raffia/baskets/PropertySet.kt:88-94 | in the built set each key maps to the value of the last entry that names it |
| PropertySets.OfEntriesKeyOrder | raffia-core/src/main/java/com/codepoetics/raffia/baskets/PropertySet.kt:88-98 | the built set's keys are the entry keys in order of their first occurrence |
| PropertySets.OfDistinctEntries | raffia-core/src/main/java/com/codepoetics/raffia/baskets/PropertySet.kt:88-98 | entries with distinct keys give a set with exactly those keys in order, each mapped to its entry's value |
| PropertySets.MapValues | raffia-core/src/main/java/com/codepoetics/raffia/baskets/PropertySet.kt:74-75 | mapping the values rebuilds a valid set through `of` |
| PropertySets.MapValuesKeepsKeys | raffia-core/src/main/java/com/codepoetics/raffia/baskets/PropertySet.kt:74-75 | on a valid set, mapping the values keeps the keys in order and maps the value under every key |
| ArrayContents.Get | raffia-core/src/main/java/com/codepoetics/raffia/baskets/ArrayContents.kt:11 | an index in range gives the item there; any other index is the index-out-of-bounds error |
| ArrayContents.Plus | raffia-core/src/main/java/com/codepoetics/raffia/baskets/ArrayContents.kt:15 | appends: the length grows by one, the old items stay in place and the last item is the new one |
| ArrayContents.Insert | raffia-core/src/main/java/com/codepoetics/raffia/baskets/ArrayContents.kt:17 | inserts at an index from 0 to the size: the item is at the index, the items before it stay, the items from it on shift up by one; another index is the index error |
| ArrayContents.With | raffia-core/src/main/java/com/codepoetics/raffia/baskets/ArrayContents.kt:19 | replaces the item at an index in range and no other, keeping the size; another index is the index error |
| ArrayContents.Minus | raffia-core/src/main/java/com/codepoetics/raffia/baskets/ArrayContents.kt:23 | removes the item at an index in range: the size drops by one and the later items move down; another index is the index error |
| ArrayContents.InsertThenMinus | raffia-core/src/main/java/com/codepoetics/raffia/baskets/ArrayContents.kt:17-23 | removing the item just inserted at an index gives the original contents back |
| ProjectionResults.OfSingle | raffia-core/src/main/java/com/codepoetics/raffia/operations/ProjectionResult.kt:191-194 | a singleton result is valid and holds exactly the one value |
| ProjectionResults.SizeIsLength | raffia-core/src/main/java/com/codepoetics/raffia/operations/ProjectionResult.kt:63-124 | the size of a valid result is the number of values its iterator yields |
| ProjectionResults.EmptyIffNoElements | raffia-core/src/main/java/com/codepoetics/raffia/operations/ProjectionResult.kt:16-17 | a valid result is empty exactly when it yields no values |
| ProjectionResults.AddConcatenates | raffia-core/src/main/java/com/codepoetics/raffia/operations/ProjectionResult.kt:67-143 | adding two valid results gives a valid result whose values are the first's followed by the second's, and whose size is the sum of the sizes |
| ProjectionResults.AddNestedConcatenates | raffia-core/src/main/java/com/codepoetics/raffia/operations/ProjectionResult.kt:138-143 | adding to a nested result (appending a singleton to its last part, or another part) keeps it valid and concatenates the values and sizes |
| ProjectionResults.AddEmptyIdentity | raffia-core/src/main/java/com/codepoetics/raffia/operations/ProjectionResult.kt:67-140 | the empty result is a left and a right identity of add |
| ProjectionResults.AddAssociative | raffia-core/src/main/java/com/codepoetics/raffia/operations/ProjectionResult.kt:93-143 | add is associative up to the values yielded |
| ProjectionResults.AddAllElements | raffia-core/src/main/java/com/codepoetics/raffia/operations/ProjectionResult.kt:93-143 | adding up the results for a sequence of inputs yields, in order, the values of each input's result |
| ProjectionResults.Map | raffia-core/src/main/java/com/codepoetics/raffia/operations/ProjectionResult.kt:69-152 | mapping applies the mapper to every value in order, keeping the size; a singleton maps to a singleton |
| ProjectionResults.Single | raffia-core/src/main/java/com/codepoetics/raffia/operations/ProjectionResult.kt:71-155 | the single value is returned exactly when the result holds one value; the empty result throws NoSuchElementException with the source's message and the multi-valued ones throw IllegalStateException |
| ProjectionResults.ToList | raffia-core/src/main/java/com/codepoetics/raffia/operations/ProjectionResult.kt:157-181 | walking the nested iterator part by part yields exactly the result's values |
| ProjectionResults.Equals | raffia-core/src/main/java/com/codepoetics/raffia/operations/ProjectionResult.kt:36-54 | two results are equal exactly when they yield the same values in the same order, whatever their shapes |
| ProjectionResults.AllMatch | raffia-core/src/main/java/com/codepoetics/raffia/operations/ProjectionResult.kt:21-28 | true exactly when every value satisfies the predicate |
| Updaters.NoOp | raffia-core/src/main/java/com/codepoetics/raffia/operations/Updaters.kt:14 | the identity on every basket |
| Updaters.Branch | raffia-core/src/main/java/com/codepoetics/raffia/operations/Updaters.kt:17-20 | applies the first updater where the predicate holds and the second where it does not |
| Updaters.ToConstant | raffia-core/src/main/java/com/codepoetics/raffia/operations/Updaters.kt:23 | every basket becomes the given value |
| Updaters.OfString | raffia-core/src/main/java/com/codepoetics/raffia/operations/Updaters.kt:26-28 | a string is replaced by the mapped string; any other variant is returned unchanged |
| Updaters.OfNumber | raffia-core/src/main/java/com/codepoetics/raffia/operations/Updaters.kt:31-33 | a number is replaced by the mapped number; any other variant is returned unchanged |
| Updaters.OfBoolean | raffia-core/src/main/java/com/codepoetics/raffia/operations/Updaters.kt:36-38 | true and false are replaced by the basket of the mapped boolean; any other variant is returned unchanged |
| Updaters.OfArray | raffia-core/src/main/java/com/codepoetics/raffia/operations/Updaters.kt:41-43 | an array's contents are mapped; any other variant is returned unchanged |
| Updaters.OfObject | raffia-core/src/main/java/com/codepoetics/raffia/operations/Updaters.kt:46-48 | an object's property set is mapped; any other variant is returned unchanged |
| Updaters.TypedUpdatersKeepType | raffia-core/src/main/java/com/codepoetics/raffia/operations/Updaters.kt:26-48 | none of the five typed updaters changes the type of the basket it is applied to |
| Updaters.Appending | raffia-core/src/main/java/com/codepoetics/raffia/operations/Updaters.kt:51 | an array gets the item appended; a non-array is unchanged |
| Updaters.OfArrayOrFail | raffia-core/src/main/java/com/codepoetics/raffia/operations/Updaters.kt:41-43 | a non-array is unchanged; on an array, the contents operation's result or its exception is passed on |
| Updaters.Inserting | raffia-core/src/main/java/com/codepoetics/raffia/operations/Updaters.kt:54 | on an array, succeeds exactly for an index from 0 to the size, and the item is inserted there; otherwise the index error; a non-array is unchanged |
| Updaters.Replacing | raffia-core/src/main/java/com/codepoetics/raffia/operations/Updaters.kt:57 | on an array, succeeds exactly for an index in range, replacing only that item; otherwise the index error; a non-array is unchanged |
| Updaters.Removing | raffia-core/src/main/java/com/codepoetics/raffia/operations/Updaters.kt:63 | on an array, succeeds exactly for an index in range, removing only that item; otherwise the index error; a non-array is unchanged |
| Updaters.InsertingThenRemoving | raffia-core/src/main/java/com/codepoetics/raffia/operations/Updaters.kt:54-63 | removing at the index where an item was just inserted gives the original basket back |
| Updaters.InsertingKey | raffia-core/src/main/java/com/codepoetics/raffia/operations/Updaters.kt:60 | an object gets the key set to the value; a non-object is unchanged |
| Updaters.RemovingKey | raffia-core/src/main/java/com/codepoetics/raffia/operations/Updaters.kt:66 | an object loses the key; a non-object is unchanged |
| Updaters.InsertingThenRemovingKey | raffia-core/src/main/java/com/codepoetics/raffia/operations/Updaters.kt:60-66 | removing a key just inserted into a valid object that lacked it gives the original object back |
| Updaters.UpdatingIndex | raffia-core/src/main/java/com/codepoetics/raffia/operations/Updaters.kt:69-75 | a negative index counts from the end; an index out of range after that leaves the array unchanged; otherwise only the item there is updated; a non-array is unchanged |
| Updaters.UpdatingKey | raffia-core/src/main/java/com/codepoetics/raffia/operations/Updaters.kt:78-81 | an absent key leaves the object unchanged; a present key has its value updated and nothing else changes; a non-object is unchanged |
| Updaters.UpdatingIndexIsIndexSegment | raffia-core/src/main/java/com/codepoetics/raffia/operations/Updaters.kt:69-75 | updating one index agrees with the index path segment's updater for that single index |
| Updaters.UpdatingKeyIsKeySegment | raffia-core/src/main/java/com/codepoetics/raffia/operations/Updaters.kt:78-81 | updating one key agrees with the key path segment's updater for that single key |
| Segments.MatchesIndex | raffia-core/src/main/java/com/codepoetics/raffia/paths/segments/ArrayIndexPathSegment.kt:58-60 | an index segment binds an index exactly when the index is listed (as written, with no resolution from the end) and otherwise does not match; a slice segment binds an index exactly when start ≤ index < end, comparing the bounds as written (ArraySlicePathSegment.kt:73-75); a wildcard binds every index (WildcardPathSegment.kt:59-61); a deep scan matches every index without binding (DeepScanToObjectKeyPathSegment.kt:72-74); the conditional segment throws UnsupportedOperationException for any index, and it is the only segment that fails (MatchingItemPathSegment.kt:85-87) |
| Segments.MatchesKey | raffia-core/src/main/java/com/codepoetics/raffia/paths/segments/ObjectKeyPathSegment.kt:60-66 | a key segment binds a key exactly when it is listed and never matches an index; a deep scan binds its own key and matches every other key without binding (DeepScanToObjectKeyPathSegment.kt:76-81); a wildcard binds every key (WildcardPathSegment.kt:63-65); the conditional segment throws UnsupportedOperationException for any key (MatchingItemPathSegment.kt:89-91) |
| Segments.Identity | raffia-core/src/main/java/com/codepoetics/raffia/operations/Projectors.kt:18 | the identity projector gives every basket as a singleton result |
| Segments.IdentityFlattens | raffia-core/src/main/java/com/codepoetics/raffia/paths/segments/BasePathSegment.kt:32-38 | adding up the identity projections of some baskets gives back exactly those baskets, in order |
| IndexSegment.SelectedItemsInRange | raffia-core/src/main/java/com/codepoetics/raffia/paths/segments/ArrayIndexPathSegment.kt:45-54 | when every listed index lies within the array (counting negatives from the end), the projector visits exactly the listed items, in listed order |
| IndexSegment.Project | raffia-core/src/main/java/com/codepoetics/raffia/paths/segments/ArrayIndexPathSegment.kt:37-43 | a non-array projects to the empty result |
| IndexSegment.ProjectArray | raffia-core/src/main/java/com/codepoetics/raffia/paths/segments/ArrayIndexPathSegment.kt:45-54 | the loop over the indices adds up the continuation's results for each index that resolves inside the array, in listed order, skipping the others |
| IndexSegment.UpdateItems | raffia-core/src/main/java/com/codepoetics/raffia/paths/segments/ArrayIndexPathSegment.kt:22-31 | the updated contents keep the array's size |
| IndexSegment.Update | raffia-core/src/main/java/com/codepoetics/raffia/paths/segments/ArrayIndexPathSegment.kt:14-20 | a non-array is returned unchanged; an array stays an array of the same size |
| IndexSegment.UpdateArray | raffia-core/src/main/java/com/codepoetics/raffia/paths/segments/ArrayIndexPathSegment.kt:22-31 | the loop over the indices computes the corrected item-by-item update |
| IndexSegment.UpdateItemsApplies | raffia-core/src/main/java/com/codepoetics/raffia/paths/segments/ArrayIndexPathSegment.kt:22-31 | each item is passed through the continuation once per listed index that resolves to it, and items no index names are unchanged |
| IndexSegment.UpdateAsWrittenAgrees | raffia-core/src/main/java/com/codepoetics/raffia/paths/segments/ArrayIndexPathSegment.kt:22-31 | while no index reaches before the start of the array, the loop as written and the corrected loop agree |
| IndexSegment.UpdateItemsAsWritten | raffia-core/src/main/java/com/codepoetics/raffia/paths/segments/ArrayIndexPathSegment.kt:22-31 | the updater as written: each listed index is resolved from the end when negative and checked only against the size, and the item there is replaced by the continuation's result; a resolved index below 0 throws index-out-of-bounds |
| IndexSegment.UpdateAsWrittenThrowsBeforeStart | raffia-core/src/main/java/com/codepoetics/raffia/paths/segments/ArrayIndexPathSegment.kt:25-27 | index -5 on a three-item array: the projector skips it, the updater as written throws index-out-of-bounds for -2, the corrected updater leaves the array unchanged |
| SliceSegment.ActualStart | raffia-core/src/main/java/com/codepoetics/raffia/paths/segments/ArraySlicePathSegment.kt:37-41 | an unbounded start is 0, a negative start counts from the end, and the result is clamped at 0 |
| SliceSegment.ActualEnd | raffia-core/src/main/java/com/codepoetics/raffia/paths/segments/ArraySlicePathSegment.kt:43-47 | the end never passes the array's size; a non-negative bounded end is min(end, size) |
| SliceSegment.SelectedItems | raffia-core/src/main/java/com/codepoetics/raffia/paths/segments/ArraySlicePathSegment.kt:59-69 | the projector visits the items from the actual start up to the actual end, in order, and nothing when the range is empty |
| SliceSegment.Project | raffia-core/src/main/java/com/codepoetics/raffia/paths/segments/ArraySlicePathSegment.kt:51-57 | a non-array projects to the empty result |
| SliceSegment.ProjectArray | raffia-core/src/main/java/com/codepoetics/raffia/paths/segments/ArraySlicePathSegment.kt:59-69 | the loop over the range adds up the continuation's results for the selected items, in order |
| SliceSegment.UpdateItems | raffia-core/src/main/java/com/codepoetics/raffia/paths/segments/ArraySlicePathSegment.kt:22-33 | the corrected updater, with the start clamped at 0 (see Findings): keeps the size; every item inside the range is passed through the continuation and every item outside it is unchanged |
| SliceSegment.Update | raffia-core/src/main/java/com/codepoetics/raffia/paths/segments/ArraySlicePathSegment.kt:14-20 | a non-array is returned unchanged |
| SliceSegment.UpdateArray | raffia-core/src/main/java/com/codepoetics/raffia/paths/segments/ArraySlicePathSegment.kt:22-33 | the loop over the range computes the range update |
| SliceSegment.RangeUpdated | raffia-core/src/main/java/com/codepoetics/raffia/paths/segments/ArraySlicePathSegment.kt:22-33 | the slice update leaves items before the start and from the end on as they were and replaces each item in between by the updater applied to it |
| SliceSegment.ProjectRangeInBounds | raffia-core/src/main/java/com/codepoetics/raffia/paths/segments/ArraySlicePathSegment.kt:59-69 | while every index stays inside the array, the projecting loop adds exactly the items from the start up to the end, in order, and nothing when the range is empty |
| SliceSegment.ProjectRangeAsWritten | raffia-core/src/main/java/com/codepoetics/raffia/paths/segments/ArraySlicePathSegment.kt:65-67 | the projecting loop as written: reads each index from the start up to the end and adds the continuation's result, throwing at the first index outside the array |
| SliceSegment.ProjectAsWritten | raffia-core/src/main/java/com/codepoetics/raffia/paths/segments/ArraySlicePathSegment.kt:59-69 | the projector as written: the loop runs from the unclamped actual start to the actual end |
| SliceSegment.ProjectAsWrittenAgrees | raffia-core/src/main/java/com/codepoetics/raffia/paths/segments/ArraySlicePathSegment.kt:59-69 | while the start does not reach before the array, the loop as written succeeds with the corrected projection |
| SliceSegment.UpdateRangeInBounds | raffia-core/src/main/java/com/codepoetics/raffia/paths/segments/ArraySlicePathSegment.kt:22-33 | while every index stays inside the array, the updating loop as written succeeds, keeps the size, and replaces exactly the items from the start up to the end by the continuation's result |
| SliceSegment.UpdateRangeThrowsBeforeStart | raffia-core/src/main/java/com/codepoetics/raffia/paths/segments/ArraySlicePathSegment.kt:28-30 | a non-empty range starting before the array makes the updating loop as written throw at its first read, at that start index |
| SliceSegment.UpdateRangeAsWritten | raffia-core/src/main/java/com/codepoetics/raffia/paths/segments/ArraySlicePathSegment.kt:28-30 | the updating loop as written: replaces each item from the start up to the end by the continuation's result, reading `updated[i]` and throwing at the first index outside the array |
| SliceSegment.UpdateAsWritten | raffia-core/src/main/java/com/codepoetics/raffia/paths/segments/ArraySlicePathSegment.kt:22-33 | the updater as written: the loop runs from the unclamped actual start to the actual end |
| SliceSegment.UpdateAsWrittenAgrees | raffia-core/src/main/java/com/codepoetics/raffia/paths/segments/ArraySlicePathSegment.kt:22-33 | while the start does not reach before the array, the updater as written succeeds with the corrected update |
| SliceSegment.UpdateBeforeStartThrows | raffia-core/src/main/java/com/codepoetics/raffia/paths/segments/ArraySlicePathSegment.kt:24-29 | start -5 on a three-item array: as written the updater reads index -2 and throws; the corrected update passes all three items through the continuation |
| SliceSegment.SliceBeforeStartThrows | raffia-core/src/main/java/com/codepoetics/raffia/paths/segments/ArraySlicePathSegment.kt:37-41 | start -5 on a three-item array: as written the projector reads index -2 and throws; the corrected selection is the whole array |
| KeySegment.SelectedValues | raffia-core/src/main/java/com/codepoetics/raffia/paths/segments/ObjectKeyPathSegment.kt:47-56 | the projector visits the value of each listed key that is present, in listed order: all of them when all are present, none when none are |
| KeySegment.Project | raffia-core/src/main/java/com/codepoetics/raffia/paths/segments/ObjectKeyPathSegment.kt:39-45 | a non-object projects to the empty result |
| KeySegment.ProjectProperties | raffia-core/src/main/java/com/codepoetics/raffia/paths/segments/ObjectKeyPathSegment.kt:47-56 | the loop over the keys adds up the continuation's results for the present keys, in listed order, skipping absent ones |
| KeySegment.Update | raffia-core/src/main/java/com/codepoetics/raffia/paths/segments/ObjectKeyPathSegment.kt:15-21 | a non-object is returned unchanged |
| KeySegment.UpdateObject | raffia-core/src/main/java/com/codepoetics/raffia/paths/segments/ObjectKeyPathSegment.kt:23-32 | the loop over the keys computes the key-by-key update |
| KeySegment.UpdatePropertiesApplies | raffia-core/src/main/java/com/codepoetics/raffia/paths/segments/ObjectKeyPathSegment.kt:23-32 | the key order is kept, every present listed key is passed through the continuation, every other key keeps its value, and the set invariant is kept |
| WildcardSegment.Project | raffia-core/src/main/java/com/codepoetics/raffia/paths/segments/WildcardPathSegment.kt:39-56 | every array item and every object value, in order, through the continuation; a scalar projects to nothing, as every struct projector does (StructProjector.kt) |
| WildcardSegment.Update | raffia-core/src/main/java/com/codepoetics/raffia/paths/segments/WildcardPathSegment.kt:15-35 | every array item and every object value through the continuation; a scalar is returned as it is, as every struct updater does (StructUpdater.kt) |
| WildcardSegment.ProjectAll | raffia-core/src/main/java/com/codepoetics/raffia/paths/segments/WildcardPathSegment.kt:41-47 | the loop adds up the continuation's results for every item, in order |
| WildcardSegment.ProjectStruct | raffia-core/src/main/java/com/codepoetics/raffia/paths/segments/WildcardPathSegment.kt:39-56 | arrays yield every item and objects every value in key order, each through the continuation; scalars yield nothing |
| WildcardSegment.UpdateArray | raffia-core/src/main/java/com/codepoetics/raffia/paths/segments/WildcardPathSegment.kt:17-25 | every item is passed through the continuation, in order |
| WildcardSegment.UpdateEntries | raffia-core/src/main/java/com/codepoetics/raffia/paths/segments/WildcardPathSegment.kt:27-35 | every value is passed through the continuation and the object is rebuilt from the mapped entries |
| WildcardSegment.UpdateKeepsShape | raffia-core/src/main/java/com/codepoetics/raffia/paths/segments/WildcardPathSegment.kt:15-35 | an array keeps its length, an object its keys and their order with every value mapped, and a scalar is unchanged |
| DeepScanSegment.Project | raffia-core/src/main/java/com/codepoetics/raffia/paths/segments/DeepScanToObjectKeyPathSegment.kt:48-70 | a value under the key goes to the continuation and every other array item and object value is scanned again; a scalar projects to nothing |
| DeepScanSegment.Update | raffia-core/src/main/java/com/codepoetics/raffia/paths/segments/DeepScanToObjectKeyPathSegment.kt:16-46 | a value under the key goes through the continuation and every other array item and object value is scanned again; a scalar is returned as it is |
| DeepScanSegment.ProjectDeep | raffia-core/src/main/java/com/codepoetics/raffia/paths/segments/DeepScanToObjectKeyPathSegment.kt:48-70 | the recursive projector with its loops computes the deep projection: a value under the key goes to the continuation, every other item and value is scanned again |
| DeepScanSegment.UpdateItems | raffia-core/src/main/java/com/codepoetics/raffia/paths/segments/DeepScanToObjectKeyPathSegment.kt:18-26 | an array's items are all updated recursively and their number is kept |
| DeepScanSegment.UpdateEntries | raffia-core/src/main/java/com/codepoetics/raffia/paths/segments/DeepScanToObjectKeyPathSegment.kt:28-44 | the rebuilt entries keep the object's keys in order |
| DeepScanSegment.UpdateDeep | raffia-core/src/main/java/com/codepoetics/raffia/paths/segments/DeepScanToObjectKeyPathSegment.kt:16-46 | the recursive updater with its loops computes the deep update |
| DeepScanSegment.AbsentKeyIsIdentity | raffia-core/src/main/java/com/codepoetics/raffia/paths/segments/DeepScanToObjectKeyPathSegment.kt:16-70 | when no object at any depth has the key, the projection is empty and the update returns the basket unchanged |
| DeepScanSegment.FoundValueIsNotRescanned | raffia-core/src/main/java/com/codepoetics/raffia/paths/segments/DeepScanToObjectKeyPathSegment.kt:32-33 | a value found under the key goes to the continuation as it is, for both projecting and updating, and is not scanned further |
| DeepScanSegment.FoundValueProjected | raffia-core/src/main/java/com/codepoetics/raffia/paths/segments/DeepScanToObjectKeyPathSegment.kt:61-62 | projecting {key: v} gives exactly the continuation's result for v |
| DeepScanSegment.FoundValueUpdated | raffia-core/src/main/java/com/codepoetics/raffia/paths/segments/DeepScanToObjectKeyPathSegment.kt:32-33 | updating {key: v} gives {key: u(v)} |
| DeepScanSegment.UpdateKeepsKeys | raffia-core/src/main/java/com/codepoetics/raffia/paths/segments/DeepScanToObjectKeyPathSegment.kt:28-40 | updating an object keeps its set of keys |
| DeepScanSegment.ProjectValid | raffia-core/src/main/java/com/codepoetics/raffia/paths/segments/DeepScanToObjectKeyPathSegment.kt:48-70 | when the continuation gives well-formed results, so does the deep projection |
| DeepScanSegment.ProjectItemsValid | raffia-core/src/main/java/com/codepoetics/raffia/paths/segments/DeepScanToObjectKeyPathSegment.kt:50-56 | the projection of an array's items is well formed and its elements are those of the items' projections, in order |
| DeepScanSegment.ProjectEntriesValid | raffia-core/src/main/java/com/codepoetics/raffia/paths/segments/DeepScanToObjectKeyPathSegment.kt:58-68 | the projection of an object's values is well formed and its elements are those of the values' projections, in key order |
| MatchingSegment.Filter | raffia-core/src/main/java/com/codepoetics/raffia/paths/segments/MatchingItemPathSegment.kt:65-67 | the items kept are items of the input that pass the predicate, and there are no more of them than of the input |
| MatchingSegment.FilterCounts | raffia-core/src/main/java/com/codepoetics/raffia/paths/segments/MatchingItemPathSegment.kt:65-67 | every item that passes the predicate is kept as many times as it occurs in the input, and no other item is kept |
| MatchingSegment.FilterAppend | raffia-core/src/main/java/com/codepoetics/raffia/paths/segments/MatchingItemPathSegment.kt:65-67 | filtering keeps the input's order: the items kept from a concatenation are those kept from its first part followed by those kept from its second |
| MatchingSegment.Project | raffia-core/src/main/java/com/codepoetics/raffia/paths/segments/MatchingItemPathSegment.kt:61-83 | the items or values that pass the predicate, in order, through the continuation; a scalar projects to nothing |
| MatchingSegment.Update | raffia-core/src/main/java/com/codepoetics/raffia/paths/segments/MatchingItemPathSegment.kt:36-59 | the items or values that pass the predicate go through the continuation and the others are kept; a scalar is returned as it is |
| MatchingSegment.ProjectMatching | raffia-core/src/main/java/com/codepoetics/raffia/paths/segments/MatchingItemPathSegment.kt:63-81 | the loop adds up the continuation's results for the items (or values) that pass the predicate, in order |
| MatchingSegment.UpdateItems | raffia-core/src/main/java/com/codepoetics/raffia/paths/segments/MatchingItemPathSegment.kt:38-47 | keeps the array's size; an item that passes the predicate is passed through the continuation, any other item is unchanged |
| MatchingSegment.UpdateArray | raffia-core/src/main/java/com/codepoetics/raffia/paths/segments/MatchingItemPathSegment.kt:38-47 | the loop computes the item-by-item update |
| MatchingSegment.UpdateProperties | raffia-core/src/main/java/com/codepoetics/raffia/paths/segments/MatchingItemPathSegment.kt:49-57 | the loop over the properties computes the value-by-value update |
| MatchingSegment.UpdateEntriesApplies | raffia-core/src/main/java/com/codepoetics/raffia/paths/segments/MatchingItemPathSegment.kt:49-57 | the object keeps its keys; a value that passes the predicate is passed through the continuation and any other value is unchanged |
| PathProjection.ProjectPath | raffia-core/src/main/java/com/codepoetics/raffia/paths/segments/BasePathSegment.kt:32-38 | each segment projects with the rest of the path as its continuation, the last with the identity; a path of one segment or more projects nothing from a scalar |
| PathProjection.UpdatePath | raffia-core/src/main/java/com/codepoetics/raffia/paths/segments/BasePathSegment.kt:12-20 | each segment updates with the rest of the path as its continuation, the last with the given updater; a path of one segment or more returns a scalar as it is |
| PathProjection.SegmentProjectValid | raffia-core/src/main/java/com/codepoetics/raffia/paths/segments/BasePathSegment.kt:32-38 | when the continuation gives well-formed results, so does every segment's projector |
| PathProjection.ProjectPathValid | raffia-core/src/main/java/com/codepoetics/raffia/paths/segments/BasePathSegment.kt:32-38 | the projector built for any path gives a well-formed result whose size is its number of elements |
| PathProjection.ItemProjector | raffia-core/src/main/java/com/codepoetics/raffia/paths/segments/MatchingItemPathSegment.kt:26-34 | only a conditional segment has an item projector, and other segments throw UnsupportedOperationException with its message; the item projector gives the tail's projection for an item that passes the predicate and the empty result otherwise; every non-conditional segment refuses to create an item projector, with this message (BasePathSegment.kt:26-28) |
| PathProjection.ItemUpdater | raffia-core/src/main/java/com/codepoetics/raffia/paths/segments/MatchingItemPathSegment.kt:18-24 | only a conditional segment has an item updater; it applies the tail's update to an item that passes the predicate and leaves other items unchanged; every non-conditional segment refuses to create an item updater, with this message (BasePathSegment.kt:22-24) |
| Strands.IndicesInBounds | raffia-core/src/main/java/com/codepoetics/raffia/lenses/Strand.kt:91-98 | the indices kept are the listed ones resolved against the size (negatives from the end) that fall inside the array, and every such index is kept |
| Strands.ReplaceAt | raffia-core/src/main/java/com/codepoetics/raffia/lenses/Strand.kt:100-101 | folding `with` over in-bounds positions keeps the size, applies the updater to the original item at each listed position and leaves the others unchanged |
| Strands.IndexGetAgrees | raffia-core/src/main/java/com/codepoetics/raffia/lenses/Strand.kt:83-93 | the index strand's get selects the same items as the index path segment's projector |
| Strands.Range | raffia-core/src/main/java/com/codepoetics/raffia/lenses/Strand.kt:159 | `start until end` is the run of integers from start up to but not including end, empty when end ≤ start |
| Strands.BoundAsWritten | raffia-core/src/main/java/com/codepoetics/raffia/lenses/Strand.kt:162 | the bound as written lands inside the array for a non-empty array and is -1 for an empty one |
| Strands.Bound | raffia-core/src/main/java/com/codepoetics/raffia/lenses/Strand.kt:162 | the corrected bound never passes the size and agrees with the resolved index whenever that lies between 0 and the size |
| Strands.SliceIndices | raffia-core/src/main/java/com/codepoetics/raffia/lenses/Strand.kt:156-160 | the corrected slice indices all lie inside the array and are distinct |
| Strands.SliceIndicesAsWritten | raffia-core/src/main/java/com/codepoetics/raffia/lenses/Strand.kt:156-162 | the slice indices as written: from the bound of the start until the bound of the end, or until the size for an open end, where the bound clamps at size - 1 |
| Strands.SliceAsWrittenDropsLast | raffia-core/src/main/java/com/codepoetics/raffia/lenses/Strand.kt:156-162 | the slice 0:3 of a three-item array gives indices 0 and 1 only, and the open slice of an empty array reads index -1, which throws; the corrected indices are 0, 1, 2 and none |
| Strands.UpdateAt | raffia-core/src/main/java/com/codepoetics/raffia/lenses/Strand.kt:164-167 | folding `with` over distinct in-bounds positions keeps the size, applies the updater at those positions and leaves other items unchanged |
| Strands.SliceGetAgrees | raffia-core/src/main/java/com/codepoetics/raffia/lenses/Strand.kt:151-160 | with the corrected bound, the slice strand's get selects the same items as the slice path segment's projector |
| Strands.KeysInBasket | raffia-core/src/main/java/com/codepoetics/raffia/lenses/Strand.kt:135 | the keys kept are exactly the listed keys the object has |
| Strands.KeyUpdate | raffia-core/src/main/java/com/codepoetics/raffia/lenses/Strand.kt:128-133 | the key strand's update keeps the object's set of keys |
| Strands.KeyGetAgrees | raffia-core/src/main/java/com/codepoetics/raffia/lenses/Strand.kt:123-126 | the key strand's get selects the same values as the key path segment's projector |
| Strands.KeyUpdateAgrees | raffia-core/src/main/java/com/codepoetics/raffia/lenses/Strand.kt:128-133 | the key strand's update is the key path segment's update |
| Strands.DeepGetAgrees | raffia-core/src/main/java/com/codepoetics/raffia/lenses/Strand.kt:196-202 | the deep scan strand's get gives the elements of the deep scan path segment's projection with the identity continuation |
| Strands.DeepGetItemsAgree | raffia-core/src/main/java/com/codepoetics/raffia/lenses/Strand.kt:200 | for an array, item by item |
| Strands.DeepGetEntriesAgree | raffia-core/src/main/java/com/codepoetics/raffia/lenses/Strand.kt:197-199 | for an object, entry by entry |
| Strands.FoundValueIsNotRescanned | raffia-core/src/main/java/com/codepoetics/raffia/lenses/Strand.kt:197-199 | on {key: v} the deep scan strand gives exactly v, whatever v holds |
| Strands.Get | raffia-core/src/main/java/com/codepoetics/raffia/lenses/Strand.kt:23 | the values each strand reaches, in order: the root reaches the basket, a composed strand the second strand's values from each of the first's; `..*` uses the corrected get and slices the corrected bound (see Findings) |
| Strands.Update | raffia-core/src/main/java/com/codepoetics/raffia/lenses/Strand.kt:25 | each strand's update: the root applies the updater, a composed strand updates through the first with the second's update; `..*` uses the corrected update and slices the corrected bound |
| Strands.Set | raffia-core/src/main/java/com/codepoetics/raffia/lenses/Strand.kt:27 | `set` is the update with the updater that gives the new value |
| Strands.GetSingle | raffia-core/src/main/java/com/codepoetics/raffia/lenses/Strand.kt:42 | succeeds exactly when get gives one basket, and then gives that basket; no basket throws NoSuchElementException("Sequence is empty."), several throw IllegalArgumentException("Sequence has more than one element.") |
| Strands.RootIsUnit | raffia-core/src/main/java/com/codepoetics/raffia/lenses/Strand.kt:64-77 | composing with the root strand on either side changes neither get nor update |
| Strands.ComposeAssociative | raffia-core/src/main/java/com/codepoetics/raffia/lenses/Strand.kt:72-77 | the way composed strands are grouped does not change what get gives |
| Strands.GetComposed | raffia-core/src/main/java/com/codepoetics/raffia/lenses/Strand.kt:75 | a composed strand's get is the first strand's results, each fed to the second, concatenated in order |
| Strands.IndexStrandLaws | raffia-core/src/main/java/com/codepoetics/raffia/lenses/Strand.kt:80-106 | on an array the index strand gets the selected items and updates the in-bounds positions; on anything else it gets nothing and leaves the basket unchanged |
| Strands.KeyStrandLaws | raffia-core/src/main/java/com/codepoetics/raffia/lenses/Strand.kt:120-135 | on an object the key strand gets the present listed values, keeps the keys, and updates exactly the present listed keys |
| Strands.SliceStrandLaws | raffia-core/src/main/java/com/codepoetics/raffia/lenses/Strand.kt:148-169 | with the corrected bound, on an array the slice strand gets the slice segment's items and updates exactly the items in range |
| Strands.ConditionalStrandLaws | raffia-core/src/main/java/com/codepoetics/raffia/lenses/Strand.kt:172-189 | a scalar is got and updated only when it passes the predicate; an array or object is got and updated as the matching path segment does |
| Strands.WildcardStrandLaws | raffia-core/src/main/java/com/codepoetics/raffia/lenses/Strand.kt:213-226 | a scalar is itself the single result and is updated directly; an array or object gives its children and is updated as the wildcard path segment does |
| Strands.DeepScanStrandLaws | raffia-core/src/main/java/com/codepoetics/raffia/lenses/Strand.kt:193-210 | the deep scan strand gets and updates as the deep scan path segment does |
| Strands.SetThenGetKey | raffia-core/src/main/java/com/codepoetics/raffia/lenses/Strand.kt:27 | after setting a present key to v, getting that key gives exactly v, and getSingle gives v |
| Strands.DeepAllRevisitsScalars | raffia-core/src/main/java/com/codepoetics/raffia/lenses/Strand.kt:233-238 | as written, a scalar inside an array is reached twice: once as an item and once as the get of itself |
| Strands.DeepAllUpdateSkipsNestedValues | raffia-core/src/main/java/com/codepoetics/raffia/lenses/Strand.kt:241-244 | as written, the update leaves a scalar inside a nested object untouched although the get reaches it |
| Strands.BelowCountsEachOnce | raffia-core/src/main/java/com/codepoetics/raffia/lenses/Strand.kt:233-238 | the corrected get below a value reaches exactly as many values as lie strictly inside it, so none twice |
| Strands.DeepAllCountsLeavesTwice | raffia-core/src/main/java/com/codepoetics/raffia/lenses/Strand.kt:233-238 | on an array of one scalar the get as written reaches one value more than the tree holds below its root, the corrected get exactly that many |
| Strands.DeepAll | raffia-core/src/main/java/com/codepoetics/raffia/lenses/Strand.kt:233-238 | the get as written: a container's children, then the get of each child; a scalar is its own single result |
| Strands.DeepAllUpdate | raffia-core/src/main/java/com/codepoetics/raffia/lenses/Strand.kt:241-245 | the update as written: an array item is updated below and then by the updater, an object value only by the updater, a scalar by the updater |
| Strands.UpdateBelow | raffia-core/src/main/java/com/codepoetics/raffia/lenses/Strand.kt:241-244 | every value strictly inside a container updated once, innermost first, array items and object values alike; the container itself is left as it is |
| Strands.DeepAllUpdateCorrected | raffia-core/src/main/java/com/codepoetics/raffia/lenses/Strand.kt:241-245 | the corrected update: a container has every value below it updated once; a scalar at the root is updated itself |
| Strands.ChildUpdatedOnce | raffia-core/src/main/java/com/codepoetics/raffia/lenses/Strand.kt:242 | for an updater that keeps containers, a child updated below and then by the updater is that child put through the corrected update, and is a container exactly when the child was |
| Strands.UpdateBelowReachesOnce | raffia-core/src/main/java/com/codepoetics/raffia/lenses/Strand.kt:241-244 | for an updater that keeps containers and maps scalars to scalars, the values reached below the updated container are, position by position, the values reached before, each put through the corrected update |
| Strands.UpdateBelowItems | raffia-core/src/main/java/com/codepoetics/raffia/lenses/Strand.kt:242 | the same for the first n items of an array, position by position |
| Strands.UpdateBelowEntries | raffia-core/src/main/java/com/codepoetics/raffia/lenses/Strand.kt:243 | the same for the first n values of an object, in key order |
| Strands.DeepAllUpdateOnce | raffia-core/src/main/java/com/codepoetics/raffia/lenses/Strand.kt:241-245 | any updater is applied once to each scalar item of an array of scalars; for an updater that keeps containers, getting after updating gives, in order, each value got before put through the update |
| Strands.DeepAllUpdateTwice | raffia-core/src/main/java/com/codepoetics/raffia/lenses/Strand.kt:242-244 | as written a scalar item x comes back as u(u(x)), while the corrected update gives u(x); with the negating updater `[true]` stays `[true]` as written and becomes `[false]` corrected |
| Strands.DeepAllUpdateReachesEveryScalar | raffia-core/src/main/java/com/codepoetics/raffia/lenses/Strand.kt:241-244 | the corrected update reaches every scalar at any depth, inside arrays and objects alike: with the nulling updater no other scalar is left |
| Strands.DeepWildcardStrandLaws | raffia-core/src/main/java/com/codepoetics/raffia/lenses/Strand.kt:230-247 | at a scalar the `..*` strand acts as the root strand; at a container it first reaches what the wildcard strand reaches and in all reaches each value below once; its update applies any updater once to each scalar item of an array, and for an updater that keeps containers, getting after updating gives each value got before put through the update |
| StrandPaths.IntToString | raffia-core/src/main/java/com/codepoetics/raffia/lenses/Strand.kt:81 | an integer is printed as an optional minus sign followed by digits |
| StrandPaths.IndexStrings | raffia-core/src/main/java/com/codepoetics/raffia/lenses/Strand.kt:81 | each index is printed as its decimal text |
| StrandPaths.QuotedKeys | raffia-core/src/main/java/com/codepoetics/raffia/lenses/Strand.kt:121 | each key of a multi-key strand is printed between single quotes |
| StrandPaths.SlicePathAsWritten | raffia-core/src/main/java/com/codepoetics/raffia/lenses/Strand.kt:149 | the slice path as written: the start (left out when 0), a colon, and the end (left out when open), with no brackets |
| PathParser.TrimStart | raffia-core/src/main/java/com/codepoetics/raffia/lenses/PathParser.kt:17 | the leading characters removed are all blank and the result starts with a non-blank character |
| PathParser.TrimEnd | raffia-core/src/main/java/com/codepoetics/raffia/lenses/PathParser.kt:17 | the trailing characters removed are all blank and the result ends with a non-blank character |
| PathParser.Trim | raffia-core/src/main/java/com/codepoetics/raffia/lenses/PathParser.kt:68 | the result starts and ends with a non-blank character, and text with no blank ends is unchanged |
| PathParser.Substring | raffia-core/src/main/java/com/codepoetics/raffia/lenses/PathParser.kt:81 | succeeds exactly when 0 ≤ begin ≤ end ≤ length and then gives those characters; otherwise StringIndexOutOfBoundsException |
| PathParser.Split | raffia-core/src/main/java/com/codepoetics/raffia/lenses/PathParser.kt:92 | the pieces contain no separator and there is at least one |
| PathParser.DropTrailingEmpty | raffia-core/src/main/java/com/codepoetics/raffia/lenses/PathParser.kt:92 | only trailing empty pieces are dropped, and the last piece kept is non-empty |
| PathParser.KeyRun | raffia-core/src/main/java/com/codepoetics/raffia/lenses/PathParser.kt:11-12 | the key pattern takes the longest run of letters, digits, '-' and '_' |
| PathParser.BracketRun | raffia-core/src/main/java/com/codepoetics/raffia/lenses/PathParser.kt:13 | the index pattern takes everything up to the first ']' |
| PathParser.ParseInt | raffia-core/src/main/java/com/codepoetics/raffia/lenses/PathParser.kt:84-85 | a non-negative integer literal within 32 bits reads as its value; every failure is a NumberFormatException for the text |
| PathParser.ParseIndexExpression | raffia-core/src/main/java/com/codepoetics/raffia/lenses/PathParser.kt:71-89 | a successful read gives an index, key or slice strand |
| PathParser.ParseMultiIndexExpression | raffia-core/src/main/java/com/codepoetics/raffia/lenses/PathParser.kt:91-98 | a comma list gives an index or key strand |
| PathParser.TrimAll | raffia-core/src/main/java/com/codepoetics/raffia/lenses/PathParser.kt:122-125 | every entry is trimmed |
| PathParser.Unquote | raffia-core/src/main/java/com/codepoetics/raffia/lenses/PathParser.kt:121-122 | the key list has one key per entry |
| PathParser.ParseIndices | raffia-core/src/main/java/com/codepoetics/raffia/lenses/PathParser.kt:124-130 | the index list has one index per entry |
| PathParser.ParseRangeExpression | raffia-core/src/main/java/com/codepoetics/raffia/lenses/PathParser.kt:100-119 | a successful read gives a slice strand |
| PathParser.UnquoteSucceeds | raffia-core/src/main/java/com/codepoetics/raffia/lenses/PathParser.kt:121-122 | unquoting fails exactly when an entry is shorter than two characters |
| PathParser.UnquoteValues | raffia-core/src/main/java/com/codepoetics/raffia/lenses/PathParser.kt:121-122 | each key is the entry without its first and last character, trimmed |
| PathParser.ParseIndicesEntry | raffia-core/src/main/java/com/codepoetics/raffia/lenses/PathParser.kt:124-130 | every entry of a successful index list is an integer literal read as its index |
| PathParser.ParseIndicesRejects | raffia-core/src/main/java/com/codepoetics/raffia/lenses/PathParser.kt:126-127 | one entry that is not an integer literal makes the whole list fail |
| PathParser.SingleIndexExpression | raffia-core/src/main/java/com/codepoetics/raffia/lenses/PathParser.kt:84-85 | a lone integer literal gives a single-index strand, or the number-format error |
| PathParser.IndexListExpression | raffia-core/src/main/java/com/codepoetics/raffia/lenses/PathParser.kt:91-97 | a comma list whose first entry is not quoted is read as indices |
| PathParser.KeyListExpression | raffia-core/src/main/java/com/codepoetics/raffia/lenses/PathParser.kt:91-95 | a comma list whose first entry starts with a quote is read as keys |
| PathParser.UnrecognisedIndexExpression | raffia-core/src/main/java/com/codepoetics/raffia/lenses/PathParser.kt:88 | anything else is refused with "Unrecognised index expression: " and the expression |
| PathParser.QuotedKeyExpression | raffia-core/src/main/java/com/codepoetics/raffia/lenses/PathParser.kt:80-82 | a quoted expression gives the key strand of the text between the quotes |
| PathParser.EmptyIndexList | raffia-core/src/main/java/com/codepoetics/raffia/lenses/PathParser.kt:92-93 | a list of commas alone reads past its end (index 0 of an empty array) |
| PathParser.LoneColonRange | raffia-core/src/main/java/com/codepoetics/raffia/lenses/PathParser.kt:101-103 | ":" is refused as a range |
| PathParser.OpenStartRange | raffia-core/src/main/java/com/codepoetics/raffia/lenses/PathParser.kt:105-107 | ":n" is the slice from 0 to n |
| PathParser.OpenEndRange | raffia-core/src/main/java/com/codepoetics/raffia/lenses/PathParser.kt:109-111 | "n:" is the slice from n with no end |
| PathParser.MalformedRange | raffia-core/src/main/java/com/codepoetics/raffia/lenses/PathParser.kt:113-116 | a range that does not split into two bounds is refused with the expression in the message |
| PathParser.RangeExpression | raffia-core/src/main/java/com/codepoetics/raffia/lenses/PathParser.kt:76-78 | an expression with a colon and no comma is read as a range |
| PathParser.TwoBoundRange | raffia-core/src/main/java/com/codepoetics/raffia/lenses/PathParser.kt:113-118 | "m:n" is the slice from m to n |
| PathParser.NextToken | raffia-core/src/main/java/com/codepoetics/raffia/lenses/PathParser.kt:32-66 | a recognised token covers a non-empty prefix of the remaining text; otherwise "Unrecognised path segment: " and the remaining text |
| PathParser.TokenSegment | raffia-core/src/main/java/com/codepoetics/raffia/lenses/PathParser.kt:40-49 | a strand uses a prefix of the predicates; "[?]" takes exactly the first predicate, and with none left fails with "Predicate expression without matching predicate" |
| PathParser.WildcardTokenAt | raffia-core/src/main/java/com/codepoetics/raffia/lenses/PathParser.kt:32-38 | ".*" and "[*]" are the wildcard |
| PathParser.ConditionalTokenAt | raffia-core/src/main/java/com/codepoetics/raffia/lenses/PathParser.kt:40 | "[?]" is the conditional token |
| PathParser.KeyTokenAt | raffia-core/src/main/java/com/codepoetics/raffia/lenses/PathParser.kt:51-55 | "." followed by key characters is a key token of the whole run |
| PathParser.DeepScanTokenAt | raffia-core/src/main/java/com/codepoetics/raffia/lenses/PathParser.kt:57-61 | ".." followed by key characters is a deep scan token of the whole run |
| PathParser.IndexTokenAt | raffia-core/src/main/java/com/codepoetics/raffia/lenses/PathParser.kt:63-68 | "[" body "]" is an index token of the body |
| PathParser.ParseRemaining | raffia-core/src/main/java/com/codepoetics/raffia/lenses/PathParser.kt:24-69 | a successful parse uses up the predicates exactly and in order and builds a chain of strands; predicates left at the end give "Unmatched predicate" |
| PathParser.ParseSegment | raffia-core/src/main/java/com/codepoetics/raffia/lenses/PathParser.kt:45-68 | each parsed strand is composed onto those before it, with its predicates used |
| PathParser.ParseRemainingStep | raffia-core/src/main/java/com/codepoetics/raffia/lenses/PathParser.kt:32-68 | after a token, parsing goes on with its strand composed on and its text and predicates consumed |
| PathParser.ParseRemainingFails | raffia-core/src/main/java/com/codepoetics/raffia/lenses/PathParser.kt:41-43 | a token whose strand cannot be built stops the parse with that error |
| PathParser.Parse | raffia-core/src/main/java/com/codepoetics/raffia/lenses/PathParser.kt:16-22 | a parse succeeds only for a trimmed path starting with $ or @ and yields a chain using all the predicates; otherwise "Path string must begin with $ or @" |
| PathParser.TrimUnicodeSpaces | raffia-core/src/main/java/com/codepoetics/raffia/lenses/PathParser.kt:17 | trimming strips Unicode spaces and separators, non-breaking spaces included, as Kotlin's `trim` does |
| PathParser.PaddedRoot | raffia-core/src/main/java/com/codepoetics/raffia/lenses/PathParser.kt:16-22 | a root path padded with a non-breaking space, an ideographic space and a line separator parses as the path itself |
| PathParser.ParseFromRoot | raffia-core/src/main/java/com/codepoetics/raffia/lenses/PathParser.kt:16-22 | a path that begins with $ and has no blank end is parsed from the character after the $ |
| PathParser.UnrecognisedSegment | raffia-core/src/main/java/com/codepoetics/raffia/lenses/PathParser.kt:63-66 | a segment starting with anything but '.' or '[' is refused with the remaining text |
| PathRoundTrip.ParseIntOfString | raffia-core/src/main/java/com/codepoetics/raffia/lenses/PathParser.kt:84-85 | every 32-bit integer's printed text reads back as that integer |
| PathRoundTrip.SplitJoin | raffia-core/src/main/java/com/codepoetics/raffia/lenses/PathParser.kt:92 | splitting joined pieces that hold no separator gives the pieces back |
| PathRoundTrip.IndexExpressionOfPath | raffia-core/src/main/java/com/codepoetics/raffia/lenses/PathParser.kt:71-98 | the printed index list of an index strand reads back as that strand |
| PathRoundTrip.KeyListOfPath | raffia-core/src/main/java/com/codepoetics/raffia/lenses/PathParser.kt:91-95 | the printed list of two or more printable keys reads back as that key strand |
| PathRoundTrip.UnquoteKeys | raffia-core/src/main/java/com/codepoetics/raffia/lenses/PathParser.kt:121-122 | unquoting the quoted keys gives the keys back |
| PathRoundTrip.SliceExpressionOfPath | raffia-core/src/main/java/com/codepoetics/raffia/lenses/PathParser.kt:100-119 | the printed range of a slice strand (corrected printing) reads back as that slice |
| PathRoundTrip.TokenOfPath | raffia-core/src/main/java/com/codepoetics/raffia/lenses/PathParser.kt:32-68 | the printed path of a printable strand is read as exactly one token, whatever segment follows |
| PathRoundTrip.SegmentOfToken | raffia-core/src/main/java/com/codepoetics/raffia/lenses/PathParser.kt:40-68 | that token gives back the strand and uses its predicates |
| PathRoundTrip.ParseChain | raffia-core/src/main/java/com/codepoetics/raffia/lenses/PathParser.kt:24-69 | parsing the printed paths of a chain of printable strands composes exactly those strands, using their predicates in order |
| PathRoundTrip.ParsePrintedPath | raffia-core/src/main/java/com/codepoetics/raffia/lenses/Strand.kt:65-214 | the path string of a composed chain of printable strands parses back to the same strand |
| PathRoundTrip.SlicePathAsWrittenDoesNotParse | raffia-core/src/main/java/com/codepoetics/raffia/lenses/Strand.kt:149 | as written, the slice 0:3 prints as ":3" with no brackets, and "$:3" is refused as an unrecognised path segment |
| PathRoundTrip.OpenSlicePathAsWrittenDoesNotParse | raffia-core/src/main/java/com/codepoetics/raffia/lenses/Strand.kt:149 | as written, the slice with start 0 and no end prints as ":", and "$[:]" is refused as an illegal range |
| TokenStreams.ScalarToken | raffia-core/src/main/java/com/codepoetics/raffia/streaming/PathAwareWriter.kt:77-81 | a scalar basket is written as one value token, never a begin, end or key token |
| TokenStreams.FeedAppend | raffia-core/src/main/java/com/codepoetics/raffia/streaming/PathAwareWriter.kt:38-51 | feeding two token streams one after the other is feeding their concatenation |
| TokenStreams.WriteToFeeds | raffia-core/src/main/java/com/codepoetics/raffia/streaming/PathAwareWriter.kt:74-89 | writing a basket to a state machine is feeding it the basket's token stream: a scalar's value token, or begin, the items (or each key followed by its value) and end |
| TokenStreams.WriteItemsFeed | raffia-core/src/main/java/com/codepoetics/raffia/streaming/PathAwareWriter.kt:82-84 | the fold over an array's items feeds the items' tokens in order |
| TokenStreams.WriteEntriesFeed | raffia-core/src/main/java/com/codepoetics/raffia/streaming/PathAwareWriter.kt:85-87 | the fold over an object's properties feeds each key token and then the value's tokens, in key order |
| TokenStreams.TokensNested | raffia-core/src/main/java/com/codepoetics/raffia/streaming/PathAwareWriter.kt:74-89 | every basket's token stream is balanced and closed: it starts with a begin token exactly when the basket is an array or object, and then ends with the end token |
| Positions.Depth | raffia-core/src/main/java/com/codepoetics/raffia/streaming/PathAwareWriter.kt:94-131 | the empty position is at depth -1 and every other position is one deeper than its outer position |
| Positions.Inc32 | raffia-core/src/main/java/com/codepoetics/raffia/streaming/PathAwareWriter.kt:113 | the index increment is a 32-bit increment that wraps from Int.MAX_VALUE to Int.MIN_VALUE |
| Positions.Inc32Counts | raffia-core/src/main/java/com/codepoetics/raffia/streaming/PathAwareWriter.kt:113 | incrementing the 32-bit form of n gives the 32-bit form of n + 1 |
| Positions.Exit | raffia-core/src/main/java/com/codepoetics/raffia/streaming/PathAwareWriter.kt:102-118 | leaving the empty position throws IllegalStateException("exit() called on empty position"); leaving any other goes one level out |
| Positions.KeyAt | raffia-core/src/main/java/com/codepoetics/raffia/streaming/PathAwareWriter.kt:104-120 | a key can be set only on an object position, where it replaces the key and keeps the outer position; on the empty or an array position it throws the matching IllegalStateException |
| Positions.Advance | raffia-core/src/main/java/com/codepoetics/raffia/streaming/PathAwareWriter.kt:105-121 | moving on keeps the depth and the outer position: the empty position stays, an array index goes up by one, an object position forgets its key |
| Positions.EnterArray | raffia-core/src/main/java/com/codepoetics/raffia/streaming/PathAwareWriter.kt:130 | entering an array goes one level deeper at index 0, and leaving it comes back to the same position |
| Positions.EnterObject | raffia-core/src/main/java/com/codepoetics/raffia/streaming/PathAwareWriter.kt:131 | entering an object goes one level deeper with no key, and leaving it comes back to the same position |
| Positions.CheckAgainst | raffia-core/src/main/java/com/codepoetics/raffia/streaming/PathAwareWriter.kt:106-124 | the empty position and an object position with no key are unmatched; otherwise the segment is asked to match the index or the key |
| Positions.PositionStep | raffia-core/src/main/java/com/codepoetics/raffia/streaming/PathAwareWriter.kt:148-156 | fails exactly on an end token at the empty position or a key token away from an object position; otherwise the depth changes by one level per begin and end token, end leaves and moves on, and a value token moves on |
| Positions.DepthIsLevel | raffia-core/src/main/java/com/codepoetics/raffia/streaming/PathAwareWriter.kt:148-156 | after any token stream the position is as deep as the stream's nesting level, until a step fails |
| Positions.WalkBasket | raffia-core/src/main/java/com/codepoetics/raffia/streaming/PathAwareWriter.kt:74-89 | walking over a basket's whole token stream leaves the position one step on from where it started |
| Positions.WalkTokens | raffia-core/src/main/java/com/codepoetics/raffia/streaming/PathAwareWriter.kt:148-156 | the same, writing the basket with `writeTo` |
| Positions.WalkItems | raffia-core/src/main/java/com/codepoetics/raffia/streaming/PathAwareWriter.kt:82-84 | walking over n items from index 0 leaves the array position at index n (wrapped to 32 bits) |
| Positions.WalkEntries | raffia-core/src/main/java/com/codepoetics/raffia/streaming/PathAwareWriter.kt:85-87 | walking over an object's entries leaves the object position with no key |
| PathBinding.FromPath | raffia-core/src/main/java/com/codepoetics/raffia/streaming/PathAwareWriter.kt:165-167 | the binding starts with no outer frame at depth -1; it is complete for the empty path and otherwise partial with the whole path remaining |
| PathBinding.Bind | raffia-core/src/main/java/com/codepoetics/raffia/streaming/PathAwareWriter.kt:182-186 | the empty position leaves the binding as it is; the only failure is the null dereference of a missing outer frame |
| PathBinding.ComparePartial | raffia-core/src/main/java/com/codepoetics/raffia/streaming/PathAwareWriter.kt:188-194 | a conditional head gives a conditional frame at the position's depth; otherwise an unmatched head deviates, an unbound match keeps the state, and a bound match moves on to the tail |
| PathBinding.BoundCase | raffia-core/src/main/java/com/codepoetics/raffia/streaming/PathAwareWriter.kt:196-198 | a bound head pushes a frame at the position's depth: complete when the tail is empty, partial with the tail otherwise |
| PathBinding.BindPopsThenPushes | raffia-core/src/main/java/com/codepoetics/raffia/streaming/PathAwareWriter.kt:182-198 | from stacked frames and inside a container, binding pops every frame at the position's depth or deeper, never dereferences a missing frame, and then keeps the surviving frame or pushes one frame at the position's depth; only a partial frame pushes |
| PositionTracking.Start | raffia-core/src/main/java/com/codepoetics/raffia/streaming/PathAwareWriter.kt:209 | tracking starts at the empty position with the path's initial binding, at a binding point |
| PositionTracking.Track | raffia-core/src/main/java/com/codepoetics/raffia/streaming/PathAwareWriter.kt:216-221 | the position moves on first and the binding is brought to the new position; a failing position step is the step's failure |
| PositionTracking.TrackKeepsRooted | raffia-core/src/main/java/com/codepoetics/raffia/streaming/PathAwareWriter.kt:216-221 | tracking fails only when the position step does, and keeps the binding frames stacked by depth |
| PositionTracking.TrackingFollowsPosition | raffia-core/src/main/java/com/codepoetics/raffia/streaming/PathAwareWriter.kt:216-221 | over any token stream, tracking succeeds exactly when the position walk does, and ends at the position the walk reaches |
| PositionTracking.EmptyPathStaysComplete | raffia-core/src/test/java/com/codepoetics/raffia/streaming/PathAwareWriterTest.java:61-73 | with the empty path the binding stays complete whatever tokens arrive |
| PositionTracking.PositionTrackingState.FromPath | raffia-core/src/main/java/com/codepoetics/raffia/streaming/PathAwareWriter.kt:209 | the state starts from the path's initial tracking state |
| PositionTracking.PositionTrackingState.Receive | raffia-core/src/main/java/com/codepoetics/raffia/streaming/PathAwareWriter.kt:216-221 | a token moves the position and then the binding in place, as `Track` does; a failing step leaves the binding as it was |
| PositionTracking.PositionAwareStep | raffia-core/src/main/java/com/codepoetics/raffia/streaming/PathAwareWriter.kt:248-257 | the tracking state moves on first; the interpreter sees the new tracking state with the token, and its output drives the downstream state machine |
| PositionTracking.ConditionalPathExample | raffia-core/src/test/java/com/codepoetics/raffia/streaming/PathAwareWriterTest.java:75-87 | binding "$[?]": entering the array and passing its items is conditional, and it stays conditional after the end |
| PositionTracking.PositionWalkExample | raffia-core/src/test/java/com/codepoetics/raffia/streaming/PathAwareWriterTest.java:40-55 | the positions printed by the test: [0], [0].?, [0].foo, [0].foo[0], [0].foo[1], [0].?, [0].bar, [0].?, [1] and the empty position |
| PositionTracking.PartialMatchFirstItem | raffia-core/src/test/java/com/codepoetics/raffia/streaming/PathAwareWriterTest.java:97-100 | binding "$[1].bar": the first item and its contents deviate; reaching index 1 leaves ".bar" partial |
| PositionTracking.PartialMatchSecondItem | raffia-core/src/test/java/com/codepoetics/raffia/streaming/PathAwareWriterTest.java:101-104 | in the second item, another key and its value deviate and the key "bar" completes the binding |
| PositionTracking.PartialMatchInsideBinding | raffia-core/src/test/java/com/codepoetics/raffia/streaming/PathAwareWriterTest.java:105-106 | inside the bound value the binding stays complete, and leaving it deviates |
| PositionTracking.PartialMatchAfterBinding | raffia-core/src/test/java/com/codepoetics/raffia/streaming/PathAwareWriterTest.java:107-110 | after the bound value, everything up to the end of the stream deviates |
| Updating.UpdatingInterpreter | raffia-core/src/main/java/com/codepoetics/raffia/streaming/PathAwareWriter.kt:277-295 | outside a complete or conditional binding every token passes through; at the binding point a complete binding starts updating with the updater and a conditional one with the item updater of its path; below it, an end token ends updating and any other continues it |
| Updating.Initial | raffia-core/src/main/java/com/codepoetics/raffia/streaming/PathAwareWriter.kt:318 | the updater state starts passing through to the given downstream state |
| Updating.Buffer | raffia-core/src/main/java/com/codepoetics/raffia/streaming/PathAwareWriter.kt:308 | buffering writes the token to the weaver, and fails exactly as the weaver does |
| Updating.Flush | raffia-core/src/main/java/com/codepoetics/raffia/streaming/PathAwareWriter.kt:309-311 | flushing writes the updated woven basket to the downstream state, and fails exactly when the weaver holds no finished value |
| Updating.UpdaterStep | raffia-core/src/main/java/com/codepoetics/raffia/streaming/PathAwareWriter.kt:326-353 | each of the four mismatches of token and state throws its IllegalStateException; passing through forwards the token downstream; a buffering state keeps its downstream state; only PassThrough and EndUpdating leave the state passing through |
| Updating.PassingThroughForwards | raffia-core/src/main/java/com/codepoetics/raffia/streaming/PathAwareWriter.kt:329-330 | passing a stream through writes exactly that stream to the downstream state machine |
| Updating.BufferingWeaves | raffia-core/src/main/java/com/codepoetics/raffia/streaming/PathAwareWriter.kt:337-338 | continuing to update writes the stream to the weaver and nothing downstream, failing with the weaver's first exception |
| Updating.UpdatesWholeBasket | raffia-core/src/main/java/com/codepoetics/raffia/streaming/PathAwareWriter.kt:333-351 | starting with a basket's first token, continuing with the rest and then ending writes the updated basket downstream and passes through again |
| Updating.Terminal | raffia-core/src/main/java/com/codepoetics/raffia/streaming/PathAwareWriter.kt:362-366 | the filter's result is the downstream state when passing through, and otherwise IllegalStateException("Illegal terminal state") |
| Updating.FilterStep | raffia-core/src/main/java/com/codepoetics/raffia/streaming/PathAwareWriter.kt:356-360 | one token of the updating filter: tracking moves on, the updating interpreter reads the new tracking state, and the updater state machine takes its output |
| Updating.ScalarAtRootIsNeverFlushed | raffia-core/src/main/java/com/codepoetics/raffia/streaming/PathAwareWriter.kt:277-283 | with the empty path, a lone scalar starts updating and nothing ever ends it, so the filter's result is the terminal-state exception |
| ProjectingFilter.ProjectingInterpreter | raffia-core/src/main/java/com/codepoetics/raffia/streaming/ProjectingFilter.kt:26-45 | outside a complete or conditional binding nothing is done; at the binding point an end token does nothing, and any other token starts projecting with the identity projector (complete) or the item projector of the path (conditional); below it, every token continues the projection |
| ProjectingFilter.Initial | raffia-core/src/main/java/com/codepoetics/raffia/streaming/ProjectingFilter.kt:113-114 | the projector state starts doing nothing, with the given downstream state |
| ProjectingFilter.FoldAppend | raffia-core/src/main/java/com/codepoetics/raffia/streaming/ProjectingFilter.kt:109 | folding two runs of baskets one after the other is folding their concatenation |
| ProjectingFilter.CollectAppends | raffia-core/src/main/java/com/codepoetics/raffia/streaming/Filters.kt:43-44 | the downstream state machine of `projecting(lens)` appends the handed baskets to the result, in order |
| ProjectingFilter.Flush | raffia-core/src/main/java/com/codepoetics/raffia/streaming/ProjectingFilter.kt:108-109 | flushing folds the projections of the woven basket into the downstream state, and fails exactly when the weaver holds no finished value |
| ProjectingFilter.ReceiveDownstreamToken | raffia-core/src/main/java/com/codepoetics/raffia/streaming/ProjectingFilter.kt:80-106 | the token goes to the weaver and fails as the weaver does; the depth counts begins and ends, and the state goes back to doing nothing, with the basket flushed, exactly when the depth returns to 0 |
| ProjectingFilter.Receive | raffia-core/src/main/java/com/codepoetics/raffia/streaming/ProjectingFilter.kt:55-74 | each of the three mismatches of token and state throws its IllegalStateException; DoNothing while doing nothing changes nothing; buffering keeps the downstream state |
| ProjectingFilter.StartIsContinueFromFresh | raffia-core/src/main/java/com/codepoetics/raffia/streaming/ProjectingFilter.kt:60-62 | starting a projection is continuing one from a fresh weaver at depth 0 |
| ProjectingFilter.BufferingWeaves | raffia-core/src/main/java/com/codepoetics/raffia/streaming/ProjectingFilter.kt:69-106 | while some container stays open, continuing writes the stream to the weaver and hands nothing downstream |
| ProjectingFilter.ProjectsWholeBasket | raffia-core/src/main/java/com/codepoetics/raffia/streaming/ProjectingFilter.kt:80-109 | the tokens of a whole basket, from a fresh weaver at depth 0, hand exactly the basket's projections downstream, in order, and end doing nothing |
| ProjectingFilter.FlushesAtClose | raffia-core/src/main/java/com/codepoetics/raffia/streaming/ProjectingFilter.kt:104-106 | the projection is flushed exactly when the token that closes the outermost container arrives |
| ProjectingFilter.ProjectsStartedBasket | raffia-core/src/main/java/com/codepoetics/raffia/streaming/ProjectingFilter.kt:55-109 | started by the opening token and continued with the rest, a whole basket hands exactly its projections downstream and ends doing nothing |
| ProjectingFilter.Terminal | raffia-core/src/main/java/com/codepoetics/raffia/streaming/Filters.kt:34-39 | the filter's result is the downstream state when doing nothing, and otherwise IllegalStateException("Illegal terminal state") |
| ProjectingFilter.FilterStep | raffia-core/src/main/java/com/codepoetics/raffia/streaming/Filters.kt:29-33 | one token of the projecting filter: tracking moves on, the projecting interpreter reads the new tracking state, and the projector state machine takes its output |
| ProjectingFilter.RootScalarIsProjected | raffia-core/src/main/java/com/codepoetics/raffia/streaming/ProjectingFilter.kt:29-32 | with the empty path, a lone scalar is at the binding point and is projected and handed downstream at once |
| ProjectingFilter.RootArrayIsRefused | raffia-core/src/main/java/com/codepoetics/raffia/streaming/ProjectingFilter.kt:29-33 | with the empty path, the token opening a root array leads one level below the binding point, so the interpreter continues a projection that never started and the filter throws |
| Writers.Add | raffia-core/src/main/java/com/codepoetics/raffia/writers/Writers.kt:34-137 | a value can be added exactly when the weaver is accepting one: an unset top-level value, an array, or an object with a key given |
| Writers.Weave | raffia-core/src/main/java/com/codepoetics/raffia/writers/Writers.kt:38-139 | weaving fails only for a top-level weaver with no value yet |
| Writers.BeginObject | raffia-core/src/main/java/com/codepoetics/raffia/writers/Writers.kt:43-141 | beginning an object always opens an object weaver with no key over the current weaver |
| Writers.BeginArray | raffia-core/src/main/java/com/codepoetics/raffia/writers/Writers.kt:47-147 | beginning an array fails only in an object whose key is not given, and otherwise opens an empty array weaver over the current weaver |
| Writers.EndContainer | raffia-core/src/main/java/com/codepoetics/raffia/writers/Writers.kt:51-143 | ending at the top level throws; ending a container adds what it has woven to its parent |
| Writers.SetKey | raffia-core/src/main/java/com/codepoetics/raffia/writers/Writers.kt:55-151 | a key can be given only in an object whose key is not given yet |
| Writers.ScalarBasket | raffia-core/src/main/java/com/codepoetics/raffia/writers/Writers.kt:26-29 | each scalar token becomes the scalar basket it stands for, and writing that basket gives the token back |
| Writers.TopLevelRefuses | raffia-core/src/main/java/com/codepoetics/raffia/writers/Writers.kt:32-58 | a top-level weaver takes one value and then refuses another, refuses end and key, and cannot weave before its value is set |
| Writers.ContainerRefuses | raffia-core/src/main/java/com/codepoetics/raffia/writers/Writers.kt:93-152 | an object refuses a value and an array before its key is given and a second key after it; an array refuses keys |
| Writers.EndAddsToParent | raffia-core/src/main/java/com/codepoetics/raffia/writers/Writers.kt:103-143 | ending an array or object adds its woven basket to the parent weaver |
| Writers.WeaveTokens | raffia-core/src/main/java/com/codepoetics/raffia/writers/Writers.kt:25-152 | writing a well-formed basket's tokens to an accepting weaver is adding the basket to it |
| Writers.WeaveItems | raffia-core/src/main/java/com/codepoetics/raffia/writers/Writers.kt:93-108 | writing n items into a fresh array weaver collects the first n items |
| Writers.WeaveEntries | raffia-core/src/main/java/com/codepoetics/raffia/writers/Writers.kt:130-152 | writing n entries into a fresh object weaver collects the first n entries, with no key pending |
| Writers.WovenRoundTrip | raffia-core/src/main/java/com/codepoetics/raffia/writers/Writers.kt:14-17 | a fresh weaver fed a well-formed basket's tokens holds that basket, and weaving gives it back |
| TransientWriters.TransientWeaver.constructor | raffia-core/src/main/java/com/codepoetics/raffia/writers/Writers.kt:19-22 | a fresh transient weaver is the top-level weaver with no value |
| TransientWriters.TransientWeaver.Add | raffia-core/src/main/java/com/codepoetics/raffia/writers/Writers.kt:60-164 | adding in place succeeds exactly when the persistent weaver would, with the same result and the same exception |
| TransientWriters.TransientWeaver.BeginObject | raffia-core/src/main/java/com/codepoetics/raffia/writers/Writers.kt:76-168 | beginning an object pushes an object frame with no key, as the persistent weaver does |
| TransientWriters.TransientWeaver.BeginArray | raffia-core/src/main/java/com/codepoetics/raffia/writers/Writers.kt:80-174 | beginning an array pushes an array frame exactly when the persistent weaver would, and otherwise throws its exception and changes nothing |
| TransientWriters.TransientWeaver.SetKey | raffia-core/src/main/java/com/codepoetics/raffia/writers/Writers.kt:88-180 | giving a key in place succeeds exactly when the persistent weaver would, and otherwise throws its exception and changes nothing |
| TransientWriters.TransientWeaver.End | raffia-core/src/main/java/com/codepoetics/raffia/writers/Writers.kt:84-170 | ending a container in place adds it to its parent exactly as the persistent weaver does |
| TransientWriters.TransientWeaver.Weave | raffia-core/src/main/java/com/codepoetics/raffia/writers/Writers.kt:71-166 | weaving gives what the persistent weaver would |
| TransientWriters.TransientWeaver.Receive | raffia-core/src/main/java/com/codepoetics/raffia/streaming/PathAwareWriter.kt:57-69 | each token is the weaver call it names, with the persistent weaver's outcome |
| StreamWeaving.StructBasket | raffia-core/src/main/java/com/codepoetics/raffia/streaming/StreamWeaver.kt:16-19 | an open object gives the object of its entries, an open array the array of its contents |
| StreamWeaving.Collect | raffia-core/src/main/java/com/codepoetics/raffia/streaming/StreamWeaver.kt:28-33 | completing a value inside an object appends the entry under the current key, inside an array appends the item, and nothing else changes |
| StreamWeaving.Opened | raffia-core/src/main/java/com/codepoetics/raffia/streaming/StreamWeaver.kt:54-63 | a pushed struct starts empty, with the type of the begin token |
| StreamWeaving.CompleteSharedKey | raffia-core/src/main/java/com/codepoetics/raffia/streaming/StreamWeaver.kt:25-35 | as written: with no open struct the value becomes the result; otherwise it goes into the top struct under the single shared key |
| StreamWeaving.StepSharedKey | raffia-core/src/main/java/com/codepoetics/raffia/streaming/StreamWeaver.kt:44-71 | as written: fails exactly on an end token with no open struct, with IllegalArgumentException("End received while not building object or array"); an end pops the top struct and completes its basket under whatever key was set last |
| StreamWeaving.NestedExample | raffia-core/src/main/java/com/codepoetics/raffia/streaming/StreamWeaver.kt:44-71 | {"x": {"a": 1}} is well formed |
| StreamWeaving.SharedKeyOpensInner | raffia-core/src/main/java/com/codepoetics/raffia/streaming/StreamWeaver.kt:53-58 | as written, opening the outer object, giving key "x", opening the inner object and giving key "a" leaves the shared key at "a" |
| StreamWeaving.SharedKeyClosesInner | raffia-core/src/main/java/com/codepoetics/raffia/streaming/StreamWeaver.kt:47-52 | as written, closing the inner object files it under the shared key "a" |
| StreamWeaving.SharedKeyFillsInner | raffia-core/src/main/java/com/codepoetics/raffia/streaming/StreamWeaver.kt:64-68 | as written, the inner object's value goes in under "a" |
| StreamWeaving.SharedKeyWeavesInner | raffia-core/src/main/java/com/codepoetics/raffia/streaming/StreamWeaver.kt:44-71 | as written, the inner object's whole token stream leaves the outer object holding it under "a" |
| StreamWeaving.SharedKeyWeavesOuter | raffia-core/src/main/java/com/codepoetics/raffia/streaming/StreamWeaver.kt:44-71 | as written, writing {"x": {"a": 1}} gives {"a": {"a": 1}} |
| StreamWeaving.SharedKeyMisfilesNestedObject | raffia-core/src/main/java/com/codepoetics/raffia/streaming/StreamWeaver.kt:22-57 | as written, the result of streaming {"x": {"a": 1}} has no key "x" and has the key "a" |
| StreamWeaving.Initial | raffia-core/src/main/java/com/codepoetics/raffia/streaming/StreamWeaver.kt:22-23 | the weaver starts with no open struct, the empty key and a null result |
| StreamWeaving.Completed | raffia-core/src/main/java/com/codepoetics/raffia/streaming/StreamWeaver.kt:25-35 | with no open struct the value becomes the result; otherwise it goes into the top struct under the current key and nothing else changes |
| StreamWeaving.Cleared | raffia-core/src/main/java/com/codepoetics/raffia/streaming/StreamWeaver.kt:39-41 | clearing empties the struct stack and keeps the key and result |
| StreamWeaving.Begin | raffia-core/src/main/java/com/codepoetics/raffia/streaming/StreamWeaver.kt:54-63 | a begin token pushes an empty struct of its type, remembering the key it is filed under |
| StreamWeaving.Step | raffia-core/src/main/java/com/codepoetics/raffia/streaming/StreamWeaver.kt:44-71 | fails exactly on an end token with no open struct, with IllegalArgumentException("End received while not building object or array"); the stack grows by one per begin and shrinks by one per end; an end pops the top struct, restores the key it was opened under and completes its basket |
| StreamWeaving.WritesBasket | raffia-core/src/main/java/com/codepoetics/raffia/streaming/StreamWeaver.kt:44-71 | writing any well-formed basket's tokens completes exactly that basket into the weaver |
| StreamWeaving.WritesArray | raffia-core/src/main/java/com/codepoetics/raffia/streaming/StreamWeaver.kt:59-63 | for an array |
| StreamWeaving.WritesObject | raffia-core/src/main/java/com/codepoetics/raffia/streaming/StreamWeaver.kt:54-58 | for an object |
| StreamWeaving.WritesItems | raffia-core/src/main/java/com/codepoetics/raffia/streaming/StreamWeaver.kt:59-68 | writing an array's first n items collects exactly those items in the open array |
| StreamWeaving.WritesEntries | raffia-core/src/main/java/com/codepoetics/raffia/streaming/StreamWeaver.kt:53-68 | writing an object's first n entries collects exactly those entries in the open object |
| StreamWeaving.EntryStep | raffia-core/src/main/java/com/codepoetics/raffia/streaming/StreamWeaver.kt:53 | a key token followed by a value files the value under that key |
| StreamWeaving.StreamRoundTrip | raffia-core/src/main/java/com/codepoetics/raffia/streaming/StreamWeaver.kt:22-71 | a fresh weaver fed a well-formed basket's tokens ends with that basket as its result and no open struct |
| StreamWeaving.RestoredKeyFilesNestedObject | raffia-core/src/main/java/com/codepoetics/raffia/streaming/StreamWeaver.kt:44-71 | with the key restored at each end, {"x": {"a": 1}} comes back unchanged, with its key "x" |
| StreamWeaving.StreamWeaverState.constructor | raffia-core/src/main/java/com/codepoetics/raffia/streaming/StreamWeaver.kt:22-23 | a new weaver state is the initial state |
| StreamWeaving.StreamWeaverState.Complete | raffia-core/src/main/java/com/codepoetics/raffia/streaming/StreamWeaver.kt:25-35 | completing in place is `Completed` on the state |
| StreamWeaving.StreamWeaverState.Clear | raffia-core/src/main/java/com/codepoetics/raffia/streaming/StreamWeaver.kt:39-41 | clearing in place is `Cleared` on the state |
| StreamWeaving.StreamWeaverState.Receive | raffia-core/src/main/java/com/codepoetics/raffia/streaming/StreamWeaver.kt:44-71 | a token changes the state in place as `Step` does; the end-outside-struct exception leaves it unchanged |
| IgnoreAll.DepthAfter | raffia-core/src/main/java/com/codepoetics/raffia/streaming/IgnoreAllFilter.kt:10-22 | begin tokens count one level in, end tokens one level out, and other tokens leave the depth |
| IgnoreAll.DepthCountsLevel | raffia-core/src/main/java/com/codepoetics/raffia/streaming/IgnoreAllFilter.kt:8-22 | the depth counter is the nesting level of the tokens seen so far |
| IgnoreAll.SkipsBalanced | raffia-core/src/main/java/com/codepoetics/raffia/streaming/IgnoreAllFilter.kt:20-22 | over a balanced run of tokens the filter never hands back to its parent, and the end token after the run does |
| IgnoreAll.SkipsBasket | raffia-core/src/main/java/com/codepoetics/raffia/streaming/IgnoreAllFilter.kt:10-42 | a whole basket's tokens never hand back to the parent, and leave the depth at 0 |
| IgnoreAll.IgnoreAllFilter.constructor | raffia-core/src/main/java/com/codepoetics/raffia/streaming/IgnoreAllFilter.kt:7-8 | the filter starts at depth 0 with its target |
| IgnoreAll.IgnoreAllFilter.BeginObject | raffia-core/src/main/java/com/codepoetics/raffia/streaming/IgnoreAllFilter.kt:10-13 | one level deeper; stays |
| IgnoreAll.IgnoreAllFilter.BeginArray | raffia-core/src/main/java/com/codepoetics/raffia/streaming/IgnoreAllFilter.kt:15-18 | one level deeper; stays |
| IgnoreAll.IgnoreAllFilter.End | raffia-core/src/main/java/com/codepoetics/raffia/streaming/IgnoreAllFilter.kt:20-22 | one level out; hands the target back to the parent exactly when the depth was 0 |
| IgnoreAll.IgnoreAllFilter.Key | raffia-core/src/main/java/com/codepoetics/raffia/streaming/IgnoreAllFilter.kt:24-26 | a key is ignored |
| IgnoreAll.IgnoreAllFilter.AddString | raffia-core/src/main/java/com/codepoetics/raffia/streaming/IgnoreAllFilter.kt:28-30 | a string is ignored |
| IgnoreAll.IgnoreAllFilter.AddNumber | raffia-core/src/main/java/com/codepoetics/raffia/streaming/IgnoreAllFilter.kt:32-34 | a number is ignored |
| IgnoreAll.IgnoreAllFilter.AddBoolean | raffia-core/src/main/java/com/codepoetics/raffia/streaming/IgnoreAllFilter.kt:36-38 | a boolean is ignored |
| IgnoreAll.IgnoreAllFilter.AddNull | raffia-core/src/main/java/com/codepoetics/raffia/streaming/IgnoreAllFilter.kt:40-42 | a null is ignored |
| IgnoreAll.IgnoreAllFilter.Advance | raffia-core/src/main/java/com/codepoetics/raffia/streaming/IgnoreAllFilter.kt:44-47 | the target is replaced and the depth kept |
| IgnoreAll.IgnoreAllFilter.Complete | raffia-core/src/main/java/com/codepoetics/raffia/streaming/IgnoreAllFilter.kt:49-51 | completing always throws IllegalStateException("Cannot complete while writing array or object") |

## Left out

- The raffia-jackson module (reading and writing JSON text through Jackson) is foreign I/O and is not part of this model.
- `streaming/UpdatingFilter.kt` is not part of this model. It is written against a different revision of the position-tracking state. The updating interpreter and `updatingFilter` in `PathAwareWriter.kt` are modelled instead.
- `StateMachines.kt` duplicates `PathAwareWriter.kt` and is not part of this model.
- `Lens.kt` and the predicate and builder helpers are not part of this model. Neither are the Java revisions of the same classes and the top-level `src/` module.
- Numbers: `BigDecimal` is modelled as an unscaled integer with a scale. Equality is structural, like `BigDecimal.equals`. No arithmetic is modelled.
- The path parser's regular expressions are modelled as character-class predicates and explicit scans over the string.
- pcollections' persistent vectors and maps, and their structural sharing, are modelled as Dafny sequences and maps.
- `Position`, `PathBindingState`, `ProjectorState` and `UpdaterState` mutate their top frame or counter in place. They are modelled as values: a step returns the new stack. No other reference observes the old frame, so nothing is lost except the in-place update itself.
- `ReusableStack` in `StreamWeaver.kt` reuses popped frames and clears only one of their lists. The model pushes a fresh empty frame each time, so any aliasing through a reused frame is not captured.
- The depth counters of `IgnoreAllFilter` and `ProjectorState` are unbounded integers. 32-bit overflow, after two billion nested containers, is not modelled. The array-position counter does wrap at 32 bits (`Positions.Inc32`).
- Exceptions thrown by a downstream writer cannot be seen from here. They are modelled as an `Err` result that the filter passes on unchanged.
- There is no end-to-end theorem relating a projecting or updating filter over a stream to the in-memory projector or updater. The interpreters act on the tracking state as it is *after* each token, and each step is modelled exactly as written. `ProjectingFilter.RootArrayIsRefused` and `Updating.ScalarAtRootIsNeverFlushed` record two consequences.
- `toString`, `hashCode` and the `representation` strings are not modelled. Neither is printing the path of a conditional strand, which shows the predicate's own `toString`.
- PathParser.ParseInt: reads ASCII digits only. `Integer.parseInt` also reads every other Unicode decimal digit (Arabic-Indic, Devanagari, fullwidth and so on), whose set depends on the JVM's Unicode version. The parser's own integer regular expression admits only `[0-9]`, so this matters only for the range bounds, which are not matched against it first.
- Strands.DeepAllUpdateReachesEveryScalar: shows only that the corrected `..*` update reaches every scalar, using the nulling updater, which cannot tell one application from two. That each reached value is updated exactly once is stated by `Strands.DeepAllUpdateOnce` and `Strands.UpdateBelowReachesOnce`. They cover any updater on an array of scalars, and updaters that keep containers as they are in general. An updater that turns a container into something else changes what lies below it, and no positional statement is made for it.
- PathParser.Unquote: lengths and cut points count Unicode scalar values, while Kotlin's `length` and `substring` count UTF-16 code units. The same holds for `PathParser.UnquoteSucceeds` and `PathParser.UnquoteValues`, and for `Substring` and the trimming functions. So a quoted-key entry holding a character outside the Basic Multilingual Plane unquotes differently: on the JVM `$['a', 😀]` gives the keys `a` and the empty key, while the model refuses it with a string index error. A lone surrogate, which the JVM can produce by cutting such a character in two, cannot be held in a Dafny string at all.
- Iterators are modelled by the sequence of values they yield. Laziness of Kotlin `Sequence`s is not modelled.

## Findings

| source | as written | input that shows it | evidently intended | confidence | as-written member | corrected member |
|---|---|---|---|---|---|---|
| raffia-core/src/main/java/com/codepoetics/raffia/streaming/StreamWeaver.kt:22-57 | one `key` variable is shared by all open objects, so a container that ends is added to its parent under the last key given inside it | the tokens of `{"x": {"a": 1}}` weave `{"a": {"a": 1}}` | each open container remembers the key pending when it began, and `end` restores it; every basket's own tokens weave it back | high, not executed | StreamWeaving.SharedKeyWeavesOuter | StreamWeaving.StreamRoundTrip |
| raffia-core/src/main/java/com/codepoetics/raffia/paths/segments/ArrayIndexPathSegment.kt:25-27 | the updater resolves a negative index from the end but checks only `actual < size`, unlike the projector, which also checks `actual >= 0` | index -5 on a three-item array: the update reads index -2 and throws | indices before the start are skipped, as the projector skips them | high, not executed | IndexSegment.UpdateAsWrittenThrowsBeforeStart | IndexSegment.UpdateItemsApplies |
| raffia-core/src/main/java/com/codepoetics/raffia/paths/segments/ArraySlicePathSegment.kt:37-41 | a negative start is resolved from the end without clamping at 0, and the projector then reads from that index | `[-5:]` on a three-item array: the first read is at index -2 and throws | the start is clamped at 0, so `[-5:]` selects all three items | medium, not executed | SliceSegment.SliceBeforeStartThrows | SliceSegment.SelectedItems |
| raffia-core/src/main/java/com/codepoetics/raffia/paths/segments/ArraySlicePathSegment.kt:22-33 | the updater takes the same unclamped start and reads `updated[i]` from it | `[-5:]` on a three-item array: the first read is at index -2 and throws | the start is clamped at 0, so `[-5:]` passes all three items through the continuation | medium, not executed | SliceSegment.UpdateBeforeStartThrows | SliceSegment.UpdateItems |
| raffia-core/src/main/java/com/codepoetics/raffia/lenses/Strand.kt:156-162 | `bound` clamps a closed end to `size - 1`, and an empty array gives -1 | slice `0:3` on a three-item array reaches only the first two items | the end is clamped to `size`, so `0:3` reaches all three and an empty array reaches nothing | medium, not executed | Strands.SliceAsWrittenDropsLast | Strands.SliceGetAgrees |
| raffia-core/src/main/java/com/codepoetics/raffia/lenses/Strand.kt:149 | a slice strand prints without brackets and the parser refuses the result | slice 0 to 3 prints `:3`, and `$:3` is an unrecognised path segment | the printed path is bracketed, as index and key strands are, and parses back to the same strand | high, not executed | PathRoundTrip.SlicePathAsWrittenDoesNotParse | PathRoundTrip.ParsePrintedPath |
| raffia-core/src/main/java/com/codepoetics/raffia/lenses/Strand.kt:233-238 | the `..*` get yields a container's children and then the get of each child, which for a scalar child is the child again | `[x]` with a scalar `x` yields `x` twice | every value below the container is reached exactly once; a scalar at the root reaches itself | medium, not executed | Strands.DeepAllRevisitsScalars | Strands.BelowCountsEachOnce |
| raffia-core/src/main/java/com/codepoetics/raffia/lenses/Strand.kt:241-244 | the `..*` update recurses into array items but maps an object's values only at the top | on `{"a": {"b": true}}`, the update that nulls every scalar leaves `true` in place, although the get reaches it | object values are updated below first and then themselves, like array items | medium, not executed | Strands.DeepAllUpdateSkipsNestedValues | Strands.DeepAllUpdateReachesEveryScalar |
| raffia-core/src/main/java/com/codepoetics/raffia/lenses/Strand.kt:242-244 | an array item is updated by `updater(update(it, updater))`, and `update` of a scalar is already `updater(basket)`, so a scalar item gets the updater twice | with the updater that negates booleans, `[true]` comes back as `[true]` | each value below the container is updated once, as the get reaches each once, so `[true]` becomes `[false]` | medium, not executed | Strands.DeepAllUpdateTwice | Strands.DeepAllUpdateOnce |

