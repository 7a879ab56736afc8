# MemoizableArray: a memoizing, filterable array

`craft\base\MemoizableArray` is a PHP `ArrayObject` with three queries, `where`,
`whereIn` and `firstWhere`. Each query's result is stored in a private cache,
`_memoized`, under a string signature built by `_memKey` from the method name, the
field key, the compared value and the strict flag. A repeated call is answered from
the cache without scanning the items again. Every mutating override (`append`,
`asort`, `exchangeArray`, `ksort`, `natcasesort`, `natsort`, `offsetSet`,
`offsetUnset`, `uasort`, `uksort`) calls the parent operation and then empties the
whole cache.

The model has six modules:

- `PhpValues` (`php_values.dfy`): PHP keys and values (null, booleans, integers,
  strings, arrays), `is_scalar`, and how PHP prints a scalar inside a string.
- `PhpArrays` (`php_arrays.dfy`): the inherited `ArrayObject` storage, a list of
  key/value entries with unique keys. It has the structural operations the overrides
  delegate to: append under the next integer index, set by key, unset by key, and
  reordering.
- `Matching` (`matching.dfy`): the matching rule of `ArrayHelper::where`, `whereIn` and
  `firstWhere`. The comparison itself is a parameter of type `Matcher`. Selection keeps
  the items' order, and the first match is the head of the selection.
- `Signature` (`signature.dfy`): the queries, `_memKey` exactly as written (`MemKey`,
  with `Json::encode` as an `Encoder` parameter), what that key does and does not keep
  apart, and a structural tuple signature (`TupleKey`) that keeps every query apart.
- `Memoizable` (`memoizable_array.dfy`): the class `MemoizableArray<S>`. Its fields
  are `items` (the storage) and `memo` (`_memoized`). A ghost counter `scans` counts how
  often a query scanned the items. The class is generic in its signature function
  `signature: Query -> S`. With `MemKey` it is the source as written; with `TupleKey`
  it is the corrected version (see Findings). `Eval` is a fresh evaluation of a query.
  `Valid()` holds the consistency invariant: every cached entry is the fresh evaluation,
  over the current items, of some query filed under that slot. Every method preserves
  `Valid()`. When the signature is injective, `Valid()` gives cache coherence: every query
  that finds its slot filled reads its own fresh evaluation.
- `Clients` (`clients.dfy`): call sequences proved from the class's contracts alone.

## Model

| member | source | states |
|---|---|---|
| `Memoizable.MemoizableArray.constructor` | src/base/MemoizableArray.php:31-33 | a new collection holds the given items and starts with an empty cache |
| `Memoizable.MemoizableArray.All` | src/base/MemoizableArray.php:40-45 | returns exactly the stored items, in their current order, whatever the cache holds |
| `Memoizable.MemoizableArray.Where` | src/base/MemoizableArray.php:57-66 | if the slot is `isset`, returns the stored entry without scanning; otherwise scans once, stores the fresh filter under its own slot and returns it; only that slot changes, the items never do; consistency is preserved; with an injective signature the result is always the fresh filter |
| `Memoizable.MemoizableArray.WhereIn` | src/base/MemoizableArray.php:79-88 | the same as `where`, for a match against any of the given values |
| `Memoizable.MemoizableArray.FirstWhere` | src/base/MemoizableArray.php:98-108 | the slot is tested by key existence, so a cached `null` is a hit and is returned without a scan; a miss scans once and stores the first match or `null`; only that slot changes |
| `Memoizable.MemoizableArray.Append` | src/base/MemoizableArray.php:130-134 | the value is appended under the next integer index and the cache is empty afterwards |
| `Memoizable.MemoizableArray.Asort` | src/base/MemoizableArray.php:139-143 | the items become the given reordering of themselves and the cache is empty |
| `Memoizable.MemoizableArray.ExchangeArray` | src/base/MemoizableArray.php:148-153 | returns the previous items, the items become the argument, and the cache is empty |
| `Memoizable.MemoizableArray.Ksort` | src/base/MemoizableArray.php:158-162 | the items become the given reordering and the cache is empty |
| `Memoizable.MemoizableArray.Natcasesort` | src/base/MemoizableArray.php:167-171 | the items become the given reordering and the cache is empty |
| `Memoizable.MemoizableArray.Natsort` | src/base/MemoizableArray.php:176-180 | the items become the given reordering and the cache is empty |
| `Memoizable.MemoizableArray.OffsetSet` | src/base/MemoizableArray.php:185-189 | a `null` key appends; any other key replaces that entry's value in place or adds it at the end; the cache is empty |
| `Memoizable.MemoizableArray.OffsetUnset` | src/base/MemoizableArray.php:194-198 | the entry under the key is removed, if there is one, and the cache is emptied in both cases |
| `Memoizable.MemoizableArray.Uasort` | src/base/MemoizableArray.php:203-207 | the items become the comparator's reordering and the cache is empty |
| `Memoizable.MemoizableArray.Uksort` | src/base/MemoizableArray.php:212-216 | the items become the comparator's reordering and the cache is empty |
| `Memoizable.MemoizableArray.Valid` | src/base/MemoizableArray.php:33 | the invariant every method keeps: the keys are unique and every cached entry is the fresh evaluation, over the current items, of a query filed under that slot |
| `Memoizable.Eval` | src/base/MemoizableArray.php:62 | a fresh evaluation as `ArrayHelper::where`, `whereIn` (line 84) and `firstWhere` (line 104) compute it: `firstWhere` gives one value, which is `null` or a stored item; the other two give rows, never more than there are items |
| `Memoizable.ConsistentInsert` | src/base/MemoizableArray.php:61-62 | storing a fresh evaluation under its own signature keeps every cached entry a fresh evaluation of the current items |
| `Memoizable.CoherentAt` | src/base/MemoizableArray.php:59-65 | if the cache is consistent and the signature injective, what a query reads from its slot is its own fresh evaluation |
| `Memoizable.CoherentIfInjective` | src/base/MemoizableArray.php:59-65 | if the signature is injective, consistency implies coherence for every query |
| `Memoizable.AsWrittenIncoherent` | src/base/MemoizableArray.php:59-65 | two queries that `_memKey` files together but that evaluate differently give a cache that is consistent but not coherent |
| `Memoizable.FlagQueriesDiffer` | src/base/MemoizableArray.php:62 | under `===`, `where('flag', true, true)` selects a record whose flag is `true`, and `where('flag', 1, true)` selects nothing |
| `Memoizable.BoolIntSlotConfusion` | src/base/MemoizableArray.php:119-125 | those two differently evaluating calls share one `_memKey` slot |
| `Memoizable.ColonSlotConfusion` | src/base/MemoizableArray.php:119-125 | `where('a', 'b:c', true)` and `where('a:b', 'c', true)` share one slot but select different records |
| `Memoizable.FirstWhereIsHeadOfWhere` | src/base/MemoizableArray.php:98-108 | `firstWhere` finds the first row that `where` returns for the same arguments, or `null` when there is none |
| `Memoizable.WhereInSingleton` | src/base/MemoizableArray.php:79-88 | `whereIn` with one value selects what `where` with that value selects |
| `Memoizable.WhereInNothing` | src/base/MemoizableArray.php:79-88 | `whereIn` with no values selects nothing |
| `Memoizable.WhereAfterAppend` | src/base/MemoizableArray.php:130-134 | after an append, a fresh `where` returns the earlier rows, followed by the new value when it matches |
| `Signature.MethodName` | src/base/MemoizableArray.php:59 | `__METHOD__` inside `where`, `whereIn` (line 81) or `firstWhere` (line 100): the class name, `::` and the method name |
| `Signature.ArgString` | src/base/MemoizableArray.php:121-122 | the value step of `_memKey`: a scalar is printed as PHP prints it, and any other value goes through the encoder |
| `PhpValues.IsScalar` | src/base/MemoizableArray.php:121 | `is_scalar`: booleans, integers and strings are scalar; `null` and arrays are not |
| `Memoizable.IsSet` | src/base/MemoizableArray.php:61 | `isset($this->_memoized[$memKey])` (also line 83): a slot is set when it exists and does not hold `null` |
| `Matching.MatchesAny` | src/base/MemoizableArray.php:84 | `whereIn`'s match: the item's field matches at least one of the given values |
| `Signature.MemKey` | src/base/MemoizableArray.php:119-125 | the signature starts with `__METHOD__` and a colon, and its last character is "1" for a strict call and ":" otherwise |
| `Signature.TupleKey` | src/base/MemoizableArray.php:119-125 | the corrected signature holds exactly the four parts that `_memKey` prints and joins with colons |
| `PhpValues.ScalarString` | src/base/MemoizableArray.php:124 | a boolean or integer, as PHP prints it inside a string, never contains a colon |
| `Signature.MemKeyMethodsApart` | src/base/MemoizableArray.php:119-125 | calls of different methods never share a slot |
| `Signature.MemKeyStrictApart` | src/base/MemoizableArray.php:119-125 | calls that differ in the strict flag never share a slot |
| `Signature.MemKeySameSlotIff` | src/base/MemoizableArray.php:119-125 | with method, key and strict flag equal, two calls share a slot if and only if their values print alike (scalars as PHP prints them, other values through the encoder) |
| `Signature.MemKeyIntsApart` | src/base/MemoizableArray.php:121-124 | for any method, with key and strict flag equal, two calls with distinct integer values never share a slot |
| `Signature.MemKeyScalarCollisions` | src/base/MemoizableArray.php:121-124 | `true`, `1` and `"1"` share one slot, and so do `false` and `""` |
| `Signature.MemKeyColonCollision` | src/base/MemoizableArray.php:124 | a colon can move between the key and the value without changing the slot |
| `Signature.MemKeyEncodedCollision` | src/base/MemoizableArray.php:121-124 | a non-scalar value shares its slot with the string of its own encoding |
| `Signature.MemKeyNotInjective` | src/base/MemoizableArray.php:119-125 | `_memKey` files two different queries under one slot |
| `Signature.TupleKeyInjective` | src/base/MemoizableArray.php:119-125 | the tuple of method, key, value and strict flag gives every query its own slot |
| `PhpValues.IntToString` | src/base/MemoizableArray.php:124 | an integer prints as decimal digits, with a leading minus sign exactly when it is negative |
| `Signature.StrictString` | src/base/MemoizableArray.php:124 | `$strict` prints as "1" when true and as "" when false |
| `Signature.Arg` | src/base/MemoizableArray.php:59 | the value handed to `_memKey`: `$value` for `where` and `firstWhere` (line 100), the `$values` array for `whereIn` (line 81), which is never scalar |
| `PhpValues.IntToStringInjective` | src/base/MemoizableArray.php:124 | distinct integers never print alike |
| `PhpArrays.Lookup` | src/base/MemoizableArray.php:185-189 | a key lookup finds a value exactly when the key is present, and the value found is stored under that key |
| `PhpArrays.AppendEntry` | src/base/MemoizableArray.php:130-134 | appending keeps the old entries as a prefix, adds one entry under the next integer index, and keeps the keys unique |
| `PhpArrays.NextIndex` | src/base/MemoizableArray.php:130-134 | the next integer index is not used yet and is greater than every integer key |
| `PhpArrays.SetEntry` | src/base/MemoizableArray.php:185-189 | `$a[$k] = $v` keeps every existing key at its position, adds one entry only when the key is new, and stores the pair |
| `PhpArrays.SetEntryLookup` | src/base/MemoizableArray.php:185-189 | setting a key keeps the keys unique, stores the value under that key and changes no other key |
| `PhpArrays.UnsetEntry` | src/base/MemoizableArray.php:194-198 | `unset($a[$k])` leaves no entry under the key, keeps exactly the other entries, and changes nothing when the key is absent; their order is kept by `PhpArrays.UnsetEntryKeepsOrder` |
| `PhpArrays.UnsetEntryKeepsOrder` | src/base/MemoizableArray.php:194-198 | after `unset($a[$k])` the surviving entries keep their original relative order |
| `PhpArrays.UnsetEntryLookup` | src/base/MemoizableArray.php:194-198 | unsetting a key keeps the keys unique, removes that key and changes no other key |
| `PhpArrays.PermutationKeepsUniqueKeys` | src/base/MemoizableArray.php:139-143 | a reordering of an array with unique keys still has unique keys |
| `Matching.Select` | src/base/MemoizableArray.php:62 | a value is selected exactly when some item holds it and it matches |
| `Matching.SelectConcat` | src/base/MemoizableArray.php:62 | selection keeps the items' relative order |
| `Matching.First` | src/base/MemoizableArray.php:104 | the result is `null` when nothing matches; otherwise it is the value at the first matching position |
| `Clients.RepeatedWhere` | src/base/MemoizableArray.php:57-66 | a second identical `where` returns the same stored result; the two calls scan the items once if the slot was not set before and not at all otherwise, so the second never scans; the items are unchanged |
| `Clients.RepeatedWhereIn` | src/base/MemoizableArray.php:79-88 | a second identical `whereIn` returns the same stored result; the items are scanned once only if the slot was not set before, so the second call never scans |
| `Clients.RepeatedFirstWhere` | src/base/MemoizableArray.php:100-107 | a second identical `firstWhere` returns the same result, including a memoized `null`; the items are scanned once only if the slot did not exist before, so the second call never scans |
| `Clients.WhereSeesAppend` | src/base/MemoizableArray.php:130-134 | for any signature, `where`, then `append`, then the same `where` returns the fresh evaluation over the new items: the old rows, followed by the new value when it matches; with an injective signature the first answer is its own evaluation too |
| `Clients.StaleHitAsWritten` | src/base/MemoizableArray.php:119-125 | with `_memKey` as written, `where('flag', 1, true)` after `where('flag', true, true)` returns the first call's rows, which are not its own evaluation |
| `Clients.DistinctSlotsWithTupleKey` | src/base/MemoizableArray.php:119-125 | with the tuple signature the same two calls each get their own evaluation |

## Left out

- The comparison of `ArrayHelper::where`, `whereIn` and `firstWhere` is not modelled. That code is not part of this model, and neither is PHP's loose `==` versus strict `===`. The class takes the comparison as a `Matcher` parameter. `whereIn` matches when any value matches, as `in_array` does. The findings assume only that the strict comparison is `===` on present fields (`IdentityOnPresentFields`).
- `Json::encode` is not part of this model. It is an `Encoder` parameter. Its failure on cyclic values is not modelled.
- The keys of `where` and `whereIn` results are not modelled. The calls pass `false` as the key-preservation argument, and the helper is not part of this model, so a cached result is the list of matching values in order. Keeping original keys, which the doc comment mentions, is not promised.
- Cached results are stored as values, not as `MemoizableArray` objects. In PHP both calls return the same object, and a caller who changes it also changes the cached entry; the model compares values and has neither identity nor aliasing.
- The orderings of `asort`, `ksort`, `natsort` and `natcasesort`, with their `$flags`, are not modelled. The comparators of `uasort` and `uksort` are not modelled either. Each sort takes its resulting order as a parameter, which must be a reordering of the items. Exceptions thrown by a comparator are not modelled.
- Floats and objects are not among the modelled values. Neither is PHP's normalisation of array keys: numeric strings, booleans and `null` used as keys. `offsetSet` takes an already normal key, or `None` for `$a[] = $value`.
- `PhpArrays.NextIndex`: append uses the largest integer key plus one, or 0 when there is none, which is the PHP 8.3 rule. `ArrayObject`'s internal next-free counter, which can stay above the largest key after an `unset`, is not modelled. Neither is the rule before PHP 8.3 for negative keys.
- The constructor and `exchangeArray` take only an array, not an object. The constructor's default `$array = []`, its `$flags` and `$iteratorClass` arguments, and `setFlags`/`setIteratorClass` are not modelled. The default flags and the default `ArrayIterator` are assumed.
- `Memoizable.MemoizableArray.Where`: with the signature as written, it only promises that the result is a fresh evaluation of some query filed under the same slot. It can promise the query's own evaluation only with an injective signature (see Findings). The same holds for `Memoizable.MemoizableArray.WhereIn` and `Memoizable.MemoizableArray.FirstWhere`.
- `Clients.WhereSeesAppend`: the first call's answer is its own evaluation only for an injective signature, for the same reason. The recomputed answer after `append` holds for every signature.
- Cache coherence is modelled only for changes made through the ten overridden mutators. Items are immutable values in the model. In PHP, an item can be changed in place without any override running. One way is a nested write such as `$ma[0]['flag'] = false`, which goes through the inherited `offsetGet` into the storage. Another is changing a property of an object item. Either way `_memoized` keeps results computed over the old item, and the model cannot express that.
- Integers are unbounded in the model. PHP's 64-bit integer width is not modelled. When the largest key is `PHP_INT_MAX`, PHP cannot append, but the model appends under `PHP_INT_MAX + 1` (`PhpArrays.NextIndex`). Printing of integers (`PhpValues.IntToString`) is likewise unbounded.
- `firstWhere` returns PHP `null` when nothing matches, as the code does (doc comment at line 96). No separate "absent" marker exists. So a matching item that is itself `null` cannot be told apart from no match.
- The serialization advice in the class doc comment is not modelled. Single-threaded use is assumed.
- The other files of the repository are framework declarations with no logic of their own: `src/records/Task.php`, `src/controllers/EmailMessagesController.php`, `src/records/AssetFolderRecord.php`, `src/web/assets/elementresizedetector/ElementResizeDetectorAsset.php` and `src/events/UserUnsuspendEvent.php`. They are not part of this model.

## Findings

| source | as written | input that shows it | evidently intended | confidence | as-written member | corrected member |
|---|---|---|---|---|---|---|
| src/base/MemoizableArray.php:119-125 | `"$method:$key:$value:$strict"` prints `true`, `1` and `"1"` alike, so those calls share a slot | `where('flag', true, true)` then `where('flag', 1, true)` on `[['flag' => true]]`: both return `[['flag' => true]]`, but under `===` the second should return `[]` | one slot per distinct method, key, value and strict flag, so each call gets its own evaluation | not executed; follows from PHP's string conversion of booleans | `Signature.MemKey`, `Memoizable.BoolIntSlotConfusion`, `Clients.StaleHitAsWritten` | `Signature.TupleKey`, `Signature.TupleKeyInjective`, `Memoizable.CoherentIfInjective`, `Clients.DistinctSlotsWithTupleKey` |
| src/base/MemoizableArray.php:124 | `:` separates the parts but may occur inside the key or the value, so the parts can shift | `where('a', 'b:c', true)` then `where('a:b', 'c', true)` on `[['a' => 'b:c', 'a:b' => 'x']]`: the second returns the first's match instead of `[]` | the parts kept apart, so a colon cannot move between key and value | not executed; follows from string concatenation | `Signature.MemKeyColonCollision`, `Memoizable.ColonSlotConfusion`, `Memoizable.AsWrittenIncoherent` | `Signature.TupleKey`, `Signature.TupleKeyInjective`, `Memoizable.CoherentIfInjective` |
