# StringCollection

A model of NLog's `StringCollection` for the .NET Compact Framework. On that
runtime it stands in for `System.Collections.Specialized.StringCollection`.
It is an ordered, mutable list of strings. Duplicates are allowed and
insertion order is kept. Every operation forwards to `CollectionBase.List`,
the collection's own `IList` view. That view checks its arguments and then
hands the work to `InnerList`, an `ArrayList`. The class also provides a
typed enumerator that `foreach` uses.

The model has two modules:

- `BackingList` (`backing_list.dfy`) gives the inherited list's operations
  as functions over `seq<string>`: first-occurrence search (`IndexOfSeq`),
  membership (`ContainsSeq`), insert-and-shift (`InsertSeq`), replace-at
  (`SetSeq`), the `ArrayList`'s remove-first-match (`RemoveSeq`), and the
  `IList` view's remove, which throws when nothing matches
  (`CollectionRemove`). It also holds the lemmas that relate these
  operations to each other. Each function's contract describes its result by
  position, length and multiset. The source file does not spell out these
  semantics; they follow the documented `CollectionBase`, `IList` and
  `ArrayList` contracts. `Insert` takes any index in `0..Count`, the indexer
  takes `0..Count-1`, and `IndexOf`, `Contains` and `Remove` use the first
  element that is equal to the value.
- `Specialized` (`string_collection.dfy`) holds the class `StringCollection`.
  Its field `list: seq<string>` stands for the inherited `List`, and the
  ghost field `version` for the inner `ArrayList`'s modification count. The
  mutators reassign `list` in place, and each one states the new contents in
  terms of the old contents through a `BackingList` function, and how far
  `version` advances. The class `Enumerator` is the cursor: `index` is -1
  before the first element, the current position while on an element, and
  `Count` once exhausted, as in the `ArrayList` enumerator. It records the
  version it started on, so any mutation invalidates it.
  `AddRange(StringCollection)` walks its argument with this enumerator, the
  way `foreach` does.

The C# overloads get distinct names: `AddRangeArray` and
`AddRangeCollection`, and the constructors `FromArray` and `FromCollection`.
The indexer becomes `Get` and `Set`.

`Remove` comes twice: `RemoveAsWritten` as the source behaves, and `Remove`
as the framework type behaves, which the rest of the model uses (see
"## Findings").

Two example methods, `ExampleEdit` and `ExampleCopy`, replay a short session:
fill, look up, insert, remove, copy, mutate the copy, enumerate, invalidate an
enumerator, and remove an absent value. They show that the contracts pin down
every result.

## Model

| member | source | states |
|---|---|---|
| `BackingList.IndexOfSeq` | NLog/src/NLog/Internal/StringCollection.cs:146-149 | the result is -1 exactly when the value is absent; otherwise it is a position holding the value, and no earlier position holds it |
| `BackingList.ContainsSeq` | NLog/src/NLog/Internal/StringCollection.cs:130-133 | the front-to-back scan is true exactly when some element equals the value |
| `BackingList.InsertSeq` | NLog/src/NLog/Internal/StringCollection.cs:160-163 | the length grows by one; the value is at the index; earlier positions are unchanged; elements at or after the index move up by one |
| `BackingList.SetSeq` | NLog/src/NLog/Internal/StringCollection.cs:174-177 | the length is unchanged; the index holds the value; every other position is unchanged |
| `BackingList.RemoveSeq` | NLog/src/NLog/Internal/StringCollection.cs:186-189 | the inner `ArrayList`'s remove, which the framework `StringCollection.Remove` uses: an absent value leaves the list as it is; otherwise the length drops by one, exactly one copy of the value leaves the multiset (later duplicates stay), positions before the first match are unchanged and later ones shift down by one |
| `BackingList.CollectionRemove` | NLog/src/NLog/Internal/StringCollection.cs:186-189 | the `IList` view's remove that line 188 reaches: it fails with `ArgumentException` exactly when the value is absent; otherwise the length drops by one and exactly one copy of the value leaves the multiset |
| `BackingList.CollectionRemoveDiverges` | NLog/src/NLog/Internal/StringCollection.cs:186-189 | for every list and value, the `IList` view's remove agrees with the `ArrayList`'s exactly when the value is present; for an absent value it fails where the `ArrayList` leaves the list unchanged |
| `BackingList.RemoveAbsentThrows` | NLog/src/NLog/Internal/StringCollection.cs:186-189 | removing "zz" from ["a"] fails with `ArgumentException` as written, and leaves ["a"] under the `ArrayList` behaviour |
| `BackingList.InsertThenRemove` | NLog/src/NLog/Internal/StringCollection.cs:160-189 | a value inserted with no copy of it before the insertion point becomes the first match, and removing it restores the original list |
| `BackingList.InsertAtEndIsAppend` | NLog/src/NLog/Internal/StringCollection.cs:115-163 | `Insert(Count, v)` has the same effect as `Add(v)` |
| `BackingList.AddThenRemove` | NLog/src/NLog/Internal/StringCollection.cs:115-189 | appending an absent value and then removing it restores the original list |
| `BackingList.IndexOfAfterAppend` | NLog/src/NLog/Internal/StringCollection.cs:115-149 | after appending a value it is contained, and its first position is its old first position when it was already there, otherwise the old count |
| `Specialized.StringCollection.constructor` | NLog/src/NLog/Internal/StringCollection.cs:52-55 | the new collection is empty |
| `Specialized.StringCollection.FromArray` | NLog/src/NLog/Internal/StringCollection.cs:64-67 | the new collection holds exactly the array's elements, in order |
| `Specialized.StringCollection.FromCollection` | NLog/src/NLog/Internal/StringCollection.cs:76-79 | the new collection holds exactly the source collection's elements, in order, and the source is unchanged |
| `Specialized.StringCollection.AddRangeArray` | NLog/src/NLog/Internal/StringCollection.cs:87-93 | the new contents are the old contents followed by every array element in order; the version advances once per element |
| `Specialized.StringCollection.AddRangeCollection` | NLog/src/NLog/Internal/StringCollection.cs:101-107 | enumerating the other collection appends all of its elements in order: new contents = old contents + its contents; the version advances once per element |
| `Specialized.StringCollection.Add` | NLog/src/NLog/Internal/StringCollection.cs:115-118 | the new contents are the old contents with the value appended; the version advances by one |
| `Specialized.StringCollection.Contains` | NLog/src/NLog/Internal/StringCollection.cs:130-133 | true exactly when the value occurs, which is exactly when `IndexOf` finds it |
| `Specialized.StringCollection.IndexOf` | NLog/src/NLog/Internal/StringCollection.cs:146-149 | the result lies in `[-1, Count)`; it is -1 exactly when the value is absent, and otherwise it is the smallest position holding the value |
| `Specialized.StringCollection.Insert` | NLog/src/NLog/Internal/StringCollection.cs:160-163 | for an index in `0..Count`, the new contents are the old contents with the value inserted at the index (see `InsertSeq`); the version advances by one |
| `Specialized.StringCollection.Get` | NLog/src/NLog/Internal/StringCollection.cs:168-173 | for an index in `0..Count-1`, the result is the element at that index, and `IndexOf` finds that value at this index or before it |
| `Specialized.StringCollection.Set` | NLog/src/NLog/Internal/StringCollection.cs:174-177 | for an index in `0..Count-1`, only that position changes, and it now holds the value (see `SetSeq`); the version advances by one, even when the value equals the old one |
| `Specialized.StringCollection.RemoveAsWritten` | NLog/src/NLog/Internal/StringCollection.cs:186-189 | as written: it throws exactly when the value is absent, and then the list and version are unchanged; otherwise the first match is removed and the version advances by one |
| `Specialized.StringCollection.Remove` | NLog/src/NLog/Internal/StringCollection.cs:186-189 | corrected: the new contents are the old contents with the first match removed, or unchanged when there is none (see `RemoveSeq`); the version advances only when something was removed |
| `Specialized.StringCollection.GetEnumerator` | NLog/src/NLog/Internal/StringCollection.cs:236-239 | a fresh enumerator over this collection's current contents and version, positioned before the first element |
| `Specialized.Enumerator.constructor` | NLog/src/NLog/Internal/StringCollection.cs:198-201 | the cursor starts before the first element of the collection's current contents, and records its version |
| `Specialized.Enumerator.Current` | NLog/src/NLog/Internal/StringCollection.cs:203-217 | defined only while on an element, where it is the element at the cursor |
| `Specialized.Enumerator.MoveNext` | NLog/src/NLog/Internal/StringCollection.cs:219-222 | true exactly when another element follows, and the cursor then moves onto it; otherwise the cursor is exhausted and stays exhausted |
| `Specialized.Enumerator.Reset` | NLog/src/NLog/Internal/StringCollection.cs:224-227 | the cursor returns to before the first element |
| `Specialized.Enumerate` | NLog/src/NLog/Internal/StringCollection.cs:194-239 | over an unmodified collection, `MoveNext` returns true exactly `Count` times, and after the k-th success `Current` is the k-th element, so the elements come out in order |

## Left out

- Null references: a null `items` argument (a `NullReferenceException` in `foreach`) cannot occur because Dafny references here are non-null. Null string elements are not modelled either, because `string` has no null value. So the `ArgumentNullException` that the `IList` view's argument check raises for a null element in `Add`, `Insert`, the indexer set and `Remove` is not modelled either.
- Runtime exceptions: the `ArgumentOutOfRangeException` of `Insert` and of the indexer, and the `InvalidOperationException` of `Current` before the first or after the last element, are preconditions. A caller that would trigger one cannot be verified.
- The `(String)` casts in the indexer and in `Current` are always satisfied, because the list is typed `seq<string>`.
- Enumerator invalidation: the `InvalidOperationException` that the `ArrayList` enumerator throws after the list is mutated is a precondition. `Enumerator.Valid` requires that the collection's version and contents are still those the enumerator started on. Every mutator advances the version, so no mutation may happen while an enumerator is in use.
- Specialized.StringCollection.AddRangeCollection: requires the argument to be another collection. `AddRange(this)` enumerates the collection while appending to it, and on a non-empty collection the enumerator's version check then throws after the first append.
- `CollectionBase` members that this file does not declare are not modelled: the `OnInsert`/`OnRemove` hooks, `Capacity`, `Clear`, `RemoveAt` and the non-generic `IList` surface. `Count` is modelled only as the length of the list.
- `ArrayList` storage: capacity growth and the backing array are not modelled. The list is a value of type `seq<string>`, so the model keeps the contents and their order but not the memory layout.
- The `ArgumentException` that the as-written `Remove` throws for an absent value is the `thrown` result of `RemoveAsWritten`; `Remove` models the corrected behaviour.
- String comparison is plain `string` equality, which matches ordinal `String.Equals`. Culture-sensitive comparison is not modelled.
- The `#if NETCF` conditional compilation and the licence header are build configuration, not behaviour.

## Findings

| source | as written | input that shows it | evidently intended | confidence | as-written member | corrected member |
|---|---|---|---|---|---|---|
| NLog/src/NLog/Internal/StringCollection.cs:186-189 | `Remove` forwards to the `IList` view of `CollectionBase`, whose `Remove` throws `ArgumentException` when no element equals the value | `Remove("zz")` on a collection holding `["a"]` | do nothing, as the framework `System.Collections.Specialized.StringCollection.Remove` does, since this class substitutes for it (line 36) | medium; follows the documented `CollectionBase` behaviour, not executed | `BackingList.CollectionRemoveDiverges` | `Specialized.StringCollection.Remove` |
