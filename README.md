# Level-bracket grouping of game items

This project models the item-processing core of a tool that downloads
game-data dumps and writes the item dataset out one file per level
bracket. The model covers three parts:

- The bracket table. This is a fixed ascending list of bracket start
  levels: 6, 20, 35, …, 230.
- The bracket function. It maps an item level to the start of its bracket.
  It is a `reduce` with no initial value. The accumulator starts at the
  first threshold. For each later threshold `curr`, the fold keeps `curr`
  when `level >= curr` and keeps the previous choice otherwise.
- The grouping. It creates an empty list for every bracket start. Then it
  walks the items in order and appends each one to the list of its bracket.

Three modules:

- `LevelRanges` (`level_ranges.dfy`) holds:
  - the table `LEVEL_RANGES`;
  - the fold, as `FoldRangeStart`/`RangeStart`, over any non-empty table
    `ranges`;
  - a declarative reading of its result, `IsFloorBracket`: the largest
    threshold not above the level, or the first threshold when the level
    reaches no other;
  - the lemmas that connect the fold and `IsFloorBracket`.

  `GetLevelRangeStart` applies `RangeStart` to the fixed table.
- `Grouping` (`grouping.dfy`) holds:
  - the item record;
  - the method `GroupItemsByLevel`. Its two loops mirror the two `forEach`
    loops, and it updates a `map` from bracket start to list.
    `GroupItemsByFixedLevels` runs it with the fixed table;
  - the reference definition `BucketOf`: the items of a bracket, in input
    order;
  - lemmas stating that the buckets partition the input, that each item
    is in its own bucket and in no other, and that every bucket keeps the
    input order.
- `DataTypes` (`data_types.dfy`) holds the constant list of the 16 dataset
  names.

The bracket table is a parameter of `RangeStart` and `GroupItemsByLevel`.
The source uses its constant there, and `LevelRangesAscending` proves that
the constant meets the lemmas' requirement. A `reduce` with no initial
value throws on an empty array. That is why the table is required to be
non-empty. The constant is non-empty, so the source never reaches that
error.

The bracket is chosen by floor semantics: the largest threshold at or
below the level. A ceiling reading, the smallest threshold at or above the
level, would put level 21 in bracket 35; the code puts it in bracket 20.
Every level below 20, including 0 and negative levels, lands in bracket 6.
`GetLevelRangeStartExamples` states these cases.

## Model

| member | source | states |
|---|---|---|
| `LevelRanges.FoldRangeStart` | src/index.ts:49 | the fold of the callback `Pick` (take `curr` when `level >= curr`, else keep `prev`); its result is the seed or one of the thresholds it runs over |
| `LevelRanges.RangeStart` | src/index.ts:47-50 | the bracket of any level is an entry of the table, so the lookup at line 85 always finds an initialised key |
| `LevelRanges.FoldIsFloor` | src/index.ts:49 | from a seed below an ascending rest, the fold keeps the seed exactly when the level is below all of the rest, and otherwise returns the largest threshold not above the level |
| `LevelRanges.RangeStartIsFloor` | src/index.ts:43-50 | on an ascending table the bracket is the largest threshold not above the level, or the first threshold when no other is reached |
| `LevelRanges.FloorBracketUnique` | src/index.ts:43-50 | on an ascending table at most one threshold fits that description |
| `LevelRanges.RangeStartCharacterized` | src/index.ts:43-50 | a threshold is the fold's result if and only if it is the floor bracket of the level |
| `LevelRanges.RangeStartBelowSecond` | src/index.ts:49 | every level below the second threshold, including levels below the first, lands in the first bracket |
| `LevelRanges.RangeStartInInterval` | src/index.ts:49 | a level in the half-open interval from a threshold up to the next one (or at or above the last one) lands in that threshold's bracket; a level equal to a threshold lands in it |
| `LevelRanges.RangeStartMonotone` | src/index.ts:43-50 | a higher level never lands in a lower bracket |
| `LevelRanges.LevelRangesAscending` | src/index.ts:43-45 | the fixed table is strictly ascending |
| `LevelRanges.GetLevelRangeStart` | src/index.ts:43-50 | with the fixed table, the bracket is a table entry and is the floor bracket of the level |
| `LevelRanges.GetLevelRangeStartExamples` | src/index.ts:43-50 | with the fixed table: -4, 0, 6 and 19 go to 6; 20, 21 and 34 go to 20; 35 goes to 35; 229 goes to 215; 230 and above go to 230 |
| `Grouping.BucketOf` | src/index.ts:82-86 | a bucket holds only input items, and only items whose bracket is the bucket's key |
| `Grouping.GroupItemsByLevel` | src/index.ts:73-89 | the keys of the result are exactly the table entries, present even when empty; each key's list is that bracket's items in input order; for an ascending table the lists, taken in table order, hold exactly the input items, so their lengths add up to the number of items |
| `Grouping.GroupItemsByFixedLevels` | src/index.ts:73-89 | with the fixed table, the result's keys are exactly its 16 bracket starts, each list is that bracket's items in input order, and the lists together are a rearrangement of the input |
| `Grouping.FlattenIsAllBuckets` | src/index.ts:82-86 | the lists of a map that holds each key's bucket, taken in key order, are those buckets one after the other |
| `Grouping.BucketCount` | src/index.ts:82-86 | an item occurs in the bucket of its bracket as often as in the input, and in every other bucket not at all |
| `Grouping.ItemInOneBucket` | src/index.ts:82-86 | every input item is in a bucket if and only if that bucket is its bracket |
| `Grouping.BucketPreservesOrder` | src/index.ts:82-86 | a bucket is a subsequence of the input: unchanged items in their input order |
| `Grouping.AllBucketsCount` | src/index.ts:77-86 | the buckets of distinct keys together hold each item as often as the input when its bracket is among the keys, and not otherwise |
| `Grouping.GroupingIsPartition` | src/index.ts:73-89 | the buckets of an ascending table partition the input: same multiset of items, and their lengths add up to the number of items |
| `DataTypes.TypesDistinct` | src/index.ts:21-38 | the dataset list has 16 distinct names, "items" among them |

## Left out

- Fetching the version and the datasets over HTTP (`getVersion`, `fetchData`, src/index.ts:52-57, 67-71) is left out. It is network I/O through a foreign library.
- Directory creation and file writing (`ensureDirectoryExists`, `processAndSaveData`, src/index.ts:59-65, 91-131) are left out. They are filesystem I/O. That includes the order in which `Object.entries` lists the buckets and the JSON pretty-printing.
- The process entry point and exit code (`main`, src/index.ts:133-145) are left out. They are process plumbing.
- Item levels are JavaScript numbers, which are floating point. The model treats them as integers.
- Items are modelled as well-formed records with an integer level. The source receives untyped data. Three error or coercion paths on malformed input are not modelled. An item without `definition` or `definition.item` makes the read of its level throw a TypeError, and the run aborts. Input that is not an array makes `items.forEach` throw. A missing or NaN level fails every `level >= curr` comparison, so that item lands in the first bracket, 6.
- An item record keeps only the fields the grouping reads or carries: the id, the level, and the title and description maps. The grouping passes records through unchanged, so no other field affects it.
- src/types.d.ts and src/db/schema.ts declare types and a table schema only. They contain no logic, so they are not part of this model.
