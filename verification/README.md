# Stablecoin chain page: pie data, CSV export and view helpers

This project models the pure derivations inside the stablecoin ("pegged asset")
chain page of the DefiLlama front end, `src/containers/PeggedContainer/index.tsx`.
The page is a React component. It shows circulating supply by chain as a pie
chart, a dominance chart and a table, and it offers a CSV download. The parts
with behaviour that can be stated are modelled here:

- **Pie-chart data** (`PieChart`). The chain totals become `{name, value}` slices.
  The first ten chains *in input order* are sorted by value, largest first. One
  "Others" slice follows, holding the sum of every chain from the eleventh on.
  The model keeps the truncate-then-sort order as written. `TruncationPrecedesSorting`
  gives an input where the largest chain ends up in "Others". `SortedTotalsGiveTopTen`
  shows that the named slices are the global top ten when the totals arrive
  largest first.
- **CSV export** (`CsvExport`). The header row is "Timestamp", "Date" and the chain
  names. After it comes one row per day record, in ascending order of date. Each
  row holds the raw date, the formatted date, and each chain's value, or an empty
  field when that value is `null` or missing. Fields are joined with `,` and rows
  with `\n`, with no quoting.
- **View helpers** (`PeggedView`). These are the heading's `Capitalize`, the
  `showByGroup` flag for the categories "All" and "Non-EVM" with the
  first-column padding it selects, and the chain colour map.
- **Supporting modules**. `Sorting` is a stable sort on an integer key, the
  behaviour ECMAScript requires of `Array.prototype.sort`. It is used by both
  sorts in the file. `Text` holds JavaScript's `join`/`split` on one character
  and the decimal text of an integer.

Collaborators that the file only calls become parameters:
- The date formatter `toNiceCsvDate` is the function parameter `niceDate`.
- The colours returned by `getRandomColor` are the sequence parameter `draws`.
- The outputs of the data hooks `useCalcCirculating` and `useCalcGroupExtraPeggedByDay`
  are arbitrary input sequences.

## Model

| member | source | states |
|---|---|---|
| `Sorting.SortBy` | src/containers/PeggedContainer/index.tsx:131 | the sorted sequence has the input's length and elements (same multiset) and its keys never decrease |
| `Sorting.SortIsStable` | src/containers/PeggedContainer/index.tsx:140 | elements with equal keys keep their input order, as the ECMAScript sort guarantees |
| `Sorting.StableSortIsUnique` | src/containers/PeggedContainer/index.tsx:131 | two key-sorted sequences that list every key's elements in the same order are equal, so a stable ascending sort has exactly one result |
| `Sorting.SortOfSortedIsIdentity` | src/containers/PeggedContainer/index.tsx:131 | sorting input that is already in key order leaves it unchanged |
| `Sorting.SortKeepsSum` | src/containers/PeggedContainer/index.tsx:129-131 | sorting does not change any sum over the elements |
| `PieChart.Slices` | src/containers/PeggedContainer/index.tsx:123 | every chain total becomes a slice with the same name and value, at the same position |
| `PieChart.NamedPart` | src/containers/PeggedContainer/index.tsx:129-131 | the named slices number min(n,10), are in non-increasing order of value, and are the first min(n,10) chains' slices rearranged, with chains of equal value in their input order |
| `PieChart.PieData` | src/containers/PeggedContainer/index.tsx:122-133 | the pie has min(n,10)+1 slices, at most 11; the named slices are non-increasing and a rearrangement of the first ten chains; the last slice is "Others" with the sum of the circulating totals of chains 11 onward, which is 0 when there are at most ten chains |
| `PieChart.PieNamedIsStableSort` | src/containers/PeggedContainer/index.tsx:129-131 | the named slices are the only arrangement of the first ten chains that is descending and keeps chains of equal value in input order: any such arrangement equals them |
| `PieChart.PieConservesTotal` | src/containers/PeggedContainer/index.tsx:125-132 | the slice values add up to the total of all chains' circulating supply |
| `PieChart.SortedTotalsGiveTopTen` | src/containers/PeggedContainer/index.tsx:129-131 | when the totals arrive largest first, the named slices are the first ten chains in input order, and no chain folded into "Others" has a larger value than a named slice |
| `PieChart.TruncationPrecedesSorting` | src/containers/PeggedContainer/index.tsx:129-132 | with ten chains of value 0 followed by one of value 5, the ten named slices all have value 0 and "Others" holds 5, so the named slices are not the global top ten |
| `CsvExport.ChainField` | src/containers/PeggedContainer/index.tsx:142 | a chain's field is the number the record holds for it (a present 0 included); it is the empty string when the record holds `null` for the chain or has no entry for it; a chain called "date" reads the record's own date |
| `CsvExport.HeaderRow` | src/containers/PeggedContainer/index.tsx:138 | the header is "Timestamp", "Date", then every chain name in input order |
| `CsvExport.DataRow` | src/containers/PeggedContainer/index.tsx:142 | a day's row has 2 + chains fields: the raw date, the formatted date, then the chain fields in chain order |
| `CsvExport.ByDate` | src/containers/PeggedContainer/index.tsx:139-140 | the records are written in ascending order of date, each exactly as often as it was given, and records with equal dates keep their input order |
| `CsvExport.CsvRows` | src/containers/PeggedContainer/index.tsx:138-143 | there is one header row followed by exactly one row per day record; every row has 2 + chains fields; data rows follow the records in date order, with ascending dates in field 0 |
| `CsvExport.CsvRowsIgnoreInputOrder` | src/containers/PeggedContainer/index.tsx:139-140 | any two inputs that list the records of each date in the same relative order give the same rows |
| `CsvExport.CsvRowsIgnorePermutation` | src/containers/PeggedContainer/index.tsx:139-140 | when no two records share a date, every ordering of the same records gives the same rows |
| `CsvExport.CsvTextReadsBack` | src/containers/PeggedContainer/index.tsx:144 | when no chain name or formatted date contains ',' or '\n', the text splits into one line per row, and each line splits back into exactly that row's fields |
| `CsvExport.CsvExample` | src/containers/PeggedContainer/index.tsx:137-144 | a worked example: for chains A and B with records {date 2: A 7, B null} and {date 1: A 5, B 3}, the text is `Timestamp,Date,A,B\n1,<date 1>,5,3\n2,<date 2>,7,` |
| `CsvExport.CommaInChainNameSplitsColumn` | src/containers/PeggedContainer/index.tsx:144 | nothing is escaped: a chain named "a,b" makes the header split into four fields instead of three |
| `CsvExport.IntTextIsPlain` | src/containers/PeggedContainer/index.tsx:144 | the text of a number never contains ',' or '\n' |
| `Text.SplitJoin` | src/containers/PeggedContainer/index.tsx:144 | splitting a join gives back the parts when no part contains the separator |
| `Text.JoinSplit` | src/containers/PeggedContainer/index.tsx:144 | joining the pieces of a split gives back the string |
| `Text.JoinAvoids` | src/containers/PeggedContainer/index.tsx:144 | a character other than the separator that is in none of the parts is not in their join |
| `Text.IntTextRoundTrip` | src/containers/PeggedContainer/index.tsx:144 | the decimal text of an integer reads back as that integer |
| `PeggedView.Capitalize` | src/containers/PeggedContainer/index.tsx:56-58 | the length is unchanged and every character after the first is unchanged; the first character is upper-cased; the result equals the input exactly when the input is empty or does not start with a lower-case letter |
| `PeggedView.CapitalizeIdempotent` | src/containers/PeggedContainer/index.tsx:56-58 | capitalising twice is the same as capitalising once |
| `PeggedView.ShowByGroup` | src/containers/PeggedContainer/index.tsx:147 | the flag is true exactly when the category is "All" or "Non-EVM" |
| `PeggedView.FirstColumnPadding` | src/containers/PeggedContainer/index.tsx:50-54 | the first column gets 40 px exactly when rows are shown by group, and 20 px otherwise |
| `PeggedView.CategoryPadding` | src/containers/PeggedContainer/index.tsx:147 | "All" and "Non-EVM" get 40 px of first-column padding and every other category gets 20 px |
| `PeggedView.FromEntries` | src/containers/PeggedContainer/index.tsx:116 | the map's keys are exactly the given keys; a key takes the value of its last occurrence; every value comes from the given values |
| `PeggedView.ChainColors` | src/containers/PeggedContainer/index.tsx:115-118 | the colour map's keys are the chains plus "Others"; "Others" gets the last colour drawn; a chain gets the colour drawn for its last occurrence, unless it is called "Others"; every colour is one that was drawn |

## Left out

- Rendering: React, JSX, the styled components and the page layout (lines 16-54 and 151-186) are presentation with nothing to state. The only exception is the padding value selected by `showByGroup`.
- The column definitions and their cell renderers, `columnsToShow`, `NamePegged`, `isOfTypePeggedCategory` and `CustomLink` (lines 70-113). They are thin wrappers over table components that are not part of this model.
- The data hooks `useCalcCirculating`, `useCalcGroupExtraPeggedByDay` and `useGroupBridgeData` (lines 120, 135, 149) are not part of this model. Their outputs are taken as arbitrary inputs, and the grouped table rows are not modelled.
- `toNiceCsvDate` is an uninterpreted parameter. `getRandomColor` is replaced by the sequence of colours it returns. `formattedNum` is not modelled.
- `download` (the browser file save of "chains.csv") is left out: the model stops at the file's text.
- Memoisation by `useMemo` is left out, and so is the in-place mutation of the hook's day array by `sort`. Sorting is modelled as a function returning a new sequence.
- `PieChart.PieData`: circulating values are mathematical integers, not JavaScript doubles. Floating-point rounding of the "Others" sum and NaN comparisons in the sort comparator are not modelled. `SumBy` adds from the right and `reduce` from the left; for integers the two agree.
- `CsvExport.CsvRows`: dates and values are integers, rendered as plain decimal text. Fractional values are not modelled, and neither is the exponent notation that `toString` uses at or above 1e21 or below 1e-6.
- `CsvExport.ChainField`: only the record's own properties are read. A chain named after a property inherited from `Object.prototype` ("constructor", "toString", "valueOf", "hasOwnProperty", "__proto__", ...) reads that inherited value in JavaScript. `??` keeps such a value, and `join` writes its text (for example `function Object() { [native code] }`) into the file. The model gives `undefined`, and so an empty field, instead.
- `PeggedView.Capitalize`: `toUpperCase` is modelled for the ASCII letters only. Other characters are left unchanged, so Unicode case mapping (including mappings that change the length) is not modelled.
