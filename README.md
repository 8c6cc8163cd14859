# Weather dashboard: filter stage

This project models the filter stage of the weather analysis dashboard (`app.py`),
a Streamlit script over a table of weather observations. It covers three parts:

- the two sidebar option lists, `["All"] + sorted(df[column].unique())`, for the
  `Weather Type` and `Location` columns;
- the filter itself. The frame starts as a copy of the dataset. When the weather
  selection is not `"All"`, the frame is rebound to the rows whose `Weather Type`
  equals it. Then, when the location selection is not `"All"`, it is rebound to the
  rows whose `Location` equals it;
- the preview table, `filtered_df.head(20)`.

Modules:

- `Weather` (Weather.dfy): a row (`Record`) has its two categorical cells and an
  opaque `Payload` of numeric columns. The filter never reads the payload. A dataset
  is a `seq<Record>`, and `"All"` is the sentinel `All`.
- `StringOrder` (StringOrder.dfy): Python's `<` on `str`, lexicographic by code
  point. This is the order `sorted` uses, and the module proves it is a strict total order.
- `OptionLists` (OptionLists.dfy): `Series.unique()`, `sorted` (an insertion sort,
  which gives the same output for a total order), and the option list.
- `Filter` (Filter.dfy): the boolean mask of one selector (`PassMask`, which is
  pandas' `frame[column] == value` for a selection other than "All") and boolean
  indexing (`Compress`). The positions a mask keeps (`Positions`) are what pandas keeps as the
  filtered frame's index. It also has one conditional step (`Select`), the two-step
  view (`View`), the conjunctive reference filter (`AdmitMask`), the preview
  (`Head`, `Preview`) and the script's filter stage as a method (`FilterStage`).
  That method rebinds one local frame, as the script does.
- `Scenarios` (Scenarios.dfy): concrete datasets for the edge cases.

A selection value that no row carries is not replaced by "All": equality
masking gives an empty view (`AbsentSelectionEmptiesView`,
`AbsentWeatherTypeGivesEmptyView`). The sentinel is compared as a string. A
selection equal to `"All"` never filters, even when `"All"` is a real value in the
data. In that case the option list offers `"All"` twice
(`AllAsDataValueIsOfferedTwice`, `AllAsDataValueDoesNotFilter`).

## Model

| member | source | states |
|---|---|---|
| `StringOrder.StrictTotalOrder` | app.py:22 | the string order `sorted` uses is irreflexive, transitive and total |
| `OptionLists.AscendingDetermined` | app.py:22 | two strictly ascending lists with the same values are equal |
| `OptionLists.OptionsDetermined` | app.py:22-25 | any strictly ascending list of exactly a column's values equals the option list after "All", so the sorted option list is determined by the column's values |
| `OptionLists.Unique` | app.py:22 | `unique()` returns each value of the column exactly once, and a value is in the result iff it is in the column |
| `OptionLists.Sorted` | app.py:22 | `sorted` returns a permutation of its input (same multiset) |
| `OptionLists.SortedStrictlyAscending` | app.py:22 | sorting a list without duplicates gives a strictly ascending list |
| `OptionLists.Options` | app.py:22-25 | an option list starts with "All"; its other entries are strictly ascending and have no duplicates; a string is among them iff it occurs as that column's value in some row |
| `Filter.OptionSelectsRows` | app.py:22-34 | choosing any option after the first keeps at least one row |
| `Filter.PassMask` | app.py:31 | the mask has one entry per row, true iff the row passes the selector; for a selection other than "All" that is iff the row's cell equals it (`frame[column] == value`) |
| `Filter.Compress` | app.py:31 | `frame[mask]` has at most as many rows as the frame, and a record is in it iff it is a row whose mask entry is true |
| `Filter.CompressEmbeds` | app.py:31 | `frame[mask]` is the rows at the mask's true positions, in increasing position order, and a position is kept iff its entry is true |
| `Filter.Select` | app.py:30-31 | one conditional step keeps no more rows than it gets, and a record is in its result iff it is in its input and passes the selector ("All" passes every row) |
| `Filter.SelectIsPassMask` | app.py:30-31 | one conditional step keeps exactly the rows that pass its selector (all rows for "All") |
| `Filter.CompressTwice` | app.py:31-34 | masking an already masked frame equals masking the original once with the conjunction of both masks |
| `Filter.View` | app.py:28-34 | the view is no longer than the dataset, and a record is in it iff it is in the dataset and satisfies every active constraint |
| `Filter.ViewIsConjunction` | app.py:28-34 | the two-step view equals the dataset filtered by the conjunction of both active constraints |
| `Filter.FilterOrderIrrelevant` | app.py:30-34 | applying the location step before the weather step gives the same view |
| `Filter.ViewIsOrderedSubsequence` | app.py:28-34 | the view is the dataset's rows at strictly increasing positions, so its length is at most the dataset's; a position is kept iff its row satisfies every active constraint |
| `Filter.ViewSoundness` | app.py:30-34 | with a weather selection other than "All", every view row has that weather type; likewise for the location |
| `Filter.AllSelectionsKeepDataset` | app.py:28-34 | with both selections "All" the view is the dataset: same rows, same order |
| `Filter.AbsentSelectionEmptiesView` | app.py:30-34 | an active selection that no row carries gives an empty view, with no fallback to "All" |
| `Filter.FilterStage` | app.py:28-34 | the script's rebinding of `filtered_df` gives the dataset filtered by the conjunctive mask; its rows are exactly the dataset rows that satisfy every active constraint |
| `Filter.Head` | app.py:75 | `head(n)` has min(n, length) rows, and they are the frame's first rows in order |
| `Filter.Preview` | app.py:75 | the preview has min(20, length) rows, and they are the frame's first rows in order |
| `Filter.PreviewOfView` | app.py:75 | the preview has min(20, view length) rows; they are the dataset rows at the first view positions, in increasing order, and each one satisfies the active constraints |
| `Scenarios.SunnySelection` | app.py:30-31 | on five rows with weather types Sunny, Rainy, Sunny, Cloudy, Rainy, selecting Sunny keeps the first and third rows (temperatures 30 and 32) |
| `Scenarios.AbsentWeatherTypeGivesEmptyView` | app.py:30-31 | selecting a weather type absent from those five rows ("Blizzard") gives an empty view |
| `Scenarios.AllAsDataValueIsOfferedTwice` | app.py:22 | if a row's weather type is literally "All", the option list is ["All", "All", "Sunny"] |
| `Scenarios.AllAsDataValueDoesNotFilter` | app.py:28-34 | with that data, selecting "All" still keeps every row |

## Left out

- OptionLists.Unique: does not state that `unique()` keeps the order of first appearance, because `sorted` discards that order straight away.
- Streamlit page setup, sidebar widgets, tabs, metrics, headings, insight text and the success banner (app.py:6, 20-26, 36-37, 48-68, 122-147) are presentation only. The selectbox is represented by the selection strings the filter receives.
- CSV loading and its `st.cache_data` memoisation (app.py:11-15) are file I/O and framework caching. The dataset is a parameter.
- CSV export (app.py:38-43) is not modelled, because the serializer is inside pandas and not visible.
- The KPI means (app.py:58-61), `describe()` (app.py:78) and the correlation matrix (app.py:114-116) are floating-point statistics computed inside pandas, so they are not modelled.
- The histogram, count plot, scatter plot and heat map (app.py:85-117) are rendering.
- Missing values (NaN) in a categorical column are not modelled. `unique()` would include NaN, and `sorted` would then fail when comparing a float with a string.
- Python strings are sequences of code points, including lone surrogates. Dafny's `char` covers Unicode scalar values only, so lone surrogates are not modelled.
- `df.copy()` (app.py:28) is the identity on values. Frames are immutable sequences here, so aliasing between the copy and the dataset does not arise.
