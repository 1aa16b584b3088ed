# Movie dashboard: table logic

A model of the table logic under the Streamlit dashboard `data1.py`, which
explores a movie-metadata table. The dashboard loads the table once, cleans it,
and offers five independent analyses plus two fixed statistical reports. What is
modelled is what the script computes on its way to the charts:

- **Loading and cleaning** (`load_data`). Five numeric columns (budget,
  revenue, popularity, vote_average, runtime) are coerced with
  `pd.to_numeric(errors="coerce")`. Two flags are derived:
  `belongs_to_collection` (the raw field is non-null) and `has_slogan` (the
  tagline is non-null and not blank once stripped). Every row missing one of
  the five numbers is then dropped. Module `Movies` holds the method
  `LoadData`, which loops over the rows, and the function `Cleaned` that
  specifies it.
- **Row selections** (module `Seqs`). A boolean mask (`Where`), the
  positions a mask keeps (`Kept`), the present values of an optional column
  (`Present`), and the split by a boolean column (`SplitBy`).
- **Top-N key selection and `isin`** (module `Selection`).
  `value_counts().nlargest(n).index` becomes `TopN` and `TopKeys`. `isin`
  becomes `InGroups`.
- **Country extraction** (module `Countries`). `str.extract` with the
  pattern `'name': '([^']+)'` on the stringified `production_countries` cell
  becomes `ExtractCountry`. Its contract is stated against the regex's own
  meaning (`IsMatch`).
- **Per-analysis views** (module `Views`). The strict cutoffs `runtime < 300`
  and `revenue < 1e9`, the top-8 and top-6 language and country selections,
  the boxplot row sets, the boolean groupings, and the method that adds the
  `production_country` column. Every view is a function of the cleaned table
  value. Building a view therefore never changes the table that the other
  views read.
- **Reports** (module `Reports`). The hard-coded Shapiro-Wilk and
  Kruskal-Wallis values and the strict `p < 0.05` branch choice.

Table rows are records. Numeric cells are `Option<real>` and text cells are
`Option<string>`, with `None` standing for a missing value (pandas' NaN).

## Model

| member | source | states |
|---|---|---|
| `Movies.LoadData` | data1.py:10-17 | the loop over the raw rows returns exactly the cleaned table `Cleaned(raw, parse)` |
| `Movies.Cleaned` | data1.py:17 | every row of the cleaned table has all five numeric values; the table is no longer than the input |
| `Movies.CleanedKeepsExactlyReadableRows` | data1.py:13-17 | raw row i survives iff its five numeric cells are present and parse; survivors keep their relative order; the k-th cleaned row is the coerced form of the k-th survivor |
| `Movies.UnparsedCellDropsRow` | data1.py:14 | a numeric cell that does not parse becomes missing (not zero or another default), and its row does not survive |
| `Movies.Coerce` | data1.py:14 | a coerced cell holds a number iff the raw cell is present and parses, and then holds the parsed number; an empty or unparsable cell becomes missing |
| `Movies.CoerceAll` | data1.py:13-16 | the coerced table has one row per raw row, in order, the i-th being the coerced form of raw row i |
| `Movies.CoerceRow` | data1.py:13-16 | `belongsToCollection` iff the raw collection cell is non-null; `hasSlogan` iff the tagline is non-null and has a non-whitespace character; the row is complete iff all five cells parse, and then holds the parsed values; `original_language`, `original_title` and `production_countries` pass through unchanged |
| `Movies.HasSlogan` | data1.py:16 | true iff the tagline is present and contains a character that is not whitespace, so an all-whitespace tagline gives false |
| `Movies.TrimStart` | data1.py:16 | removes exactly the leading run of whitespace (the result is a suffix; what is removed is whitespace; the result does not start with whitespace) |
| `Movies.TrimEnd` | data1.py:16 | removes exactly the trailing run of whitespace, symmetrically |
| `Movies.Strip` | data1.py:16 | `str.strip()`: the result is the slice of the input left after a leading and a trailing run of whitespace are cut off, and a non-empty result neither starts nor ends with whitespace |
| `Movies.MiddleOfTrims` | data1.py:16 | (proof helper) a whitespace prefix cut followed by a whitespace suffix cut leaves a middle slice |
| `Movies.StripEmptyIffBlank` | data1.py:16 | `strip()` gives the empty string iff every character is whitespace |
| `Movies.CleanedAppend` | data1.py:17 | appending a raw row appends its coerced form exactly when its five cells parse |
| `Movies.DeriveCommutesWithDrop` | data1.py:15-17 | deriving the flags before the drop gives the same table as dropping the raw rows first and deriving afterwards |
| `Movies.ThreeRowScenario` | data1.py:13-17 | budgets 1000, missing, 2000 with revenues 5000, 9000, 1000 leave exactly the first and third rows, in order |
| `Movies.KeepDropKeep` | data1.py:17 | (proof helper) a mask keeping the first and third of three rows gives those two, in order |
| `Seqs.Where` | data1.py:42 | a boolean-mask selection keeps a row iff it is in the table and the mask holds for it, and is no longer than the table |
| `Seqs.KeptSelectsPositions` | data1.py:42 | the kept positions increase, are in range, and contain position i iff the mask holds for row i |
| `Seqs.WhereKeepsSelectedPositions` | data1.py:42 | the k-th selected row is the table's row at the k-th kept position (order preserved) |
| `Seqs.WhereCounts` | data1.py:85 | a mask keeps every copy of a row it accepts and no copy of one it rejects |
| `Seqs.WhereDropsRejected` | data1.py:43 | (proof helper for `TopN` termination) a mask that rejects some row gives a strictly shorter result |
| `Seqs.Present` | data1.py:43 | the present values of a column are exactly the keys some row holds (missing cells are skipped) |
| `Seqs.PresentCountsRows` | data1.py:43 | a key's frequency among the present values equals the number of rows holding it |
| `Seqs.SplitBy` | data1.py:53 | the two groups of a boolean column hold exactly the rows where it is true and false |
| `Seqs.SplitByPartitions` | data1.py:57 | every row lands in exactly one of the two groups (as multisets, and by count) |
| `Selection.Leader` | data1.py:43 | the chosen key occurs in the candidates, and no candidate is more frequent |
| `Selection.TopSelectionStep` | data1.py:43 | taking a most frequent key first and a top selection of the other keys gives a top selection |
| `Selection.PrependDistinct` | data1.py:43 | (proof helper) a new key in front of distinct keys keeps them distinct |
| `Selection.PrependSorted` | data1.py:43 | (proof helper) a most frequent key in front of keys sorted by frequency keeps them sorted |
| `Selection.TopN` | data1.py:43 | at most n distinct keys, all taken from the data; fewer than n only when every key is taken; no key left out is more frequent than one taken; taken keys come most frequent first |
| `Selection.AllSelectedWhenFew` | data1.py:43 | with at most n distinct keys, all of them are selected |
| `Selection.DistinctCardinality` | data1.py:43 | (proof helper for `AllSelectedWhenFew`) a selection without repeats has as many distinct keys as entries |
| `Selection.PresentFrequencies` | data1.py:43 | each key's `value_counts` entry is its row count |
| `Selection.TopKeys` | data1.py:68 | the `value_counts().nlargest(n)` bounds over rows: at most n distinct keys, each held by some row; missing cells never counted; dominance by row count |
| `Selection.InGroups` | data1.py:44 | `isin` keeps a row iff its key is present and among the selected keys; it keeps every copy of a selected row and none of any other (multiset counts) |
| `Selection.InGroupsKeepsOrder` | data1.py:44 | `isin` keeps the rows in order: the k-th kept row is the row at the k-th increasing position whose key is selected, and a position is kept iff its key is selected |
| `Countries.NameAt` | data1.py:67 | a capture found at position p is a match of the pattern at p |
| `Countries.MatchIsQuoteRun` | data1.py:67 | a match at p has a single capture, the one `NameAt` finds |
| `Countries.NoCaptureNoMatch` | data1.py:67 | where `NameAt` finds nothing, the pattern does not match at p |
| `Countries.ExtractFrom` | data1.py:67 | nothing iff no match at or after p; otherwise the capture of a match with no match between p and it |
| `Countries.ExtractCountry` | data1.py:67 | absent iff the pattern matches nowhere; a result is non-empty, contains no `'`, and is the capture of a match with no match at an earlier position |
| `Countries.LeftmostMatchIsExtracted` | data1.py:67 | conversely, the capture of the leftmost match is the extracted country |
| `Countries.EmptyCapturesGiveNoCountry` | data1.py:67 | a text where every `'name': '` is followed by `'` or by the end of the text gives no country |
| `Countries.MatchHasPrefixAndCapture` | data1.py:67 | a match has the whole prefix before a first captured character that is not `'` |
| `Countries.MatchOpensWithQuoteN` | data1.py:67 | (proof helper for `NoMatchBefore`) a match opens with `'n` |
| `Countries.MissingCellHasNoCountry` | data1.py:67 | a missing cell becomes "nan" and gives no country |
| `Countries.Stringify` | data1.py:67 | `astype(str)`: a present cell is its own text; a missing cell gives a text ("nan") too short to hold the pattern's prefix |
| `Countries.UnitedStatesExample` | data1.py:67 | `[{'iso_3166_1': 'US', 'name': 'United States'}]` gives `United States` |
| `Countries.UnitedStatesText` | data1.py:67 | (proof helper) the example text has the prefix at position 22 and no `'n` before it |
| `Countries.NoMatchBefore` | data1.py:67 | (proof helper) with no `'n` before position p the pattern cannot match before p |
| `Views.RuntimeView` | data1.py:42 | the runtime view holds exactly the table's rows with runtime < 300 |
| `Views.RevenueView` | data1.py:85 | the revenue view holds exactly the table's rows with revenue < 1e9 |
| `Views.CutoffsAreStrict` | data1.py:42 | a row exactly at a cutoff (runtime 300, revenue 1e9) is excluded |
| `Views.OutlierViewsKeepOrder` | data1.py:85 | both outlier views are the table's rows at the increasing positions their mask selects |
| `Views.RuntimeLanguages` | data1.py:43 | at most 8 distinct languages, each held by a row under the runtime cutoff; fewer than 8 only when every language of those rows is taken; dominance is counted over the filtered rows, not the whole table |
| `Views.RuntimeBoxRows` | data1.py:44 | the runtime boxplot has exactly the rows under the cutoff whose language is selected, each as many times as in the runtime view |
| `Views.SloganGroups` | data1.py:53-58 | the two groups hold exactly the rows with and without a slogan |
| `Views.CollectionGroups` | data1.py:85-91 | the two groups hold exactly the rows under the revenue cutoff that do and do not belong to a collection |
| `Views.RatingLanguages` | data1.py:68 | at most 6 distinct languages, each held by some row; fewer than 6 only when every language is taken; dominance over the whole table |
| `Views.RatingByLanguageRows` | data1.py:69 | exactly the rows whose language is among the six, each as many times as in the table |
| `Views.CountryOf` | data1.py:67 | a row has no country iff the pattern matches nowhere in its stringified cell; a missing cell gives no country; a country is non-empty and contains no `'` |
| `Views.AddProductionCountry` | data1.py:66-67 | the copied table with the country column has the same rows, in order, each beside the country extracted from it |
| `Views.RatingCountries` | data1.py:74 | at most 6 distinct countries, each extracted from some row; fewer than 6 only when every extracted country is taken; rows without a country are not counted; dominance by row count |
| `Views.RatingByCountryRows` | data1.py:75 | exactly the rows whose country is among the six, each as many times as in the table; a row with no country never appears |
| `Reports.NormalityReport` | data1.py:112-117 | the "not normal" branch is taken iff p < 0.05 |
| `Reports.ComparisonReport` | data1.py:127-132 | the "significant differences" branch is taken iff p < 0.05 |
| `Reports.ThresholdIsStrict` | data1.py:112 | p = 0.05 exactly takes the "normal" and "no significant differences" branches |
| `Reports.HardCodedBranches` | data1.py:104-128 | with the hard-coded p = 0.0000 both reports take the "not normal" and "significant differences" branches |

## Left out

- Streamlit presentation: the title, toggles, subheaders, markdown conclusions, the alert boxes, the `.4f` formatting and the feedback widget with its `sentiment_mapping` lookup (data1.py:6, 22-36, 108-140). These are UI only.
- Plotly charts (`px.scatter`, `px.box`, `px.histogram`, `st.plotly_chart`). These are foreign rendering calls. The model keeps only the rows and groups each chart is given, and the bin count 50 (`Views.HistogramBins`).
- `pd.read_csv` (data1.py:11). This is file I/O, so the raw rows are an input sequence of records that always have all ten columns. Not modelled: the missing-file and unreadable-file failures there, and the `KeyError` that `load_data` raises at data1.py:14-16 when the file lacks one of the columns it reads; a `RawRow` cannot lack a column, so `LoadData` has no such error path.
- The numeric grammar of `pd.to_numeric`. It belongs to a foreign library, so it is the parameter `parse: string -> Option<real>`. A cell is missing when it is empty or when `parse` gives `None`.
- The correlation matrix (data1.py:34). It is floating-point statistics done by pandas.
- IEEE NaN. Missing values are `None`, and a comparison with a missing value is false (`Views.Below`), as pandas evaluates it.
- `@st.cache_data` memoisation (data1.py:9) and the unused `scipy` import (data1.py:100). These are framework caching and dead code.
- Tie order inside `value_counts().nlargest`. pandas does not document it. `Selection.TopN` takes the first of equally frequent keys, but no contract depends on that choice: every stated property holds for any tie order.
- Non-text tagline columns. With `low_memory=False` the reader infers one type for the whole `tagline` column; a column that is entirely empty or entirely numeric is read as numbers, and `.str.strip()` at data1.py:16 then raises `AttributeError`, so `load_data` fails. `RawRow` holds every tagline as optional text, so `LoadData` has no such error path and always returns a table.
- The rebinding of the script's global `df` at data1.py:66. It makes the later collection analysis see a table that carries the extra `production_country` column. That analysis reads only columns the two tables share, so the model gives `AddProductionCountry` a fresh table and leaves the cleaned table as it was.
- Floating-point rounding. Numbers are Dafny `real`, and the constants 300, 1e9 and 0.05 are exact.
