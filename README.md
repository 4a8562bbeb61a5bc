# EuroMillions predictor: a Dafny model of its weighting and sampling core

The application is a Streamlit page built around one class, `EuroMillionsWeb`. This project models:

- **Loading.** `load_data` reads the draw history from a spreadsheet. Each row holds a date, five "Lucky Numbers" and two "Lucky Stars", the last two as comma-separated text. It parses the cells and sorts the draws newest first by their `%Y-%m-%d` date strings. It then takes a two-year "recent" window ending at the latest draw and counts every number and star over the whole history and over the window. Finally it blends the two frequencies into a combined score per value, `0.3 * all/N + 0.7 * recent/Nr`, for the numbers 1..50 and the stars 1..12.
- **Bet generation.** `generate_bets` turns the combined scores into probabilities, falling back to uniform when they sum to zero. It then draws five bets, each of five numbers and two stars without replacement (numpy's `random.choice`), sorted ascending.
- **Manual entry.** A draw typed into the "add draw" form is parsed and checked for five numbers and two stars. It is written as a new spreadsheet row in front of the loaded rows, the sheet is re-sorted and saved, and everything is reloaded.
- **Statistics.** The page shows the ten numbers and the five stars with the highest combined score, from `Counter.most_common`.

Modules, in dependency order:

- `Common`: the error cases, `Result`, and mapping a function that may fail over a list.
- `Text`: `int(...)`, `str(n)`, `split(',')` and `','.join`.
- `Dates`: calendar dates, their ISO text, and `DateOffset(years=2)`.
- `Sorting`: a stable insertion sort, plus permutation lemmas.
- `Rows`: spreadsheet rows, the draws parsed from them, and the entry check.
- `Frequencies`: the sort, the window, the counters and the combined weights.
- `Sampling`: probabilities and weighted choice without replacement.
- `Statistics`: `most_common`.
- `App`: the class `EuroMillionsWeb`, whose methods update its fields in place.

Several places where the code and the natural description of the algorithm differ are modelled as the code behaves.

- **Empty history.** With no draws, `self.data['Date'].max()` has nothing to return and the date arithmetic on line 25 raises. The model reports `NoDraws`: `self.data` is set and the counters keep their previous values. A description that expects zero weights and uniform sampling for an empty history does not match the code.
- **Weight sums.** The combined weights of a universe sum to the number of values per draw: 5 for the numbers and 2 for the stars (`Frequencies.WeightsSumToPerDraw`). They do not sum to a value in [0, 1]. Each count is divided by the number of draws, not by the number of values.
- **Entry check.** The form checks only the counts (line 177), not the ranges or repeats. `Rows.EntryChecksCountsOnly` shows that five 1s are accepted. `App.RepeatedNumbersStarveBets` shows that a sheet holding only such a draw makes bet generation fail.
- **Sampling failure.** Drawing fails when fewer values than requested have positive probability. That happens when the history holds between 1 and size-1 distinct values of the range (say only one number, five times over). With none at all the uniform fallback applies and drawing succeeds. Failure does not depend on the size of the universe.
- **Top-K ties.** The combined counters are filled in the order 1..n, and `most_common` keeps insertion order among equal scores. Ties are therefore listed by ascending value.

## Model

| member | source | states |
|---|---|---|
| Common.MapResult | euro_streamlit.py:20-21 | a list comprehension whose calls may raise succeeds exactly when every call does, with one result per element in order; otherwise its error is that of the first element whose call raises, every earlier call having succeeded |
| Text.ParseStr | euro_streamlit.py:181-182 | `int(str(n)) == n` for every integer, negative ones included |
| Text.FormatParse | euro_streamlit.py:181-182 | splitting the comma-joined text of a non-empty list and parsing each piece gives the list back |
| Text.FormatEmptyDoesNotParse | euro_streamlit.py:175-176 | the empty list joins to "", and parsing "" raises, so the round trip needs at least one element |
| Text.ParseEmptyFails | euro_streamlit.py:175-176 | every empty or whitespace-only piece (as in "1,,2" or "1, ,2") is not an integer |
| Text.SplitJoin | euro_streamlit.py:181-182 | splitting a comma join gives back the pieces when no piece contains a comma |
| Text.JoinSplit | euro_streamlit.py:175-176 | joining the pieces of a split gives back the text |
| Text.ParseAll | euro_streamlit.py:20-21 | the list comprehension succeeds exactly when every piece is an integer, with one value per piece; otherwise the error is `NotAnInteger` |
| Rows.ParseRow | euro_streamlit.py:20-21 | a row loads exactly when both cells parse; the draw keeps its row and the two parsed lists |
| Rows.ParseRows | euro_streamlit.py:20-21 | the sheet loads exactly when every row does, one draw per row in order; otherwise `NotAnInteger` |
| Rows.ParseEntry | euro_streamlit.py:175-178 | an entry is accepted exactly when both fields parse and hold 5 and 2 values; a parsable entry of the wrong size fails with `WrongCount` |
| Rows.NewRowLoadsBack | euro_streamlit.py:179-186 | the row written for an accepted entry loads back as exactly the entered draw |
| Rows.EntryChecksCountsOnly | euro_streamlit.py:177-178 | any five and any two integers are accepted, whether repeated or out of range |
| Rows.EntryRejectsWrongCount | euro_streamlit.py:177-178 | well-formed lists of any other sizes are refused with `WrongCount` |
| Rows.LoadedRows | euro_streamlit.py:20-21 | the draws loaded from a sheet give back its rows |
| Rows.SheetLoadsAsDraws | euro_streamlit.py:184-186 | any reordering of the rows of some draws loads back as those same draws (as a multiset) |
| Dates.IsoOrder | euro_streamlit.py:19-26 | on calendar dates, comparing `%Y-%m-%d` strings is comparing the dates |
| Dates.TwoYearsBefore | euro_streamlit.py:25 | the result is a calendar date two years earlier, same month, with 29 February clamped to the 28th, and it is strictly before the input |
| Frequencies.SortNewestFirst | euro_streamlit.py:22 | the sorted draws are a permutation of the loaded draws |
| Frequencies.NewerOrSameIsChronological | euro_streamlit.py:22 | the sort key order on date strings is the reverse chronological order |
| Frequencies.NewestFirstOrder | euro_streamlit.py:22 | after sorting, every draw is dated on or after every later one |
| Frequencies.LatestDateIsLatest | euro_streamlit.py:24 | the maximum date is the date of some draw, and no draw is later |
| Frequencies.DrawsFromMembers | euro_streamlit.py:26 | the filter keeps exactly the draws whose date string is not below the start |
| Frequencies.DrawsFromIsSubMultiset | euro_streamlit.py:26 | the filtered draws are a sub-multiset of the sheet: no draw occurs in the window more often than in the sheet |
| Frequencies.RecentDrawsMembers | euro_streamlit.py:25-26 | the recent window holds exactly the draws dated on or after two years before the latest draw |
| Frequencies.RecentHoldsLatest | euro_streamlit.py:24-26 | the draws on the latest date are in the window, so it is never empty for a non-empty sheet |
| Frequencies.CountIn | euro_streamlit.py:30-36 | a value's count is at most the length and is positive exactly when the value occurs |
| Frequencies.CounterGet | euro_streamlit.py:45-46 | `counter.get(v, 0)` on `Counter(xs)` is the number of occurrences of `v` in `xs` |
| Frequencies.RecentCountAtMostAll | euro_streamlit.py:33-36 | no value occurs more often in the window than in the whole history |
| Frequencies.BuildWeights | euro_streamlit.py:44-62 | the loop fills exactly the keys 1..50 (or 1..12), each with the 30/70 blend of the two counts, or 0 unless both totals are positive |
| Frequencies.CountersGiveWeightTable | euro_streamlit.py:44-62 | filled from the counters of a non-empty sheet, the loop yields that sheet's weight table |
| Frequencies.WeightIsBlend | euro_streamlit.py:47-50 | on a non-empty sheet the zero branch is never taken: every weight is `0.3 * all/N + 0.7 * recent/Nr` |
| Frequencies.WeightPositiveIffDrawn | euro_streamlit.py:44-62 | every weight is non-negative, and it is positive exactly when some draw holds the value |
| Frequencies.WeightsSumToPerDraw | euro_streamlit.py:44-62 | on draws with 5 numbers in 1..50 and 2 stars in 1..12, the weights sum to exactly 5 and 2 |
| Sampling.ProbabilitiesAreDistribution | euro_streamlit.py:70 | the probabilities are non-negative and sum to 1: each weight's share when the sum is positive, otherwise 1/n each |
| Sampling.PositiveProbabilities | euro_streamlit.py:70 | a value has positive probability exactly when its weight is positive, or when no weight is |
| Sampling.PositiveWhereWeighted | euro_streamlit.py:74 | the values of positive probability are those of positive weight, or all values under the uniform fallback |
| Sampling.Choice | euro_streamlit.py:77-78 | sampling without replacement fails exactly when fewer than `size` probabilities are positive (`SampleTooLarge` or `FewerNonZeroEntries` as numpy checks them); otherwise it picks `size` distinct indices of positive probability |
| Sampling.SortAscendingStrict | euro_streamlit.py:77-78 | sorting distinct values gives a strictly ascending permutation of them |
| Sampling.SortedChoice | euro_streamlit.py:77-78 | the sorted sample fails exactly when too few values have positive probability; otherwise it is `size` values of 1..n, strictly ascending, each of positive probability |
| Statistics.ListedFirstIsTotalPreorder | euro_streamlit.py:197 | the listing order, by score descending and then by value, is a total preorder |
| Statistics.SortedItemsRank | euro_streamlit.py:197 | the sorted items are the table's entries, each ranked strictly above all later ones |
| Statistics.UnreportedRanksBelow | euro_streamlit.py:197 | a value `most_common(k)` leaves out ranks below every value it lists |
| Statistics.MostCommonIsTopK | euro_streamlit.py:197 | `most_common(k)` returns `min(k, n)` table entries in strictly decreasing rank, and every omitted value ranks below all of them |
| App.BuildTables | euro_streamlit.py:28-62 | the six counters are built from the sorted draws and their recent window |
| App.SortedDrawsLoadBack | euro_streamlit.py:20-22 | every sorted draw is what its own row parses to |
| App.SortRowsNewestFirst | euro_streamlit.py:184 | the re-sorted sheet is a permutation of the rows |
| App.RowsNewestFirstOrder | euro_streamlit.py:184 | the rewritten sheet runs from the latest date down to the earliest |
| App.AddedSheetLoads | euro_streamlit.py:184-186 | the rewritten sheet is non-empty and loads as the loaded draws plus the added one |
| App.DrawBets | euro_streamlit.py:76-80 | five bets are produced exactly when at least five numbers and two stars have positive probability, each bet a sorted pick of positive-probability values; otherwise `FewerNonZeroEntries` |
| App.OddsAreDistribution | euro_streamlit.py:69-74 | the probabilities from a loaded sheet are non-negative and sum to 1, so numpy accepts them |
| App.WeightsPositiveWhereDrawn | euro_streamlit.py:69-73 | the weight list is non-negative and positive exactly at the drawn values |
| App.OddsPositiveWhereDrawn | euro_streamlit.py:69-74 | a value has positive probability exactly when some draw holds it, or every value has when none is drawn |
| App.WellFormedSheetDrawsEnough | euro_streamlit.py:44-62 | a sheet of lottery draws holds at least five distinct numbers and two distinct stars |
| App.WellFormedSheetCanBet | euro_streamlit.py:77-78 | a sheet of lottery draws gives at least five numbers and two stars positive probability |
| App.RepeatedNumbersStarveBets | euro_streamlit.py:177 | a sheet whose only draw is five copies of one number gives exactly one number positive probability |
| App.EuroMillionsWeb.constructor | euro_streamlit.py:11-13 | the object loads its spreadsheet at once, with the outcome `load_data` gives |
| App.EuroMillionsWeb.LoadData | euro_streamlit.py:16-64 | a parse failure changes nothing; otherwise `self.data` is the sorted draws; an empty sheet keeps the counters; a non-empty one rebuilds all six from the draws |
| App.EuroMillionsWeb.SetCounters | euro_streamlit.py:30-62 | the six counter attributes take the counters of the given draws and nothing else changes |
| App.EuroMillionsWeb.GenerateBets | euro_streamlit.py:66-80 | without counters, `NotLoaded`; otherwise it fails exactly when too few values have positive probability, and it never fails on a sheet of lottery draws; on success, five bets of sorted positive-probability picks |
| App.EuroMillionsWeb.TopNumbers | euro_streamlit.py:197 | before any load has built the counters, `NotLoaded`; otherwise the ten numbers listed are the top ten by combined score, ties by ascending value |
| App.EuroMillionsWeb.TopStars | euro_streamlit.py:202 | before any load has built the counters, `NotLoaded`; otherwise the five stars listed are the top five by combined score, ties by ascending value |
| App.EuroMillionsWeb.AddDraw | euro_streamlit.py:174-186 | a bad entry or missing `self.data` changes nothing; otherwise the sheet becomes the old rows plus the new one sorted newest first, and the reloaded draws are the old ones plus the new draw, newest first, with the counters rebuilt from them |

## Left out

- The Streamlit page (`setup_ui`, lines 14 and 82-205 apart from the lines cited above), the session state and the messages on success or failure are not modelled. The exception handlers at lines 63-64 and 189-190 become `Err` results.
- Spreadsheet I/O is not modelled. The file is a field `sheet` holding its rows, so `pd.read_excel` (line 18) reads it and `to_excel` (line 185) assigns it.
- The `Numbers` and `Stars` columns that `to_excel` also writes at line 185 are dropped: the reload recomputes them from the text columns.
- Date text is not parsed. Dates arrive as calendar dates within the years 1680..2261, which keeps them and their two-years-earlier date inside pandas' Timestamp range. The date typed into the form (line 169) is taken as such a date. The source sorts the typed text at line 184 before the reload converts it; the model treats it as already in `%Y-%m-%d` form.
- Weights and probabilities are exact reals. Floating-point rounding of the 0.3/0.7 blend and of the normalisation is not modelled.
- numpy's random generator is not modelled. `Sampling.Choice` may pick any not-yet-picked index of positive probability, so the model proves what holds for every outcome, not the distribution of outcomes.
- `int(...)` is modelled for ASCII digits with an optional sign, surrounded by any of the whitespace characters of `str.isspace()` (the same set `str.strip()` removes at line 175). Python also accepts underscores between digits and non-ASCII decimal digits; these are not modelled.
- The six counters are held in one field `counters` of record type `Tables`. `load_data` only ever sets all six together before returning, so no state of the source is lost.
- `NotLoaded` stands for the `AttributeError` raised when `generate_bets`, the statistics or the form run before a load has set the attributes they read.
- The order among rows with equal dates after a sort is the model's stable insertion order. pandas uses quicksort, which may order them differently.
- `most_common` breaks ties by ascending value because the counters are filled in order 1..n. The model fixes that order, and `IsTopK` is stated for it.
