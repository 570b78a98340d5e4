# New Release Playlist Adds — weekly coverage report, in Dafny

The dashboard loads one table: every playlist add recorded for the latest
release Friday, one row per (playlist, song) add, plus one row with empty song
columns for each tracked playlist that added none of the week's songs. From
that table it computes a set of derived views: the Highest Reach, Most Added
and Highest Average Playlist Position metrics, the Top 5 Highest Reach chart,
the two search panels (by song and by playlist) with their dropdowns, the Cover
Artists table and the Adds By Playlist chart. It also works out the heading
date: how far back the most recent Friday is, and its day with an English
ordinal suffix.

This project models those computations as pure functions over an in-memory
table (`Table.Row`: `playlist`, and `title`, `artist`, `position`,
`followers`, `imageUrl`, `coverArtist` as `Option` values standing for
nullable columns) and proves what each view promises.

Modules, one per concern:

- `Optional`, `Seqs`: the `Option` type, distinctness, `unique()` (`Dedup`),
  `head(n)` (`Take`), sums and their invariance under reordering.
- `Sorting`: one stable insertion sort by a key compared like a Python tuple
  (a sequence of integers, lexicographically). Strings sort by their code
  points, which is how Python compares `str`. Counts, "descending" and
  "missing last" become small integer keys.
- `GroupBy`: pandas `groupby(...)` + `sum`/`size`, generic in the key and
  the summed weight. A row whose key column is null belongs to no group, as
  with pandas' default `dropna=True`. Proved: the group totals add up to the
  total over all keyed rows.
- `Table`: the row type, the song key (Title, Artist), reach, add counts.
- `ReleaseDate`: the Friday offset and `add_suffix_to_day`.
- `Leaderboards`, `AveragePosition`, `TopReach`, `Lookups`,
  `PlaylistStats`: the views.
- `Scenarios`: worked examples on small tables.

A few details of the code that the model keeps as written:

- Leaderboard names are sorted with `list.sort()`, case-sensitively by code
  point.
- Leaderboard names read `Artist - 'Title'`, with the title in single
  quotes. The song dropdown uses `Artist - Title`, without quotes
  (`Table.ChoiceLabel`).
- A song's playlists in the Top 5 chart keep first-seen order (`unique()`).
- Two songs can render the same leaderboard name (an artist containing
  ` - '`). The code then lists that name once per song, and so does the
  model.

Python's `%` with a positive modulus never returns a negative remainder, and
neither does Dafny's, so `(weekday - 4) % 7` is written as is.

## Model

| member | source | states |
|---|---|---|
| ReleaseDate.DaysToSubtract | home.py:70-74 | the step back is in 0..6; it lands on a Friday (weekday 4); it is 0 exactly when today is a Friday; no day in between is a Friday, so this is the most recent one |
| ReleaseDate.AddSuffixToDay | home.py:77-78 | the result is the day in decimal followed by one of st/nd/rd/th: a minus sign exactly for negative days, digits after it, no leading zero, and reading the digits back gives the day (by `DecimalUnique` this is `str(day)` and nothing else); 11, 12 and 13 take "th"; for days 1..31 the suffix is the English ordinal suffix, defined independently from the tens digit |
| ReleaseDate.NatDigitsRoundTrip | home.py:78 | parsing the decimal digits of a day number gives the number back |
| ReleaseDate.DecimalRoundTrip | home.py:78 | `str(day)` of any int reads back as the same day, with a minus sign exactly for negative days, digits elsewhere and no leading zero |
| ReleaseDate.CanonicalDigitsUnique | home.py:78 | a digit string without a leading zero that reads as n is the decimal spelling of n: a number has one such spelling |
| ReleaseDate.DecimalUnique | home.py:78 | any string with a sign exactly for negative days, digits after it, no leading zero, that reads back as the day, is `str(day)` |
| GroupBy.Groups | home.py:208 | every group key occurs once, each comes from some row, and every row with a non-null key is in one |
| GroupBy.TotalsPartitionKeyedRows | home.py:208 | grouping loses and double-counts nothing: the group sums add up to the sum over all rows with a non-null key |
| Table.ReachesAddUp | home.py:208 | the reaches of all songs add up to the followers of all add rows, with null followers counted as 0 |
| Leaderboards.MaxScore | home.py:211 | the maximum is the score of one of the songs and no song scores more |
| Leaderboards.Leaders | home.py:210-220 | the best score is missing exactly when there are no songs; otherwise it is a song's score and no song scores more; the names are exactly the labels of the songs at it, one per song (as a multiset), so ties are kept and nothing else is listed; the names are in ascending string order |
| Leaderboards.HighestReach | home.py:208-220 | the same about summed followers per (Title, Artist): no result exactly when no row has both Title and Artist; the names are the `Artist - 'Title'` labels of the songs at the maximum reach, one per song, sorted |
| Leaderboards.MostAdded | home.py:241-249 | the same about the number of adds per song: the names are the labels of the songs added to the most playlists, one per song, sorted |
| AveragePosition.HasMeanIffPositioned | home.py:270 | a song has a mean position exactly when at least one of its adds has a position |
| AveragePosition.MinMean | home.py:273 | the minimum mean is the mean of one of the songs, and no song's mean is lower (fractions compared by cross-multiplying) |
| AveragePosition.LowestMean | home.py:273 | over the songs that have a position: the lowest mean is one of their means and no higher than any of them |
| AveragePosition.BestAveragePosition | home.py:270-282 | no result exactly when no song has a position; otherwise the lowest mean (attained, and no positioned song lower); the names are the `Artist - 'Title'` labels of the positioned songs whose mean equals it, one per song (as a multiset), sorted |
| TopReach.SongPlaylists | home.py:321 | a song's playlist list has no duplicates and holds exactly the playlists of the rows that added it |
| TopReach.TopByReach | home.py:319-328 | length is min(n, number of songs); reach never increases down the list; each bar is a song of the table with its true reach and playlist list; no song appears twice |
| TopReach.LeftOffReachesNoMore | home.py:325-328 | a song left off the chart reaches no more than any song on it |
| TopReach.TopFive | home.py:328 | exactly min(5, number of songs) bars, highest reach first |
| TopReach.TopFiveGenuine | home.py:319-328 | every bar of the chart is a different song of the table, with its true reach and playlist list |
| Seqs.Dedup | home.py:409 | `unique()`: no duplicates, exactly the values of the input, in order of first occurrence (each value occurs in the input before any occurrence of a later one) |
| Sorting.SortBy | home.py:410 | the output is a permutation of the input, sorted by the key, and duplicate-free when the input is |
| Sorting.SortByStable | home.py:410 | the sort is stable: for every key, the elements carrying it appear in the same order as in the input |
| Lookups.Choices | home.py:409-410 | dropdown values: duplicate-free, exactly the input values, ordered by lower-cased text; values with the same lower-cased text keep their first-seen order |
| Lookups.SongChoices | home.py:403-410 | the song dropdown holds each distinct `Artist - Title` of the rows with both columns, once, ordered case-insensitively |
| Lookups.PlaylistChoices | home.py:443 | the playlist dropdown holds every playlist of the table once, including those with no adds, ordered case-insensitively |
| Lookups.SongLookup | home.py:416-425 | the song panel holds exactly the selected song's adds, each as often as it occurs, most followers first and missing followers last; nothing is selected, nothing matches |
| Lookups.PlaylistLookup | home.py:448-457 | the "no new releases" message is shown exactly when every Artist and Title of that playlist's rows is null; otherwise all its rows appear, each as often as it occurs, with nulls shown as "N/A", ascending by position with "N/A" last |
| PlaylistStats.AddsPerPlaylist | home.py:541-544 | every playlist of the table appears exactly once, zero-add playlists included; each count is the number of its rows with both Artist and Title; counts ascend; they add up to the number of such rows in the table |
| PlaylistStats.CoverOf | home.py:478-480 | a playlist's cover entry is copied from its first row with both Cover_Artist and Image_URL |
| PlaylistStats.CoverArt | home.py:476-481 | one entry per playlist that has a row with both cover fields and none for the rest, each copied from that playlist's first such row, ordered by playlist name |
| Scenarios.ReachScenario | home.py:208-220 | one song added to two playlists with 100 and 50 followers leads with reach 150, listed once as `X - 'A'` |
| Scenarios.EmptyPlaylistMessage | home.py:448-452 | a playlist whose only row has no song shows the "no new releases" message |
| Scenarios.OnePlaylistOneBar | home.py:541-544 | a table holding a single playlist draws exactly one bar, for that playlist, with its add count |
| Scenarios.EmptyPlaylistBar | home.py:541-544 | a playlist whose only row has no song still gets a bar, of 0 adds |

## Left out

- Streamlit layout, HTML/CSS strings and the theme: presentation only.
- The database URL rewrite, the SQL query for the latest date and the
  `st.cache_data` memoisation: I/O and library-provided caching. The model
  starts from the loaded table.
- The Friday date itself (`datetime.now()`, `timedelta`, `strftime`): clock
  and locale. Only the weekday arithmetic and the day suffix are modelled.
- The New Music Friday cover image at the top of the page and the cover
  image grid: image download over the network and column placement.
- Plotly and matplotlib chart construction, the 20% axis buffer, number
  formatting and the `:.1f` average: foreign charting and floating point.
- `pd.to_numeric(..., errors='coerce')` in the song panel: followers are
  already integers or null in the model.
- The metric headline `round(max_reach)`: on a table with no adds the
  maximum is NaN and this call would fail. The model reports a missing best
  value instead and leaves the formatting out.
- Sorting.LowerKey: lower-cases ASCII letters only. Python's `str.lower()`
  also folds other scripts, so dropdown order is modelled exactly for ASCII text only.
- AveragePosition.BestAveragePosition: pandas computes float means and
  compares them with `==`. The model compares exact fractions. For integer
  positions of realistic size the two agree.
- TopReach.TopByReach and PlaylistStats.AddsPerPlaylist: `sort_values`
  defaults to quicksort, which is not stable, so the code leaves the order
  among equal values open, and the contracts leave it open too. The model
  sorts stably, starting from first-appearance order. For the bars that is
  also the order pandas starts from (`reindex(... .unique())`). For the
  chart pandas starts from the `groupby` key order instead.
