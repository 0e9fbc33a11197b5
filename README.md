# flagdage in Dafny

A model of `index.js` of flagdage, a small library of Danish flag days
(*flagdage*). The model has five parts:

- **Flag days.** A flag day has an anchor day, a name, an emoji and a
  `recurring` flag. `matches` answers "is this day a flag day". `with`
  copies a flag day with some fields overridden. `compare` orders two flag
  days by their anchors.
- **The default catalog.** The library publishes a literal list of flag days
  sorted with `compare`. The literal holds 28 entries: 19 recurring days
  from 2018 and 9 one-off days of 2018.
- **`getFlagDay`.** The first entry, in list order, that matches a day.
- **`getNextFlagDay`.** Sorts a copy of the list and returns the entry whose
  anchor is the earliest one after the query. If there is none, it returns
  the first recurring entry of the sorted copy, moved one year later.
- **`getPreviousFlagDay`.** Scans the list as given, from the back, for an
  entry whose anchor is before the query. If there is none, it returns the
  last recurring entry, moved one year earlier.

Days are `(year, month, day)` triples in module `Dates`. They are ordered
lexicographically, which is what moment's `isBefore`, `isAfter` and
`isSame(_, 'day')` do on days. `AddYears` models moment's
`add(n, 'years')` and `subtract(n, 'years')`: the year moves by n and a day
past the end of the target month is clamped, so 29 February becomes
28 February.

A flag day is a class, `FlagDays.FlagDay`. Only its anchor is mutable,
because the source really does change an anchor after construction:

- Both fallbacks call moment's `add` or `subtract` on `flagDay.date.start`
  (index.js:143 and index.js:166).
- Those moment methods work in place, and `date.start` is the stored start
  of the entry itself.
- So the fallback of `getNextFlagDay` also moves the chosen entry, in the
  caller's list (the default catalog, by default), one year later. The
  fallback of `getPreviousFlagDay` moves it one year earlier.

`Lookups.GetNextFlagDay` and `Lookups.GetPreviousFlagDay` reproduce this.
In their contracts, the chosen entry's anchor is shifted and every other
entry is unchanged. `Scenarios.NextFallbackCase` shows the shift on the
list of the repository's own test. As a consequence, a second call with the
same arguments can give a different answer. The sorted copy in
`getNextFlagDay` is a new list of the same entities, so the caller's list
keeps its order. Only the anchor of the chosen entity moves.

`compare`, and therefore `getNextFlagDay`, looks at the anchor, which for a
recurring day is the start of its recurrence. A recurring day started in a
later year therefore sorts later, whatever its day of the year.
`getNextFlagDay` compares anchors with the query, not the next occurrence,
so a recurring day anchored in 2018 is never "after" a query in 2019.
The model states this behaviour exactly as the code has it.

Module `Scenarios` replays the cases of `index.test.js` on the model.

## Model

| member | source | states |
|---|---|---|
| `Dates.DaysInMonth` | index.js:143 | a month has 28 to 31 days; February has 29 exactly in a leap year |
| `Dates.AddYears` | index.js:143 | the year moves by n and the month stays; a valid day stays valid; a day other than 29 February keeps its day of the month; 29 February stays 29 in a leap target year and becomes 28 otherwise |
| `Dates.BeforeIsStrictTotalOrder` | index.js:63-69 | `isBefore` on days is irreflexive, asymmetric, transitive and total, so compare's three branches cover every pair exactly once |
| `Dates.YearDominates` | index.js:48-58 | a day in an earlier year is before any day of a later year, whatever the month and day |
| `Dates.AddYearsMovesForward` | index.js:138-143 | adding a positive number of years gives a later day, subtracting it an earlier one |
| `Dates.AddYearsRoundTrip` | index.js:143 | for a valid day other than 29 February, n years forward and then back gives the day again |
| `Dates.LeapDayRoundTripLoses` | index.js:143 | 29 February 2020 plus one year is 28 February 2021, and back is 28 February 2020 |
| `FlagDays.FlagDay.constructor` | index.js:12-23 | the new flag day holds the given date, name, recurring flag and emoji; recurring defaults to true and the emoji to the Danish flag |
| `FlagDays.Override` | index.js:33-38 | each field is either the old value or the given override; a given date and a given `recurring` (even false) always win, a given name or emoji wins only when non-empty |
| `FlagDays.FlagDay.Matches` | index.js:41-46 | a flag day matches its own anchor; any matching day has the anchor's month and day and is not before the anchor; in the anchor's year only the anchor itself matches |
| `FlagDays.FlagDay.With` | index.js:25-39 | returns a new entity whose fields are the overrides applied to this one, with this one left unchanged |
| `FlagDays.FlagDay.Compare` | index.js:59-70 | -1 exactly when a's anchor is before b's, 1 exactly when it is after, 0 exactly when it is the same day |
| `FlagDays.OneOffMatchesOnlyItsDay` | index.js:41-46 | a one-off day matches a query exactly when the query is its anchor, so never a day of another year |
| `FlagDays.RecurringMatchesEveryLaterYear` | index.js:41-46 | a recurring day matches its month and day in its anchor year and in every later year |
| `FlagDays.RecurringMatchesOnlyItsDay` | index.js:41-46 | a recurring day matches no other month or day, and no year before its anchor |
| `FlagDays.NoMatchBeforeAnchor` | index.js:41-46 | no flag day matches a day before its anchor |
| `FlagDays.CompareAntisymmetric` | index.js:59-70 | compare(a, b) is -compare(b, a); in particular equal anchors give 0 both ways |
| `FlagDays.CompareYearFirst` | index.js:48-58 | a later anchor year compares as later in both argument orders, even for an earlier day of the year |
| `FlagDays.CompareTransitive` | index.js:59-70 | "compares as not after" is transitive, so compare is a valid sort comparator |
| `FlagDays.OverrideNothingIsCopy` | index.js:25-39 | `with()` without options copies every field |
| `FlagDays.OverrideIdempotent` | index.js:33-38 | applying the same options twice is applying them once |
| `FlagDays.OverrideRecurringFalseButNotFalsyText` | index.js:34-37 | `recurring: false` takes effect, while an empty name or emoji keeps the original and a non-empty name replaces it |
| `Lookups.FirstBelow` | index.js:115-119 | the index found passes the test and no earlier one does; there is none exactly when no entry passes |
| `Lookups.LastBelow` | index.js:153-159 | the index found passes the test and no later one does; there is none exactly when no entry passes |
| `Lookups.EarliestBelow` | index.js:126-136 | the index found passes the test, no passing entry has an earlier anchor, and every passing entry listed before it has a strictly later anchor; there is none exactly when no entry passes |
| `Lookups.Insert` | index.js:126 | inserting adds exactly the inserted entry: one more entry, same multiset plus x |
| `Lookups.SortPrefix` | index.js:126 | the sorted prefix has as many entries as the prefix and is a permutation of it |
| `Lookups.Sort` | index.js:126 | the sorted copy has the same length and the same entries, with their multiplicities, as the list |
| `Lookups.InsertKeepsSorted` | index.js:126 | inserting into a list sorted by compare keeps it sorted |
| `Lookups.SortIsSortedPermutation` | index.js:126 | the sorted copy is sorted by compare and is a permutation of the list |
| `Lookups.SortKeepsEntries` | index.js:140-143 | every entry of the sorted copy is an entry of the caller's list, so the fallback shifts an entry the caller holds |
| `Lookups.SortOfSortedIsIdentity` | index.js:104 | sorting a list already sorted by compare leaves it as it is |
| `Lookups.InsertFirstWhere` | index.js:126-136 | after a stable insertion the first passing entry is the inserted one exactly when it passes and sorts strictly before the former first passing entry |
| `Lookups.SortFirstIsEarliest` | index.js:126-136 | the first passing entry of the stably sorted copy is the passing entry with the earliest anchor, the first listed among equal anchors |
| `Lookups.FirstIndexIs` | index.js:115-119 | an index that passes, with no earlier passing index, is the first index |
| `Lookups.LastIndexIs` | index.js:153-158 | an index that passes, with no later passing index, is the last index |
| `Lookups.EarliestIs` | index.js:126-136 | an index that passes, with no earlier passing anchor and every earlier-listed passing entry strictly later, is the earliest index |
| `Lookups.GetFlagDay` | index.js:112-121 | returns the first entry in list order that matches the day, or null when none does (in particular for an empty list) |
| `Lookups.GetNextFlagDay` | index.js:123-146 | with an anchor after the query: that very entry with the earliest such anchor, nothing changed; otherwise the first recurring entry in compare order, its own anchor moved one year later, and a fresh flag day equal to it; otherwise null, nothing changed |
| `Lookups.GetPreviousFlagDay` | index.js:148-169 | with an anchor before the query: the last such entry in list order, nothing changed; otherwise the last recurring entry, its own anchor moved one year earlier, and a fresh flag day equal to it; otherwise null, nothing changed |
| `Catalog.Literals` | index.js:73-102 | the constructor arguments of the 28 catalog entries, in the order written |
| `Catalog.LiteralsShape` | index.js:73-102 | the catalog literal has 28 entries: the first 19 recurring, the last 9 one-off |
| `Catalog.LiteralsAreDaysOf2018` | index.js:73-102 | every catalog anchor is a valid day of 2018 and none is a 29 February |
| `Catalog.DefaultCatalog` | index.js:73-104 | one fresh entity per literal, in order, and the published list is sorted by compare and a permutation of them |
| `Scenarios.MatchesCases` | index.test.js:5-25 | same date matches, another date does not, a later year matches by default but not for a one-off day |
| `Scenarios.WithCase` | index.test.js:27-39 | `with({ recurring: false, name: 'Day 2' })` gives a different entity with those fields and the rest copied |
| `Scenarios.GetFlagDayCases` | index.test.js:182-192 | a recurring entry is found a year later, a one-off one is not |
| `Scenarios.NextAfterCase` | index.test.js:92-97 | getNextFlagDay returns the very entry after the query |
| `Scenarios.PreviousBeforeCase` | index.test.js:134-139 | getPreviousFlagDay returns the very entry before the query |
| `Scenarios.FiveDays` | index.test.js:101-107 | builds the five flag days of the fallback tests |
| `Scenarios.NextFallbackCase` | index.test.js:99-120 | with nothing after the query, the result is Day 2 a year later, and the caller's Day 2 has moved to 2019 too |
| `Scenarios.PreviousFallbackCase` | index.test.js:141-161 | with nothing before the query, the result is Day 4 a year earlier, and the caller's Day 4 has moved to 2017 too |
| `Scenarios.EmptyCases` | index.test.js:82-90 | both traversals return none for an empty list and for a one-off day on the wrong side of the query |

## Left out

- `process.env.DEBUG` (index.js:3) is an environment side effect with no logic.
- Parsing by moment is not modelled: no date strings, time zones or times of day. A query is a day triple, which is what a date string such as `'2018-02-02'` parses to (midnight of that day).
- A query left out by the caller defaults to `moment()`, the current instant, which reads the clock. The model always takes the query as a day parameter.
- `Lookups.GetPreviousFlagDay` does not model a query with a time of day. Such a query, like the default `moment()` (index.js:149), is after the midnight anchor of an entry dated that same day, so `isBefore` (index.js:156) is true and the source returns that entry. The model compares days, so an entry anchored on the query's day is not before it. For `getNextFlagDay` and `getFlagDay` a time of day changes nothing: an anchor on the query's day is not after it either way, and `matches` compares whole days.
- The default `days = flagDays` parameter is not modelled. The lookups take the list explicitly, and `Catalog.DefaultCatalog` builds the default list.
- `FlagDays.FlagDay.Matches` takes moment-recur's yearly rule as a stated assumption: same month and day, in the anchor year or later. The library's own range check is not visible in this repository.
- `FlagDays.FlagDay.With`: without a date override, `with` hands the stored recurrence object back to the constructor. The model reads that as "the anchor is kept".
- `FlagDays.Override` models falsy overrides only for strings: an empty name or emoji is ignored. Other falsy JavaScript values (`0`, `null`, `false` as a name) are outside the model's types. A date override is a day and is never falsy.
- The unused `thisOptions` object (index.js:26-31) and the always-true `moment()` guard (index.js:13-15) are dropped.
- `flagDay.recurring && flagDay.date.start` is modelled as `recurring`: a recurring entity always has a recurrence start.
- JavaScript lets any field be reassigned. Only the anchor is a `var`, because index.js writes no other field after construction.
- Sorting is modelled as a function on sequences: a stable insertion sort by anchor. ECMAScript requires `Array.prototype.sort` to be stable, so any conforming sort yields the same list. The catalog's in-place sort of its literal array is modelled as building the list and then sorting it.
- `Catalog.DefaultCatalog` states sortedness and permutation, not the sorted list spelled out entry by entry.
- Calendar arithmetic other than whole-year shifts is not modelled.
