# Eviction filing scraper — a verified model of its core

The scraper collects eviction filings from the Hamilton County (Ohio)
Clerk of Courts site. It splits the requested date span into search
windows and submits the search form once per window. It opens every case
the results page lists and reads two tables from it: the case summary and
the parties. The values go into a column-wise aggregate, one column per
field of `_KEYS_LIST`.

This project models that core in Dafny:

- `outcomes.dfy` holds `Option` and `Result`.
- `text.dfy` models the Python string operations the parsers use:
  - `str.upper` on ASCII letters;
  - `str.strip` with Python's exact `isspace` set;
  - `split(':', 1)` as the first-colon split;
  - substring containment `in`;
  - `replace('\n', '')`.
- `date_partition.dfy` models `date_converter`. Dates are day numbers.
  Today's date and `max_period` are parameters.
- `case_summary.dfy` models `extract_summary_case_data`. A row without a
  colon makes the tuple unpacking raise `ValueError`; this is the
  `MalformedRow` error.
- `party_info.dfy` models `extract_party_info_data`, including its
  `num_parties` counter.
- `scraper.dfy` models the `Eviction_Scraper` class: a class whose fields
  are its attributes `eviction_cases`, `cases_with_issues`, `local_records`
  and `lst_time_periods`. It covers:
  - the buffering and merge of `__scrape_one_period`;
  - the too-wide-range alert handling of `__process_search_webpage`;
  - the planning step of `run_scraper`.

Each parser loop is a method proved equal to a specification function
(a fold over the rows). Lemmas about that function state what the source
promises. Examples are which keys appear, which row wins, when the error
arises, and the coverage and ordering of the date windows.

Behaviour of the code worth knowing:

- Every `D 1` row overwrites the defendant fields (util.py:409-412), so of
  two `D 1` rows the last is kept (`PartyInfo.SecondDefendantOverwrites`).
- The attorney keys are written only by rows with a fourth cell and never
  removed (util.py:402-407), so a later `P 1` row without an attorney keeps
  the earlier plaintiff's attorney beside its own name
  (`PartyInfo.StaleAttorney`).
- The docstring example of `date_converter` (util.py:315) shows a 9-day
  second window. The code produces windows of at most `max_period + 1`
  days (`DatePartition.SeventeenDays`).
- Precedence between party values and summary values for the same column
  never arises: summary keys are upper-case and every party key has a
  lower-case letter (`Scraper.SummaryPartyDisjoint`).

## Model

| member | source | states |
|---|---|---|
| Text.UpperChar | eviction_filing_scraper/util.py:375 | upper-casing maps each lower-case ASCII letter to its upper-case partner, leaves no lower-case letter, maps the colon (and only the colon) to itself, and keeps every other character |
| Text.UpperAt | eviction_filing_scraper/util.py:375 | `upper()` works character by character |
| Text.UpperKeeps | eviction_filing_scraper/util.py:375 | a string without lower-case letters is its own upper-case |
| Text.UpperColon | eviction_filing_scraper/util.py:375 | the upper-cased row has a colon exactly when the row has one, and has no lower-case letter |
| Text.UpperIndexOfColon | eviction_filing_scraper/util.py:375 | the first colon sits at the same index before and after upper-casing, so splitting after `upper()` splits the original row at its first colon |
| Text.TrimStartSpec | eviction_filing_scraper/util.py:376 | the left trim is a suffix of the input, everything removed is whitespace, and the result does not start with whitespace |
| Text.TrimEndSpec | eviction_filing_scraper/util.py:376 | the right trim is a prefix of the input, everything removed is whitespace, and the result does not end with whitespace |
| Text.StripSlice | eviction_filing_scraper/util.py:376 | `strip()` returns the contiguous slice between the leading and trailing whitespace runs, neither of whose ends is whitespace |
| Text.StripKeeps | eviction_filing_scraper/util.py:376 | a string with no whitespace at either end is unchanged by `strip()` |
| Text.StripChars | eviction_filing_scraper/util.py:376 | `strip()` introduces no character |
| Text.IndexOf | eviction_filing_scraper/util.py:375 | the found index holds the separator and no earlier position does |
| Text.SplitFirst | eviction_filing_scraper/util.py:375 | `split(':', 1)` yields two parts exactly when the separator occurs |
| Text.ContainsAt | eviction_filing_scraper/util.py:167 | `pat in text` holds exactly when the pattern occurs at some position of the text |
| Text.RemoveNewlines | eviction_filing_scraper/util.py:397 | the cleaned cell has no line feed, is no longer than the cell, introduces no character, and a cell without line feeds is unchanged |
| Text.RemoveNewlinesCount | eviction_filing_scraper/util.py:397 | the cleaned cell is shorter than the cell by exactly its number of line feeds |
| Text.RemoveNewlinesChar | eviction_filing_scraper/util.py:397 | a single line feed is dropped and any other single character kept |
| Text.RemoveNewlinesAppend | eviction_filing_scraper/util.py:397 | removing line feeds from a concatenation concatenates the cleaned parts, so everything else is kept in order |
| DatePartition.NumberBatches | eviction_filing_scraper/util.py:323 | `number_batches` is the ceiling of days over `max_period`: enough batches to cover the days, and one fewer would not |
| DatePartition.Windows | eviction_filing_scraper/util.py:326-336 | the window list is never empty and starts at the start date |
| DatePartition.WindowsPartition | eviction_filing_scraper/util.py:326-336 | the windows start at the start date and end at the end date, each is non-empty and spans at most `max_period` days past its start, and each starts the day after the previous ends |
| DatePartition.WindowsFull | eviction_filing_scraper/util.py:327-334 | every window but the last ends `max_period` days after its start: the loop advances by `max_period + 1` days until the clipped last window |
| DatePartition.GreedyUnique | eviction_filing_scraper/util.py:326-336 | a partition of the span whose windows are all full but the last is exactly the window list of `date_converter` |
| DatePartition.WindowsCount | eviction_filing_scraper/util.py:326-336 | the windows before the last, `max_period + 1` days each, fit into the span, which bounds the number of windows |
| DatePartition.BreakReached | eviction_filing_scraper/util.py:323-331 | the loop of `number_batches + 1` iterations always reaches its `break`, so the last window always ends at the end date |
| DatePartition.PartitionCovers | eviction_filing_scraper/util.py:305-336 | a day is in the requested span exactly when some window contains it, and windows do not overlap |
| DatePartition.PartitionOrdered | eviction_filing_scraper/util.py:305-336 | windows are strictly increasing and lie inside the requested span |
| DatePartition.DateConverter | eviction_filing_scraper/util.py:305-336 | fails on a start after the end and then on an end after today (in that order), and otherwise returns the window partition within the batch bound |
| DatePartition.SeventeenDays | eviction_filing_scraper/util.py:315 | the docstring's span of 1 to 17 with `max_period` 7 gives the windows 1-8, 9-16 and 17-17, not the docstring's 1-8 and 9-17 |
| DatePartition.SingleDay | eviction_filing_scraper/util.py:326-331 | a one-day span gives the single window of that day |
| CaseSummary.ParseRow | eviction_filing_scraper/util.py:375-376 | a summary row fails to unpack exactly when it has no colon |
| CaseSummary.ParseRowAtFirstColon | eviction_filing_scraper/util.py:375-376 | the key is the stripped upper-case text before the first colon and the value the stripped upper-case text after it |
| CaseSummary.CollectOk | eviction_filing_scraper/util.py:372-376 | filling the dictionary succeeds exactly when every row splits, and otherwise fails with the malformed-row error |
| CaseSummary.CollectKeys | eviction_filing_scraper/util.py:372-376 | the dictionary's keys are exactly the parsed rows' keys |
| CaseSummary.CollectLastWins | eviction_filing_scraper/util.py:376 | a key holds the value of the last row that has it |
| CaseSummary.SummaryMalformed | eviction_filing_scraper/util.py:359-378 | the summary succeeds exactly when every row has a colon, and its only error is the malformed row |
| CaseSummary.SummaryKeys | eviction_filing_scraper/util.py:359-378 | the summary's keys are exactly the rows' keys |
| CaseSummary.SummaryLastWins | eviction_filing_scraper/util.py:372-376 | a key maps to the value of the last row with that key |
| CaseSummary.KeyUpper | eviction_filing_scraper/util.py:375-376 | a row's key has no lower-case letter |
| CaseSummary.SummaryKeysUpper | eviction_filing_scraper/util.py:359-378 | no summary key has a lower-case letter |
| CaseSummary.ExtractSummaryCaseData | eviction_filing_scraper/util.py:359-378 | the loop computes the summary specification, including raising on the first malformed row |
| CaseSummary.ParseFormattedRow | eviction_filing_scraper/util.py:374-376 | a row written as `KEY: VALUE` with clean upper-case parts parses back to that key and value |
| CaseSummary.SummaryOfOneRow | eviction_filing_scraper/util.py:372-376 | a single row gives a one-entry summary |
| CaseSummary.CaseNumberRow | eviction_filing_scraper/util.py:374 | the commented example row `CASE NUMBER: A1111111` gives that key and value |
| PartyInfo.RowFields | eviction_filing_scraper/util.py:397 | cleaning a row keeps one field per cell |
| PartyInfo.CounterTracksDefendant | eviction_filing_scraper/util.py:409-410 | `num_parties` is zero exactly when no row has taken the defendant branch, and a row takes that branch exactly as the source's condition at that point decides |
| PartyInfo.PartyKeysOnly | eviction_filing_scraper/util.py:392-418 | the dictionary holds only the six party keys |
| PartyInfo.PlaintiffFromLastRow | eviction_filing_scraper/util.py:399-403 | the plaintiff's name and address are those of the last `P 1` row |
| PartyInfo.NoPlaintiff | eviction_filing_scraper/util.py:399-407 | without a `P 1` row there is no plaintiff entry at all |
| PartyInfo.DefendantFromLastRow | eviction_filing_scraper/util.py:409-412 | the defendant's name and address are those of the last row that took the defendant branch |
| PartyInfo.NoDefendant | eviction_filing_scraper/util.py:409-416 | if no row takes the defendant branch there is no defendant entry |
| PartyInfo.PlaintiffAttorneyFromWideRow | eviction_filing_scraper/util.py:406-407 | a plaintiff attorney is recorded only from a `P 1` row with at least four fields |
| PartyInfo.DefendantAttorneyFromWideRow | eviction_filing_scraper/util.py:415-416 | a defendant attorney is recorded only from a defendant-branch row with at least four fields |
| PartyInfo.ExtractPartyInfoData | eviction_filing_scraper/util.py:381-418 | the loop computes the party specification and yields only party keys |
| PartyInfo.PlaintiffAttorneyFromLastWideRow | eviction_filing_scraper/util.py:399-407 | the plaintiff attorney is the fourth cell of the last `P 1` row with at least four cells |
| PartyInfo.DefendantAttorneyFromLastWideRow | eviction_filing_scraper/util.py:409-416 | the defendant attorney is the fourth cell of the last defendant-branch row with at least four cells |
| PartyInfo.StaleAttorney | eviction_filing_scraper/util.py:399-407 | a four-cell `P 1` row then a three-cell `P 1` row leaves the second plaintiff's name and address with the first one's attorney |
| PartyInfo.PlaintiffWithoutAttorney | eviction_filing_scraper/util.py:399-407 | a lone three-field `P 1` row gives exactly the plaintiff's name and address |
| PartyInfo.SecondDefendantOverwrites | eviction_filing_scraper/util.py:409-412 | with two three-field `D 1` rows the second one's name and address remain |
| Scraper.ScrapeOneCase | eviction_filing_scraper/util.py:339-356 | a case yields its summary and parties, or the summary's error, and its party dictionary has only party keys |
| Scraper.ColumnOf | eviction_filing_scraper/util.py:106-121 | a buffer column has one slot per listed case |
| Scraper.Nones | eviction_filing_scraper/util.py:106 | `[None] * n` has `n` slots, all empty |
| Scraper.Merge | eviction_filing_scraper/util.py:137-138 | merging keeps the aggregate's columns, keeps each column's earlier entries, and appends the buffer column after them |
| Scraper.WriteSlot | eviction_filing_scraper/util.py:117-121 | writing a case's fields changes only slot `i` of the columns it names |
| Scraper.PartyKeysAreColumns | eviction_filing_scraper/util.py:21-27 | every party key is a column of `_KEYS_LIST`, so the unguarded write at line 121 never fails |
| Scraper.SummaryPartyDisjoint | eviction_filing_scraper/util.py:115-121 | a case's summary keys and party keys never coincide |
| Scraper.SlotContents | eviction_filing_scraper/util.py:114-127 | a slot stays empty for a malformed case, and otherwise holds the case's summary or party value for its column, or stays empty |
| Scraper.MalformedListed | eviction_filing_scraper/util.py:123-127 | every malformed case's displayed id is listed as an issue |
| Scraper.ListedMalformed | eviction_filing_scraper/util.py:123-127 | every listed issue is the displayed id of a malformed case |
| Scraper.IssueListed | eviction_filing_scraper/util.py:123-127 | a given id is in the issues list exactly when some malformed case displays it |
| Scraper.IssuesAreMalformed | eviction_filing_scraper/util.py:123-127 | a case id is listed as an issue exactly when one of the cases showing it is malformed, and there are no more issues than cases |
| Scraper.SplitOffFirstDay | eviction_filing_scraper/util.py:167-178 | the day set aside and the resubmitted span together cover the span without overlap, and the resubmitted span is one day shorter |
| Scraper.RecordCase | eviction_filing_scraper/util.py:114-127 | one case fills exactly its own slot with its slot value and yields its id only when it is malformed |
| Scraper.FillBuffer | eviction_filing_scraper/util.py:106-127 | the loop fills the buffer with every case's slot values and lists the malformed cases in order |
| Scraper.EvictionScraper.constructor | eviction_filing_scraper/util.py:35-40 | a new scraper has every column of `_KEYS_LIST`, all empty, and no issues |
| Scraper.EvictionScraper.PlanTimePeriods | eviction_filing_scraper/util.py:55-57 | the work list becomes the windows of the requested span with `max_period` 7, or the run stops on an invalid span with the work list unchanged |
| Scraper.EvictionScraper.ProcessSearchWebpage | eviction_filing_scraper/util.py:163-186 | on the too-wide alert the start day is queued as its own span and the search restarts the day after, the two spans covering the original span without overlap; on any other alert, or none, nothing changes |
| Scraper.EvictionScraper.ScrapeOnePeriod | eviction_filing_scraper/util.py:104-138 | with no case nothing changes. Otherwise the buffer is the period's slot table, every column grows by exactly its buffer column with earlier entries kept, malformed cases are appended to the issues, and all columns keep a common length |

## Left out

- The browser (Selenium): finding and clicking elements, tabs, waits, timeouts, `initiate_driver`, and reading the alert. Each case page arrives as the text of its table rows and its displayed case id, and the alert arrives as its text.
- `run_scraper`'s loop over the work list, its retry after a timeout, and its stop on any other exception. They are I/O control flow around the modelled steps. Only the planning of the work list (util.py:55-57) is modelled.
- The second form submission after the alert. `Scraper.EvictionScraper.ProcessSearchWebpage` returns the span that is searched then, instead of submitting it.
- `normalize_data`, `scrape_cases_by_id` and `__main__.py`, which are outside this core.
- Date parsing and formatting (`strptime`, `strftime`) and the clock. Dates are day numbers, and today's date is a parameter.
- `DatePartition.NumberBatches` is computed with exact integer ceiling division; the source takes `math.ceil` of a float quotient. The two agree for any realistic span.
- `Text.UpperChar` upper-cases ASCII letters only; Python's `str.upper` also maps other Unicode letters and can lengthen a string.
- Aliasing: `_EVICTION_CASES.copy()` is shallow, so all scraper instances share the same column lists. The model gives each scraper its own columns.
- Logging, `print` and `time.sleep`.
- `Scraper.EvictionScraper.ScrapeOnePeriod` models the dictionary loops at util.py:117-121 and 137-138 as one simultaneous update per dictionary. The keys are distinct, so iteration order does not matter.
