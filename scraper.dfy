/**
 * The state the `Eviction_Scraper` class (eviction_filing_scraper/util.py)
 * keeps while it runs: the column-wise aggregate `eviction_cases`, the list
 * `cases_with_issues`, the per-period buffer `local_records` and the work
 * list `lst_time_periods`, with the steps that update them.
 *
 * The browser is not modelled: each case's page reaches the model as the
 * text of its two tables and the case id shown on it, and the alert after
 * a form submission as its text.
 */
module Scraper {
  import opened Outcomes
  import opened Text
  import opened DatePartition
  import opened CaseSummary
  import opened PartyInfo

  /** `_KEYS_LIST`: the columns of the aggregate, in their declared order. */
  const KeysList: seq<string> :=
    [ "CASE NUMBER", "COURT", "CASE CAPTION", "JUDGE", "FILED DATE", "CASE TYPE", "AMOUNT", "DISPOSITION",
      PlaintiffName, PlaintiffAddress, DefendantAttorney, DefendantName, DefendantAddress, PlaintiffAttorney ]

  const Keys: set<string> := set k | k in KeysList

  /** One column: a value or `None` per case, in arrival order. */
  type Column = seq<Option<string>>

  /** Column name to column. */
  type Table = map<string, Column>

  /** A case's detail page: the rows of its summary table, the cells of its party table's rows, and the case id it displays. */
  datatype CasePage = CasePage(summaryRows: seq<string>, partyRows: seq<seq<string>>, displayedId: string)

  /** The alert (if any) the site raises after the search form is submitted. */
  datatype Alert = NoAlert | AlertShown(text: string)

  /** The text by which the site refuses a search span that is too wide. */
  const RangeTooWideText: string := "Date range cannot be greater than 7 days"

  /** What `scrape_one_case` returns for a page, or the error it raises. */
  function CaseOutcome(page: CasePage): Result<(Summary, Parties), SummaryError>
  {
    match SummaryOf(page.summaryRows)
    case Err(e) => Err(e)
    case Ok(summary) => Ok((summary, PartiesOf(page.partyRows)))
  }

  /**
   * `scrape_one_case` without its click: the summary table is parsed first,
   * and its error leaves the party table unread.
   */
  method ScrapeOneCase(page: CasePage) returns (r: Result<(Summary, Parties), SummaryError>)
    ensures r == CaseOutcome(page)
    ensures r.Ok? ==> r.value.1.Keys <= PartyKeys
  {
    var summary := ExtractSummaryCaseData(page.summaryRows);
    if summary.Err? {
      return Err(summary.error);
    }
    var parties := ExtractPartyInfoData(page.partyRows);
    return Ok((summary.value, parties));
  }

  /**
   * The value the buffer slot of column `key` receives for a case: nothing
   * for a malformed case, else the party value for a party key, else the
   * summary value.
   */
  function SlotValue(page: CasePage, key: string): Option<string>
  {
    match CaseOutcome(page)
    case Err(_) => None
    case Ok(fields) =>
      if key in fields.1 then Some(fields.1[key])
      else if key in fields.0 then Some(fields.0[key])
      else None
  }

  /** The column `key` of a period's buffer: one slot per case. */
  function ColumnOf(pages: seq<CasePage>, key: string): (col: Column)
    ensures |col| == |pages|
  {
    seq(|pages|, i requires 0 <= i < |pages| => SlotValue(pages[i], key))
  }

  /** The filled buffer `local_records` of a period. */
  function Buffer(pages: seq<CasePage>): Table
  {
    map k | k in Keys :: ColumnOf(pages, k)
  }

  /** The case's summary table cannot be parsed, so `scrape_one_case` raises. */
  predicate Malformed(page: CasePage)
  {
    CaseOutcome(page).Err?
  }

  /** The displayed ids of the malformed cases, in order. */
  function Issues(pages: seq<CasePage>): seq<string>
  {
    if |pages| == 0 then []
    else Issues(pages[..|pages| - 1])
         + (if Malformed(pages[|pages| - 1]) then [pages[|pages| - 1].displayedId] else [])
  }

  /** `n` empty slots: `[None] * n`. */
  function Nones(n: nat): (col: Column)
    ensures |col| == n && forall j :: 0 <= j < n ==> col[j] == None
  {
    seq(n, _ => None)
  }

  /** `eviction_cases[key] += local_records[key]` for every buffered key. */
  function Merge(aggregate: Table, buffer: Table): (merged: Table)
    ensures merged.Keys == aggregate.Keys
    ensures forall k | k in aggregate :: |aggregate[k]| <= |merged[k]| && merged[k][..|aggregate[k]|] == aggregate[k]
    ensures forall k | k in aggregate && k in buffer ::
              |merged[k]| == |aggregate[k]| + |buffer[k]| && merged[k][|aggregate[k]|..] == buffer[k]
    ensures forall k | k in aggregate && k !in buffer :: merged[k] == aggregate[k]
  {
    map k | k in aggregate :: if k in buffer then aggregate[k] + buffer[k] else aggregate[k]
  }

  /** Every party key has a lower-case letter, which no summary key has. */
  lemma PartyKeysLower()
    ensures forall k | k in PartyKeys :: exists c :: c in k && IsLowerAscii(c)
  {
    assert 'p' in PlaintiffName && 'p' in PlaintiffAddress && 'p' in PlaintiffAttorney;
    assert 'd' in DefendantName && 'd' in DefendantAddress && 'd' in DefendantAttorney;
  }

  /** The party keys are among the aggregate's columns. */
  lemma PartyKeysAreColumns()
    ensures PartyKeys <= Keys
  {
    assert KeysList[8] == PlaintiffName && KeysList[9] == PlaintiffAddress && KeysList[10] == DefendantAttorney;
    assert KeysList[11] == DefendantName && KeysList[12] == DefendantAddress && KeysList[13] == PlaintiffAttorney;
  }

  /**
   * The summary and the party fields of a case never share a key, so the
   * order in which the two are written into a slot does not matter.
   */
  lemma SummaryPartyDisjoint(page: CasePage)
    requires CaseOutcome(page).Ok?
    ensures CaseOutcome(page).value.0.Keys !! CaseOutcome(page).value.1.Keys
  {
    var summary, parties := CaseOutcome(page).value.0, CaseOutcome(page).value.1;
    SummaryKeysUpper(page.summaryRows);
    PartyKeysOnly(AllFields(page.partyRows));
    PartyKeysLower();
    forall k | k in summary && k in parties ensures false {
    }
  }

  /**
   * Slot contents: a malformed case leaves every slot `None`; otherwise a
   * slot holds the case's summary value for a summary key, its party value
   * for a party key, and `None` for a key the case does not have.
   */
  lemma SlotContents(page: CasePage, key: string)
    ensures CaseOutcome(page).Err? ==> SlotValue(page, key) == None
    ensures CaseOutcome(page).Ok? && key in CaseOutcome(page).value.0
            ==> SlotValue(page, key) == Some(CaseOutcome(page).value.0[key])
    ensures CaseOutcome(page).Ok? && key in CaseOutcome(page).value.1
            ==> SlotValue(page, key) == Some(CaseOutcome(page).value.1[key])
    ensures CaseOutcome(page).Ok? && key !in CaseOutcome(page).value.0 && key !in CaseOutcome(page).value.1
            ==> SlotValue(page, key) == None
  {
    if CaseOutcome(page).Ok? {
      SummaryPartyDisjoint(page);
    }
  }

  /** Taking one more case appends its id exactly when it is malformed. */
  lemma IssuesSnoc(pages: seq<CasePage>, i: nat)
    requires i < |pages|
    ensures Issues(pages[..i + 1]) == Issues(pages[..i]) + (if Malformed(pages[i]) then [pages[i].displayedId] else [])
  {
    assert pages[..i + 1][..i] == pages[..i];
    assert pages[..i + 1][i] == pages[i];
  }

  /** Every malformed case has its displayed id listed as an issue. */
  lemma {:induction false} MalformedListed(pages: seq<CasePage>, i: nat)
    requires i < |pages| && Malformed(pages[i])
    ensures pages[i].displayedId in Issues(pages)
  {
    var n := |pages| - 1;
    if i < n {
      var init := pages[..n];
      assert init[i] == pages[i];
      MalformedListed(init, i);
      assert Issues(init) <= Issues(pages);
    }
  }

  /** Every listed issue is the displayed id of a malformed case. */
  lemma {:induction false} ListedMalformed(pages: seq<CasePage>, id: string)
    requires id in Issues(pages)
    ensures exists i :: 0 <= i < |pages| && Malformed(pages[i]) && pages[i].displayedId == id
  {
    var n := |pages| - 1;
    var init := pages[..n];
    if id in Issues(init) {
      ListedMalformed(init, id);
      var i :| 0 <= i < n && Malformed(init[i]) && init[i].displayedId == id;
      assert pages[i] == init[i];
    } else {
      assert Malformed(pages[n]) && pages[n].displayedId == id;
    }
  }

  /** A case id is listed as an issue exactly when a malformed case displays it. */
  lemma IssueListed(pages: seq<CasePage>, id: string)
    ensures id in Issues(pages) <==> exists i :: 0 <= i < |pages| && Malformed(pages[i]) && pages[i].displayedId == id
  {
    if id in Issues(pages) {
      ListedMalformed(pages, id);
    }
    if exists i :: 0 <= i < |pages| && Malformed(pages[i]) && pages[i].displayedId == id {
      var i :| 0 <= i < |pages| && Malformed(pages[i]) && pages[i].displayedId == id;
      MalformedListed(pages, i);
    }
  }

  /** The issues list exactly the ids malformed cases display, at most one entry per case. */
  lemma {:induction false} IssuesAreMalformed(pages: seq<CasePage>)
    ensures |Issues(pages)| <= |pages|
    ensures forall id :: id in Issues(pages) <==> exists i :: 0 <= i < |pages| && Malformed(pages[i]) && pages[i].displayedId == id
  {
    if |pages| > 0 {
      IssuesAreMalformed(pages[..|pages| - 1]);
    }
    forall id ensures id in Issues(pages) <==> exists i :: 0 <= i < |pages| && Malformed(pages[i]) && pages[i].displayedId == id {
      IssueListed(pages, id);
    }
  }

  /** The alert is the one that refuses a too-wide span. */
  predicate IsRangeTooWide(alert: Alert)
  {
    alert.AlertShown? && Contains(alert.text, RangeTooWideText)
  }

  /** Day `d` lies in the search span `p`. */
  predicate InSpan(p: Period, d: Day)
  {
    p.start <= d <= p.end
  }

  /**
   * Splitting the first day off a span keeps every day exactly once: each
   * day of the span lies either in the day-long span set aside or in the
   * resubmitted span, never in both, and the resubmitted span is a day shorter.
   */
  lemma SplitOffFirstDay(p: Period, d: Day)
    requires p.start <= p.end
    ensures InSpan(p, d) <==> InSpan(Period(p.start, p.start), d) || InSpan(Period(p.start + 1, p.end), d)
    ensures !(InSpan(Period(p.start, p.start), d) && InSpan(Period(p.start + 1, p.end), d))
    ensures Period(p.start + 1, p.end).end - Period(p.start + 1, p.end).start == p.end - p.start - 1
  {
  }

  /**
   * Writes the fields of one case into slot `i` of the buffer: every field
   * whose key is a buffer column, and no other slot.
   */
  function WriteSlot(buffer: Table, i: nat, fields: map<string, string>): (r: Table)
    ensures r.Keys == buffer.Keys
    ensures forall k | k in buffer :: |r[k]| == |buffer[k]|
    ensures forall k, j | k in buffer && 0 <= j < |buffer[k]| ::
              r[k][j] == if j == i && k in fields then Some(fields[k]) else buffer[k][j]
  {
    map k | k in buffer :: if k in fields && i < |buffer[k]| then buffer[k][i := Some(fields[k])] else buffer[k]
  }

  /**
   * One pass of the loop of `__scrape_one_period`: scrapes the case and
   * writes its summary fields, then its party fields, into its empty slot
   * `i`; a malformed case leaves the slot empty and yields its displayed id.
   */
  method RecordCase(buffer: Table, i: nat, page: CasePage) returns (next: Table, issue: seq<string>)
    requires PartyKeys <= buffer.Keys
    requires forall k | k in buffer :: i < |buffer[k]| && buffer[k][i] == None
    ensures next.Keys == buffer.Keys
    ensures forall k | k in buffer :: |next[k]| == |buffer[k]| && next[k][i] == SlotValue(page, k)
    ensures forall k, j | k in buffer && 0 <= j < |buffer[k]| && j != i :: next[k][j] == buffer[k][j]
    ensures issue == if Malformed(page) then [page.displayedId] else []
  {
    var outcome := ScrapeOneCase(page);
    if outcome.Ok? {
      next := WriteSlot(buffer, i, outcome.value.0);
      next := WriteSlot(next, i, outcome.value.1);
      issue := [];
    } else {
      next := buffer;
      issue := [page.displayedId];
    }
    forall k | k in buffer ensures next[k][i] == SlotValue(page, k) {
      SlotContents(page, k);
    }
  }

  /** A table whose every column holds every case's slot value is the filled buffer. */
  lemma BufferComplete(buffer: Table, pages: seq<CasePage>)
    requires buffer.Keys == Keys
    requires forall k | k in Keys :: |buffer[k]| == |pages|
    requires forall k, j | k in Keys && 0 <= j < |pages| :: buffer[k][j] == SlotValue(pages[j], k)
    ensures buffer == Buffer(pages)
  {
    forall k | k in Keys ensures buffer[k] == ColumnOf(pages, k) {
    }
  }

  /**
   * The loop of `__scrape_one_period` over the listed cases: starts from
   * `[None] * n` per column, records each case in its slot, and collects
   * the malformed cases' ids.
   */
  method FillBuffer(pages: seq<CasePage>) returns (buffer: Table, issues: seq<string>)
    ensures buffer == Buffer(pages)
    ensures issues == Issues(pages)
  {
    var n := |pages|;
    PartyKeysAreColumns();
    buffer := map k | k in Keys :: Nones(n);
    issues := [];
    for i := 0 to n
      invariant buffer.Keys == Keys
      invariant forall k | k in Keys :: |buffer[k]| == n
      invariant forall k, j | k in Keys && 0 <= j < i :: buffer[k][j] == SlotValue(pages[j], k)
      invariant forall k, j | k in Keys && i <= j < n :: buffer[k][j] == None
      invariant issues == Issues(pages[..i])
    {
      IssuesSnoc(pages, i);
      var issue;
      buffer, issue := RecordCase(buffer, i, pages[i]);
      issues := issues + issue;
    }
    assert pages[..n] == pages;
    BufferComplete(buffer, pages);
  }

  class EvictionScraper {
    /** `eviction_cases`: column name to column, one slot per scraped case. */
    var evictionCases: Table
    /** `cases_with_issues`: the displayed ids of the cases whose summary could not be parsed. */
    var casesWithIssues: seq<string>
    /** `local_records`: the buffer of the last period that listed any case. */
    var localRecords: Table
    /** `lst_time_periods`: the search spans still to run, in order. */
    var lstTimePeriods: seq<Period>

    /** The aggregate has exactly the columns of `_KEYS_LIST`, all of one length. */
    ghost predicate Valid()
      reads this
    {
      && evictionCases.Keys == Keys
      && forall k | k in evictionCases :: |evictionCases[k]| == |evictionCases[KeysList[0]]|
    }

    /** The number of cases in the aggregate. */
    ghost function Rows(): nat
      reads this
      requires Valid()
    {
      |evictionCases[KeysList[0]]|
    }

    /** `Eviction_Scraper()`: an empty aggregate and no issues. */
    constructor ()
      ensures Valid() && Rows() == 0
      ensures evictionCases == map k | k in Keys :: []
      ensures casesWithIssues == [] && localRecords == map[] && lstTimePeriods == []
    {
      evictionCases := map k | k in Keys :: [];
      casesWithIssues := [];
      localRecords := map[];
      lstTimePeriods := [];
    }

    /**
     * The opening of `run_scraper`: the requested span becomes the work list
     * of search windows, or the run stops on the failed assertion.
     */
    method PlanTimePeriods(startDate: Day, endDate: Day, today: Day) returns (r: Result<(), DateError>)
      modifies this`lstTimePeriods
      ensures r.Ok? <==> startDate <= endDate <= today
      ensures r.Ok? ==> lstTimePeriods == Windows(startDate, endDate, DefaultMaxPeriod)
      ensures r.Err? ==> lstTimePeriods == old(lstTimePeriods)
    {
      var periods := DateConverter(startDate, endDate, today, DefaultMaxPeriod);
      if periods.Err? {
        return Err(periods.error);
      }
      lstTimePeriods := periods.value;
      return Ok(());
    }

    /**
     * The alert handling of `__process_search_webpage` after the form was
     * submitted for `period`: on the too-wide alert, the start day is put
     * at the end of the work list as a span of its own and the form is
     * resubmitted from the next day. Returns the span searched last.
     */
    method ProcessSearchWebpage(period: Period, alert: Alert) returns (searched: Period)
      modifies this`lstTimePeriods
      ensures IsRangeTooWide(alert) ==> lstTimePeriods == old(lstTimePeriods) + [Period(period.start, period.start)]
      ensures IsRangeTooWide(alert) ==> searched == Period(period.start + 1, period.end)
      ensures !IsRangeTooWide(alert) ==> lstTimePeriods == old(lstTimePeriods) && searched == period
      ensures IsRangeTooWide(alert) && period.start <= period.end ==>
                forall d :: InSpan(period, d) <==> InSpan(lstTimePeriods[|lstTimePeriods| - 1], d) || InSpan(searched, d)
      ensures IsRangeTooWide(alert) && period.start <= period.end ==>
                forall d :: !(InSpan(lstTimePeriods[|lstTimePeriods| - 1], d) && InSpan(searched, d))
    {
      searched := period;
      if alert.AlertShown? {
        if Contains(alert.text, RangeTooWideText) {
          lstTimePeriods := lstTimePeriods + [Period(period.start, period.start)];
          searched := Period(period.start + 1, period.end);
          if period.start <= period.end {
            forall d ensures InSpan(period, d) <==> InSpan(Period(period.start, period.start), d) || InSpan(searched, d)
                ensures !(InSpan(Period(period.start, period.start), d) && InSpan(searched, d)) {
              SplitOffFirstDay(period, d);
            }
          }
        }
      }
    }

    /**
     * The buffering and merge of `__scrape_one_period` for the cases listed
     * on one results page: with no case nothing changes; otherwise the
     * buffer is filled case by case, malformed cases are recorded by their
     * displayed id, and every column of the aggregate is extended by its
     * buffer column.
     */
    method ScrapeOnePeriod(pages: seq<CasePage>)
      requires Valid()
      modifies this`evictionCases, this`casesWithIssues, this`localRecords
      ensures Valid() && Rows() == old(Rows()) + |pages|
      ensures forall k | k in Keys :: evictionCases[k] == old(evictionCases[k]) + ColumnOf(pages, k)
      ensures casesWithIssues == old(casesWithIssues) + Issues(pages)
      ensures |pages| > 0 ==> localRecords == Buffer(pages)
      ensures |pages| == 0 ==> localRecords == old(localRecords) && evictionCases == old(evictionCases)
    {
      if |pages| > 0 {
        var buffer, issues := FillBuffer(pages);
        localRecords := buffer;
        casesWithIssues := casesWithIssues + issues;
        evictionCases := Merge(evictionCases, localRecords);
        forall k | k in Keys ensures evictionCases[k] == old(evictionCases[k]) + ColumnOf(pages, k) {
          assert evictionCases[k] == evictionCases[k][..|old(evictionCases[k])|] + evictionCases[k][|old(evictionCases[k])|..];
        }
      }
    }
  }
}
