/**
 * `date_converter` (eviction_filing_scraper/util.py:305-336): splits the
 * requested filing-date span into the search windows the court's
 * listing-by-classification form accepts.
 *
 * Calendar dates are day ordinals (consecutive days differ by one); the
 * current date, which the source reads from the clock, is a parameter.
 */
module DatePartition {
  import opened Outcomes

  /** A calendar date as a day ordinal. */
  type Day = int

  /** One search window `[start, end]`, both days included. */
  datatype Period = Period(start: Day, end: Day)

  /** The two failed assertions at the head of `date_converter`. */
  datatype DateError = StartAfterEnd | EndAfterToday

  /** The default `max_period`: the site searches at most this many days past the start. */
  const DefaultMaxPeriod: nat := 7

  /** `math.ceil(days / max_period)`: the number of steps of `max_period` days that reach `days`. */
  function NumberBatches(days: nat, maxPeriod: nat): (nb: nat)
    requires maxPeriod >= 1
    ensures nb * maxPeriod >= days
    ensures nb == 0 || (nb - 1) * maxPeriod < days
  {
    (days + maxPeriod - 1) / maxPeriod
  }

  /**
   * The windows the loop of `date_converter` produces from `startDate`: each
   * step covers `maxPeriod + 1` days, and the step that would reach or pass
   * `endDate` is clipped to it.
   */
  function Windows(startDate: Day, endDate: Day, maxPeriod: nat): (ws: seq<Period>)
    requires startDate <= endDate
    ensures |ws| >= 1 && ws[0].start == startDate
    decreases endDate - startDate
  {
    if startDate + maxPeriod >= endDate then [Period(startDate, endDate)]
    else [Period(startDate, startDate + maxPeriod)] + Windows(startDate + maxPeriod + 1, endDate, maxPeriod)
  }

  /**
   * `ws` partitions `[startDate, endDate]` into windows of at most
   * `maxPeriod + 1` days: it starts at `startDate`, ends at `endDate`, each
   * window is non-empty and no longer than allowed, and each window starts
   * the day after its predecessor ends.
   */
  ghost predicate IsPartition(ws: seq<Period>, startDate: Day, endDate: Day, maxPeriod: nat)
  {
    && |ws| >= 1
    && ws[0].start == startDate
    && ws[|ws| - 1].end == endDate
    && (forall k :: 0 <= k < |ws| ==> ws[k].start <= ws[k].end <= ws[k].start + maxPeriod)
    && (forall k :: 0 < k < |ws| ==> ws[k].start == ws[k - 1].end + 1)
  }

  /** The windows of `date_converter` partition the requested span. */
  lemma {:induction false} WindowsPartition(startDate: Day, endDate: Day, maxPeriod: nat)
    requires startDate <= endDate
    ensures IsPartition(Windows(startDate, endDate, maxPeriod), startDate, endDate, maxPeriod)
    decreases endDate - startDate
  {
    if startDate + maxPeriod < endDate {
      var next := startDate + maxPeriod + 1;
      WindowsPartition(next, endDate, maxPeriod);
      var ws := Windows(startDate, endDate, maxPeriod);
      var rest := Windows(next, endDate, maxPeriod);
      assert ws == [Period(startDate, startDate + maxPeriod)] + rest;
      forall k | 0 < k < |ws| ensures ws[k].start == ws[k - 1].end + 1 {
        if k > 1 {
          assert ws[k] == rest[k - 1] && ws[k - 1] == rest[k - 2];
        }
      }
    }
  }

  /** Every window but the last is full: it ends `maxPeriod` days after its start. */
  ghost predicate FullWindows(ws: seq<Period>, maxPeriod: nat)
  {
    forall k :: 0 <= k < |ws| - 1 ==> ws[k].end == ws[k].start + maxPeriod
  }

  /** The loop of `date_converter` advances by a full `maxPeriod + 1` days until the clipped last window. */
  lemma {:induction false} WindowsFull(startDate: Day, endDate: Day, maxPeriod: nat)
    requires startDate <= endDate
    ensures FullWindows(Windows(startDate, endDate, maxPeriod), maxPeriod)
    decreases endDate - startDate
  {
    if startDate + maxPeriod < endDate {
      var next := startDate + maxPeriod + 1;
      WindowsFull(next, endDate, maxPeriod);
      var ws := Windows(startDate, endDate, maxPeriod);
      var rest := Windows(next, endDate, maxPeriod);
      assert ws == [Period(startDate, startDate + maxPeriod)] + rest;
      forall k | 0 < k < |ws| - 1 ensures ws[k].end == ws[k].start + maxPeriod {
        assert ws[k] == rest[k - 1];
      }
    }
  }

  /**
   * The windows are the only partition of the span whose windows are all
   * full but the last: the output of `date_converter` is determined by the
   * partition property and the greedy step.
   */
  lemma {:induction false} GreedyUnique(ws: seq<Period>, startDate: Day, endDate: Day, maxPeriod: nat)
    requires IsPartition(ws, startDate, endDate, maxPeriod) && FullWindows(ws, maxPeriod)
    ensures startDate <= endDate
    ensures ws == Windows(startDate, endDate, maxPeriod)
    decreases |ws|
  {
    PartitionOrdered(ws, startDate, endDate, maxPeriod);
    if |ws| == 1 {
      assert ws == [Period(startDate, endDate)];
    } else {
      var next := startDate + maxPeriod + 1;
      var rest := ws[1..];
      assert ws[0].end == startDate + maxPeriod;
      assert rest[0] == ws[1] && ws[1].start == next;
      assert IsPartition(rest, next, endDate, maxPeriod) by {
        assert rest[|rest| - 1] == ws[|ws| - 1];
        forall k | 0 <= k < |rest| ensures rest[k].start <= rest[k].end <= rest[k].start + maxPeriod {
          assert rest[k] == ws[k + 1];
        }
        forall k | 0 < k < |rest| ensures rest[k].start == rest[k - 1].end + 1 {
          assert rest[k] == ws[k + 1] && rest[k - 1] == ws[k];
        }
      }
      assert FullWindows(rest, maxPeriod) by {
        forall k | 0 <= k < |rest| - 1 ensures rest[k].end == rest[k].start + maxPeriod {
          assert rest[k] == ws[k + 1];
        }
      }
      GreedyUnique(rest, next, endDate, maxPeriod);
      assert ws == [ws[0]] + rest;
    }
  }

  /** All windows but the last span a full `maxPeriod + 1` days, so they fit into the requested span. */
  lemma {:induction false} WindowsCount(startDate: Day, endDate: Day, maxPeriod: nat)
    requires startDate <= endDate
    ensures (|Windows(startDate, endDate, maxPeriod)| - 1) * (maxPeriod + 1) <= endDate - startDate
    decreases endDate - startDate
  {
    if startDate + maxPeriod < endDate {
      var step := maxPeriod + 1;
      WindowsCount(startDate + step, endDate, maxPeriod);
      var c := |Windows(startDate + step, endDate, maxPeriod)|;
      assert |Windows(startDate, endDate, maxPeriod)| - 1 == c;
      assert c * step == (c - 1) * step + step;
    }
  }

  /**
   * The `break` of `date_converter` is always reached: the loop, which runs
   * at most `number_batches + 1` times, has room for every window, so the
   * last window it appends is the one clipped to `endDate`.
   */
  lemma BreakReached(startDate: Day, endDate: Day, maxPeriod: nat)
    requires startDate <= endDate && maxPeriod >= 1
    ensures |Windows(startDate, endDate, maxPeriod)| <= NumberBatches(endDate - startDate, maxPeriod) + 1
  {
    var c := |Windows(startDate, endDate, maxPeriod)| - 1;
    var nb := NumberBatches(endDate - startDate, maxPeriod);
    WindowsCount(startDate, endDate, maxPeriod);
    assert c * maxPeriod <= c * (maxPeriod + 1);
    MulCancel(c, nb, maxPeriod);
  }

  lemma MulCancel(a: nat, b: nat, m: nat)
    requires m >= 1 && a * m <= b * m
    ensures a <= b
  {
  }

  /** Every day of `[startDate, endDate]` lies in exactly one window of a partition, and no other day lies in any. */
  lemma {:induction false} PartitionCovers(ws: seq<Period>, startDate: Day, endDate: Day, maxPeriod: nat, day: Day)
    requires IsPartition(ws, startDate, endDate, maxPeriod)
    ensures startDate <= day <= endDate <==> exists k :: 0 <= k < |ws| && ws[k].start <= day <= ws[k].end
    ensures forall k, j :: 0 <= k < j < |ws| ==> ws[k].end < ws[j].start
  {
    PartitionOrdered(ws, startDate, endDate, maxPeriod);
    if startDate <= day <= endDate {
      var k := 0;
      while ws[k].end < day
        invariant 0 <= k < |ws| && ws[k].start <= day
        decreases |ws| - k
      {
        k := k + 1;
      }
    }
  }

  lemma {:induction false} PartitionOrdered(ws: seq<Period>, startDate: Day, endDate: Day, maxPeriod: nat)
    requires IsPartition(ws, startDate, endDate, maxPeriod)
    ensures forall k, j :: 0 <= k < j < |ws| ==> ws[k].end < ws[j].start
    ensures forall k :: 0 <= k < |ws| ==> startDate <= ws[k].start && ws[k].end <= endDate
  {
    forall k, j | 0 <= k < j < |ws| ensures ws[k].end < ws[j].start {
      var i := k + 1;
      while i < j
        invariant k < i <= j && ws[k].end < ws[i].start
      {
        i := i + 1;
      }
    }
    forall k | 0 <= k < |ws| ensures startDate <= ws[k].start && ws[k].end <= endDate {
      if k > 0 { assert ws[0].end < ws[k].start; }
      if k < |ws| - 1 { assert ws[k].end < ws[|ws| - 1].start; }
    }
  }

  /** A step that stops short of `endDate` gives a full window and continues the day after it. */
  lemma WindowsStep(current: Day, endDate: Day, maxPeriod: nat)
    requires current + maxPeriod < endDate
    ensures Windows(current, endDate, maxPeriod)
            == [Period(current, current + maxPeriod)] + Windows(current + maxPeriod + 1, endDate, maxPeriod)
  {
  }

  /** A step that reaches `endDate` gives the last window, clipped to `endDate`. */
  lemma WindowsLast(current: Day, endDate: Day, maxPeriod: nat)
    requires current <= endDate <= current + maxPeriod
    ensures Windows(current, endDate, maxPeriod) == [Period(current, endDate)]
  {
  }

  /**
   * `date_converter(start_date, end_date, max_period)` with `today` standing
   * for `dt.today()`: the two assertions, then the bounded loop with its
   * `break` on the clipped last window.
   */
  method DateConverter(startDate: Day, endDate: Day, today: Day, maxPeriod: nat)
    returns (r: Result<seq<Period>, DateError>)
    requires maxPeriod >= 1
    ensures startDate > endDate ==> r == Err(StartAfterEnd)
    ensures startDate <= endDate && endDate > today ==> r == Err(EndAfterToday)
    ensures startDate <= endDate <= today ==> r == Ok(Windows(startDate, endDate, maxPeriod))
    ensures r.Ok? ==> IsPartition(r.value, startDate, endDate, maxPeriod)
    ensures r.Ok? ==> |r.value| <= NumberBatches(endDate - startDate, maxPeriod) + 1
  {
    if startDate > endDate {
      return Err(StartAfterEnd);
    }
    if endDate > today {
      return Err(EndAfterToday);
    }
    var numberBatches := NumberBatches(endDate - startDate, maxPeriod);
    ghost var all := Windows(startDate, endDate, maxPeriod);
    var lstPeriods: seq<Period> := [];
    var current := startDate;
    for i := 0 to numberBatches + 1
      invariant current <= endDate
      invariant |lstPeriods| == i
      invariant lstPeriods + Windows(current, endDate, maxPeriod) == all
    {
      var end := current + maxPeriod;
      if end >= endDate {
        WindowsLast(current, endDate, maxPeriod);
        lstPeriods := lstPeriods + [Period(current, endDate)];
        break;
      } else {
        WindowsStep(current, endDate, maxPeriod);
        lstPeriods := lstPeriods + [Period(current, end)];
        current := end + 1;
      }
    }
    BreakReached(startDate, endDate, maxPeriod);
    WindowsPartition(startDate, endDate, maxPeriod);
    return Ok(lstPeriods);
  }

  /** A span of one day is searched as the single window `[day, day]`. */
  lemma SingleDay(day: Day, maxPeriod: nat)
    ensures Windows(day, day, maxPeriod) == [Period(day, day)]
  {
  }

  /**
   * With the default `max_period` of 7, 1..17 becomes `[1, 8], [9, 16],
   * [17, 17]`: each window spans eight calendar days.
   */
  lemma SeventeenDays()
    ensures Windows(1, 17, DefaultMaxPeriod) == [Period(1, 8), Period(9, 16), Period(17, 17)]
  {
  }
}
