/**
 * `extract_summary_case_data` (eviction_filing_scraper/util.py:359-378):
 * turns the rows of a case's summary table, each `FIELD NAME: value`, into
 * a dictionary from upper-cased field name to upper-cased value.
 */
module CaseSummary {
  import opened Outcomes
  import opened Text

  /** A case summary: upper-cased field name to upper-cased value. */
  type Summary = map<string, string>

  /** The `ValueError` raised when a row has no `:` to split at. */
  datatype SummaryError = MalformedRow

  /**
   * One row: upper-case it, split it at its first `:` and trim both halves;
   * None for a row without a `:`, where the unpacking into two names fails.
   */
  function ParseRow(row: string): (r: Option<(string, string)>)
    ensures r.None? <==> ':' !in row
  {
    var upper := Upper(row);
    UpperColon(row);
    match SplitFirst(upper, ':')
    case None => None
    case Some(parts) => Some((Strip(parts.0), Strip(parts.1)))
  }

  /**
   * The key of a row is the trimmed, upper-cased text before the row's first
   * `:`, and the value the trimmed, upper-cased rest, which may hold more `:`.
   */
  lemma ParseRowAtFirstColon(row: string)
    requires ':' in row
    ensures ParseRow(row) == Some((Strip(Upper(row[..IndexOf(row, ':')])), Strip(Upper(row[IndexOf(row, ':') + 1..]))))
  {
    var k := IndexOf(row, ':');
    UpperIndexOfColon(row);
    UpperTake(row, k);
    UpperDrop(row, k + 1);
  }

  /** A parsed row: field name and value, or None where the row has no `:`. */
  type Field = Option<(string, string)>

  /** Each row parsed on its own. */
  function Fields(rows: seq<string>): (fs: seq<Field>)
    ensures |fs| == |rows|
  {
    seq(|rows|, i requires 0 <= i < |rows| => ParseRow(rows[i]))
  }

  /**
   * The dictionary a loop over parsed rows builds, each row storing its
   * value under its key, or the error of the first row without a `:`.
   */
  function Collect(fs: seq<Field>): Result<Summary, SummaryError>
  {
    if |fs| == 0 then Ok(map[])
    else match Collect(fs[..|fs| - 1])
      case Err(e) => Err(e)
      case Ok(summary) =>
        match fs[|fs| - 1]
        case None => Err(MalformedRow)
        case Some(field) => Ok(summary[field.0 := field.1])
  }

  /** The dictionary `extract_summary_case_data` returns for `rows`, or the error it raises. */
  function SummaryOf(rows: seq<string>): Result<Summary, SummaryError>
  {
    Collect(Fields(rows))
  }

  /** Collecting fails exactly when some row failed to parse. */
  lemma {:induction false} CollectOk(fs: seq<Field>)
    ensures Collect(fs).Ok? <==> forall i :: 0 <= i < |fs| ==> fs[i].Some?
    ensures Collect(fs).Err? ==> Collect(fs).error == MalformedRow
  {
    if |fs| > 0 {
      var init := fs[..|fs| - 1];
      CollectOk(init);
      assert forall i :: 0 <= i < |init| ==> init[i] == fs[i];
    }
  }

  /** `k` is the key of one of the parsed rows. */
  ghost predicate HasKey(fs: seq<Field>, k: string)
  {
    exists i :: 0 <= i < |fs| && fs[i].Some? && fs[i].value.0 == k
  }

  /** The collected keys are exactly the keys of the rows. */
  lemma {:induction false} CollectKeys(fs: seq<Field>)
    requires forall i :: 0 <= i < |fs| ==> fs[i].Some?
    ensures Collect(fs).Ok?
    ensures forall k :: k in Collect(fs).value <==> HasKey(fs, k)
  {
    CollectOk(fs);
    if |fs| > 0 {
      var init, last := fs[..|fs| - 1], fs[|fs| - 1];
      assert forall i :: 0 <= i < |init| ==> init[i] == fs[i];
      CollectKeys(init);
      var m := Collect(fs).value;
      assert m == Collect(init).value[last.value.0 := last.value.1];
      forall k | k in m ensures HasKey(fs, k) {
        if k == last.value.0 {
          assert fs[|fs| - 1].value.0 == k;
        } else {
          assert HasKey(init, k);
          var i :| 0 <= i < |init| && init[i].Some? && init[i].value.0 == k;
          assert fs[i] == init[i];
        }
      }
      forall k | HasKey(fs, k) ensures k in m {
        var i :| 0 <= i < |fs| && fs[i].Some? && fs[i].value.0 == k;
        if i < |init| {
          assert init[i] == fs[i];
          assert HasKey(init, k);
        }
      }
    }
  }

  /** A key holds the value of the LAST row with that key. */
  lemma {:induction false} CollectLastWins(fs: seq<Field>, i: nat)
    requires forall j :: 0 <= j < |fs| ==> fs[j].Some?
    requires i < |fs|
    requires forall j :: i < j < |fs| ==> fs[j].value.0 != fs[i].value.0
    ensures Collect(fs).Ok?
    ensures fs[i].value.0 in Collect(fs).value
    ensures Collect(fs).value[fs[i].value.0] == fs[i].value.1
  {
    CollectOk(fs);
    var init := fs[..|fs| - 1];
    assert forall j :: 0 <= j < |init| ==> init[j] == fs[j];
    CollectOk(init);
    if i < |fs| - 1 {
      CollectLastWins(init, i);
    }
  }

  /** Every row has a `:` to split at. */
  ghost predicate AllRowsSplit(rows: seq<string>)
  {
    forall i :: 0 <= i < |rows| ==> ':' in rows[i]
  }

  /** The field name a row contributes. */
  function KeyOf(row: string): string
    requires ':' in row
  {
    ParseRow(row).value.0
  }

  /** The value a row contributes. */
  function ValueOf(row: string): string
    requires ':' in row
  {
    ParseRow(row).value.1
  }

  /** `extract_summary_case_data` raises exactly when some row has no `:`. */
  lemma SummaryMalformed(rows: seq<string>)
    ensures SummaryOf(rows).Ok? <==> AllRowsSplit(rows)
    ensures SummaryOf(rows).Err? ==> SummaryOf(rows).error == MalformedRow
  {
    var fs := Fields(rows);
    CollectOk(fs);
    assert forall i :: 0 <= i < |rows| ==> fs[i] == ParseRow(rows[i]);
  }

  /** On success, the keys are exactly the keys of the rows. */
  lemma SummaryKeys(rows: seq<string>)
    requires AllRowsSplit(rows)
    ensures SummaryOf(rows).Ok?
    ensures forall k :: k in SummaryOf(rows).value <==> exists i :: 0 <= i < |rows| && KeyOf(rows[i]) == k
  {
    var fs := Fields(rows);
    assert forall i :: 0 <= i < |rows| ==> fs[i] == ParseRow(rows[i]);
    CollectKeys(fs);
    forall k ensures HasKey(fs, k) <==> exists i :: 0 <= i < |rows| && KeyOf(rows[i]) == k {
      if HasKey(fs, k) {
        var i :| 0 <= i < |fs| && fs[i].Some? && fs[i].value.0 == k;
        assert KeyOf(rows[i]) == k;
      }
      if exists i :: 0 <= i < |rows| && KeyOf(rows[i]) == k {
        var i :| 0 <= i < |rows| && KeyOf(rows[i]) == k;
        assert fs[i].value.0 == k;
      }
    }
  }

  /**
   * Each key holds the value of the LAST row with that key: a later row
   * with the same key overwrites an earlier one.
   */
  lemma SummaryLastWins(rows: seq<string>, i: nat)
    requires AllRowsSplit(rows) && i < |rows|
    requires forall j :: i < j < |rows| ==> KeyOf(rows[j]) != KeyOf(rows[i])
    ensures SummaryOf(rows).Ok?
    ensures KeyOf(rows[i]) in SummaryOf(rows).value
    ensures SummaryOf(rows).value[KeyOf(rows[i])] == ValueOf(rows[i])
  {
    var fs := Fields(rows);
    assert forall j :: 0 <= j < |rows| ==> fs[j] == ParseRow(rows[j]);
    CollectLastWins(fs, i);
  }

  /** A row's key comes from upper-cased text, so it holds no lower-case ASCII letter. */
  lemma KeyUpper(row: string)
    requires ':' in row
    ensures forall c :: c in KeyOf(row) ==> !IsLowerAscii(c)
  {
    var prefix := row[..IndexOf(row, ':')];
    ParseRowAtFirstColon(row);
    UpperColon(prefix);
    StripChars(Upper(prefix));
  }

  /** No key of a case summary holds a lower-case ASCII letter. */
  lemma SummaryKeysUpper(rows: seq<string>)
    requires SummaryOf(rows).Ok?
    ensures forall k, c :: k in SummaryOf(rows).value && c in k ==> !IsLowerAscii(c)
  {
    SummaryMalformed(rows);
    SummaryKeys(rows);
    forall k, c | k in SummaryOf(rows).value && c in k ensures !IsLowerAscii(c) {
      var i :| 0 <= i < |rows| && KeyOf(rows[i]) == k;
      KeyUpper(rows[i]);
    }
  }

  /**
   * `extract_summary_case_data(rows)`: fills a dictionary row by row; the
   * tuple unpacking of a row without `:` raises, and no dictionary is returned.
   */
  method ExtractSummaryCaseData(rows: seq<string>) returns (r: Result<Summary, SummaryError>)
    ensures r == SummaryOf(rows)
  {
    var caseSummary: Summary := map[];
    ghost var fs := Fields(rows);
    for i := 0 to |rows|
      invariant Collect(fs[..i]) == Ok(caseSummary)
    {
      assert fs[..i + 1][..i] == fs[..i];
      var field := ParseRow(rows[i]);
      assert fs[i] == field;
      if field.None? {
        CollectOk(fs);
        return Err(MalformedRow);
      }
      caseSummary := caseSummary[field.value.0 := field.value.1];
    }
    assert fs[..|rows|] == fs;
    return Ok(caseSummary);
  }

  /** Text that `strip()` leaves alone and `upper()` does not change. */
  ghost predicate Clean(s: string)
  {
    && (s == [] || (!IsSpace(s[0]) && !IsSpace(s[|s| - 1])))
    && (forall c :: c in s ==> !IsLowerAscii(c))
  }

  /** Clean text survives `upper()` and `strip()`. */
  lemma CleanSurvives(s: string)
    requires Clean(s)
    ensures Strip(Upper(s)) == s
  {
    UpperKeeps(s);
    StripKeeps(s);
  }

  /** Clean text after the single space of `": "` comes back from `upper()` and `strip()`. */
  lemma PaddedCleanSurvives(value: string)
    requires Clean(value)
    ensures Strip(Upper(" " + value)) == value
  {
    var padded := " " + value;
    assert forall c :: c in padded ==> c == ' ' || c in value;
    UpperKeeps(padded);
    assert padded[1..] == value;
    assert TrimStart(padded) == TrimStart(value);
    StripKeeps(value);
  }

  /**
   * A row printed as `KEY: VALUE`, from a clean key without `:` and a clean
   * value (which may itself hold `:`), parses back to that key and value.
   */
  lemma ParseFormattedRow(key: string, value: string)
    requires ':' !in key && Clean(key) && Clean(value)
    ensures ParseRow(key + ": " + value) == Some((key, value))
  {
    var padded := " " + value;
    CleanSurvives(key);
    PaddedCleanSurvives(value);
    var row := key + [':'] + padded;
    assert row == key + ": " + value;
    assert row[..|key|] == key && row[|key| + 1..] == padded;
    IndexOfUnique(row, ':', |key|);
    ParseRowAtFirstColon(row);
  }

  /** A table of one row yields that row's field alone. */
  lemma SummaryOfOneRow(row: string)
    requires ':' in row
    ensures SummaryOf([row]) == Ok(map[KeyOf(row) := ValueOf(row)])
  {
    var fs := Fields([row]);
    assert fs[0] == ParseRow(row) == Some((KeyOf(row), ValueOf(row)));
    assert fs[..0] == [];
    assert Collect(fs[..0]) == Ok(map[]);
    assert Collect(fs) == Ok(map[][KeyOf(row) := ValueOf(row)]);
  }

  lemma CaseNumberClean()
    ensures Clean("CASE NUMBER") && Clean("A1111111") && ':' !in "CASE NUMBER"
  {
  }

  /** The row of the docstring, `CASE NUMBER: A1111111`. */
  lemma CaseNumberRow()
    ensures SummaryOf(["CASE NUMBER: A1111111"]) == Ok(map["CASE NUMBER" := "A1111111"])
  {
    var key, value := "CASE NUMBER", "A1111111";
    var row := "CASE NUMBER: A1111111";
    assert row == key + ": " + value;
    CaseNumberClean();
    ParseFormattedRow(key, value);
    SummaryOfOneRow(row);
  }
}
