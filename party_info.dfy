/**
 * `extract_party_info_data` (eviction_filing_scraper/util.py:381-418):
 * reads the plaintiff and defendant name, address and attorney from the
 * rows of a case's party table, dispatching on the role tag in cell 2.
 */
module PartyInfo {
  import opened Text

  /** The party fields of one case, keyed by the six names below. */
  type Parties = map<string, string>

  const PlaintiffName: string := "plaintiff_name"
  const PlaintiffAddress: string := "plaintiff_address"
  const PlaintiffAttorney: string := "plaintiff_attorney"
  const DefendantName: string := "defendant_name"
  const DefendantAddress: string := "defendant_address"
  const DefendantAttorney: string := "defendant_attorney"

  /** Every key the party parser can write. */
  const PartyKeys: set<string> :=
    {PlaintiffName, PlaintiffAddress, PlaintiffAttorney, DefendantName, DefendantAddress, DefendantAttorney}

  /** The role tag of the plaintiff row and the exact tag of the first defendant. */
  const PlaintiffTag: string := "P 1"
  const DefendantTag: string := "D 1"

  /** A row's cells as the parser reads them: each cell's text with its line feeds removed. */
  function RowFields(cells: seq<string>): (fields: seq<string>)
    ensures |fields| == |cells|
  {
    seq(|cells|, i requires 0 <= i < |cells| => RemoveNewlines(cells[i]))
  }

  /** The parser's loop state: the dictionary and the `num_parties` counter. */
  datatype PartyState = PartyState(info: Parties, numParties: nat)

  /** A row with at least three cells whose tag is `P 1`. */
  predicate IsPlaintiffRow(fields: seq<string>)
  {
    |fields| >= 3 && fields[2] == PlaintiffTag
  }

  /** The branch condition of the defendant case, given the counter so far. */
  predicate EntersDefendantBranch(fields: seq<string>, numParties: nat)
  {
    && |fields| >= 3
    && fields[2] != PlaintiffTag
    && (fields[2] == DefendantTag || ('D' in fields[2] && numParties < 1))
  }

  /** One iteration of the loop of `extract_party_info_data` on a row's fields. */
  function Step(st: PartyState, fields: seq<string>): PartyState
  {
    if IsPlaintiffRow(fields) then
      var info := st.info[PlaintiffName := fields[0]][PlaintiffAddress := fields[1]];
      PartyState(if |fields| >= 4 then info[PlaintiffAttorney := fields[3]] else info, st.numParties)
    else if EntersDefendantBranch(fields, st.numParties) then
      var info := st.info[DefendantName := fields[0]][DefendantAddress := fields[1]];
      PartyState(if |fields| >= 4 then info[DefendantAttorney := fields[3]] else info, st.numParties + 1)
    else
      st
  }

  /** The loop state after the rows of fields `frs`, taken in order. */
  function Fold(frs: seq<seq<string>>): PartyState
  {
    if |frs| == 0 then PartyState(map[], 0)
    else Step(Fold(frs[..|frs| - 1]), frs[|frs| - 1])
  }

  /** Each row's fields. */
  function AllFields(rows: seq<seq<string>>): (frs: seq<seq<string>>)
    ensures |frs| == |rows|
  {
    seq(|rows|, i requires 0 <= i < |rows| => RowFields(rows[i]))
  }

  /** The dictionary `extract_party_info_data` returns for the table `rows`. */
  function PartiesOf(rows: seq<seq<string>>): Parties
  {
    Fold(AllFields(rows)).info
  }

  /**
   * Row `i` takes the defendant branch: it has at least three cells, its
   * tag is not `P 1`, and the tag is `D 1`, or it contains a `D` and no
   * earlier row took the branch.
   */
  ghost predicate TakesDefendant(frs: seq<seq<string>>, i: nat)
    requires i < |frs|
    decreases i
  {
    && |frs[i]| >= 3
    && frs[i][2] != PlaintiffTag
    && (frs[i][2] == DefendantTag
        || ('D' in frs[i][2] && forall j :: 0 <= j < i ==> !TakesDefendant(frs, j)))
  }

  lemma PrefixAt(frs: seq<seq<string>>, n: nat)
    requires n <= |frs|
    ensures forall j :: 0 <= j < n ==> frs[..n][j] == frs[j]
  {
  }

  /** `TakesDefendant` of a row depends only on the rows up to it. */
  lemma {:induction false} TakesDefendantPrefix(frs: seq<seq<string>>, n: nat, i: nat)
    requires i < n <= |frs|
    ensures TakesDefendant(frs[..n], i) == TakesDefendant(frs, i)
    decreases i
  {
    PrefixAt(frs, n);
    forall j | 0 <= j < i ensures TakesDefendant(frs[..n], j) == TakesDefendant(frs, j) {
      TakesDefendantPrefix(frs, n, j);
    }
  }

  /**
   * `num_parties` is still 0 exactly while no row has taken the defendant
   * branch, and the loop enters that branch at row `i` exactly when
   * `TakesDefendant(frs, i)`.
   */
  lemma {:induction false} CounterTracksDefendant(frs: seq<seq<string>>)
    ensures Fold(frs).numParties == 0 <==> forall j :: 0 <= j < |frs| ==> !TakesDefendant(frs, j)
    ensures |frs| > 0 ==>
      (EntersDefendantBranch(frs[|frs| - 1], Fold(frs[..|frs| - 1]).numParties) <==> TakesDefendant(frs, |frs| - 1))
  {
    if |frs| > 0 {
      var n := |frs| - 1;
      var init := frs[..n];
      CounterTracksDefendant(init);
      forall j | 0 <= j < n ensures TakesDefendant(init, j) == TakesDefendant(frs, j) {
        TakesDefendantPrefix(frs, n, j);
      }
      var st, last := Fold(init), frs[n];
      if st.numParties == 0 {
        forall j | 0 <= j < n ensures !TakesDefendant(frs, j) {
          assert !TakesDefendant(init, j);
        }
      } else {
        var j :| 0 <= j < n && TakesDefendant(init, j);
        assert TakesDefendant(frs, j);
      }
      assert EntersDefendantBranch(last, st.numParties) <==> TakesDefendant(frs, n);
      assert Fold(frs).numParties == if TakesDefendant(frs, n) then st.numParties + 1 else st.numParties;
    }
  }

  /** The loop writes no key but the six party keys. */
  lemma {:induction false} PartyKeysOnly(frs: seq<seq<string>>)
    ensures Fold(frs).info.Keys <= PartyKeys
  {
    if |frs| > 0 {
      PartyKeysOnly(frs[..|frs| - 1]);
    }
  }

  /** The plaintiff's name and address come from the LAST `P 1` row: a later `P 1` row overwrites an earlier one. */
  lemma {:induction false} PlaintiffFromLastRow(frs: seq<seq<string>>, i: nat)
    requires i < |frs| && IsPlaintiffRow(frs[i])
    requires forall j :: i < j < |frs| ==> !IsPlaintiffRow(frs[j])
    ensures PlaintiffName in Fold(frs).info && Fold(frs).info[PlaintiffName] == frs[i][0]
    ensures PlaintiffAddress in Fold(frs).info && Fold(frs).info[PlaintiffAddress] == frs[i][1]
  {
    var n := |frs| - 1;
    if i < n {
      PrefixAt(frs, n);
      PlaintiffFromLastRow(frs[..n], i);
    }
  }

  /** Without a `P 1` row there are no plaintiff fields. */
  lemma {:induction false} NoPlaintiff(frs: seq<seq<string>>)
    requires forall j :: 0 <= j < |frs| ==> !IsPlaintiffRow(frs[j])
    ensures PlaintiffName !in Fold(frs).info && PlaintiffAddress !in Fold(frs).info
    ensures PlaintiffAttorney !in Fold(frs).info
  {
    if |frs| > 0 {
      PrefixAt(frs, |frs| - 1);
      NoPlaintiff(frs[..|frs| - 1]);
    }
  }

  /**
   * The defendant's name and address come from the LAST row that took the
   * defendant branch: every `D 1` row overwrites them.
   */
  lemma {:induction false} DefendantFromLastRow(frs: seq<seq<string>>, i: nat)
    requires i < |frs| && TakesDefendant(frs, i)
    requires forall j :: i < j < |frs| ==> !TakesDefendant(frs, j)
    ensures DefendantName in Fold(frs).info && Fold(frs).info[DefendantName] == frs[i][0]
    ensures DefendantAddress in Fold(frs).info && Fold(frs).info[DefendantAddress] == frs[i][1]
  {
    var n := |frs| - 1;
    CounterTracksDefendant(frs);
    if i < n {
      forall j | i < j < n ensures !TakesDefendant(frs[..n], j) {
        TakesDefendantPrefix(frs, n, j);
      }
      TakesDefendantPrefix(frs, n, i);
      DefendantFromLastRow(frs[..n], i);
    }
  }

  /** Without a row taking the defendant branch there are no defendant fields. */
  lemma {:induction false} NoDefendant(frs: seq<seq<string>>)
    requires forall j :: 0 <= j < |frs| ==> !TakesDefendant(frs, j)
    ensures DefendantName !in Fold(frs).info && DefendantAddress !in Fold(frs).info
    ensures DefendantAttorney !in Fold(frs).info
  {
    if |frs| > 0 {
      var n := |frs| - 1;
      CounterTracksDefendant(frs);
      forall j | 0 <= j < n ensures !TakesDefendant(frs[..n], j) {
        TakesDefendantPrefix(frs, n, j);
      }
      NoDefendant(frs[..n]);
    }
  }

  /** `plaintiff_attorney` is only ever the fourth cell of a `P 1` row with at least four cells. */
  lemma {:induction false} PlaintiffAttorneyFromWideRow(frs: seq<seq<string>>)
    requires PlaintiffAttorney in Fold(frs).info
    ensures exists i :: 0 <= i < |frs| && IsPlaintiffRow(frs[i]) && |frs[i]| >= 4
                        && Fold(frs).info[PlaintiffAttorney] == frs[i][3]
  {
    var n := |frs| - 1;
    var last := frs[n];
    PrefixAt(frs, n);
    if !(IsPlaintiffRow(last) && |last| >= 4) {
      PlaintiffAttorneyFromWideRow(frs[..n]);
      var i :| 0 <= i < n && IsPlaintiffRow(frs[..n][i]) && |frs[..n][i]| >= 4
               && Fold(frs[..n]).info[PlaintiffAttorney] == frs[..n][i][3];
      assert IsPlaintiffRow(frs[i]) && Fold(frs).info[PlaintiffAttorney] == frs[i][3];
    }
  }

  /** `defendant_attorney` is only ever the fourth cell of a row with at least four cells that took the defendant branch. */
  lemma {:induction false} DefendantAttorneyFromWideRow(frs: seq<seq<string>>)
    requires DefendantAttorney in Fold(frs).info
    ensures exists i :: 0 <= i < |frs| && TakesDefendant(frs, i) && |frs[i]| >= 4
                        && Fold(frs).info[DefendantAttorney] == frs[i][3]
  {
    var n := |frs| - 1;
    var last := frs[n];
    CounterTracksDefendant(frs);
    if !(TakesDefendant(frs, n) && |last| >= 4) {
      PrefixAt(frs, n);
      DefendantAttorneyFromWideRow(frs[..n]);
      var i :| 0 <= i < n && TakesDefendant(frs[..n], i) && |frs[..n][i]| >= 4
               && Fold(frs[..n]).info[DefendantAttorney] == frs[..n][i][3];
      TakesDefendantPrefix(frs, n, i);
      assert Fold(frs).info[DefendantAttorney] == frs[i][3];
    }
  }

  /**
   * `plaintiff_attorney` is the fourth cell of the LAST `P 1` row with at
   * least four cells: a later such row overwrites it, and a later `P 1` row
   * with three cells leaves it in place.
   */
  lemma {:induction false} PlaintiffAttorneyFromLastWideRow(frs: seq<seq<string>>, i: nat)
    requires i < |frs| && IsPlaintiffRow(frs[i]) && |frs[i]| >= 4
    requires forall j :: i < j < |frs| ==> !(IsPlaintiffRow(frs[j]) && |frs[j]| >= 4)
    ensures PlaintiffAttorney in Fold(frs).info && Fold(frs).info[PlaintiffAttorney] == frs[i][3]
  {
    var n := |frs| - 1;
    if i < n {
      PrefixAt(frs, n);
      PlaintiffAttorneyFromLastWideRow(frs[..n], i);
    }
  }

  /**
   * `defendant_attorney` is the fourth cell of the LAST row with at least
   * four cells that took the defendant branch.
   */
  lemma {:induction false} DefendantAttorneyFromLastWideRow(frs: seq<seq<string>>, i: nat)
    requires i < |frs| && TakesDefendant(frs, i) && |frs[i]| >= 4
    requires forall j :: i < j < |frs| ==> !(TakesDefendant(frs, j) && |frs[j]| >= 4)
    ensures DefendantAttorney in Fold(frs).info && Fold(frs).info[DefendantAttorney] == frs[i][3]
  {
    var n := |frs| - 1;
    CounterTracksDefendant(frs);
    if i < n {
      PrefixAt(frs, n);
      forall j | i < j < n ensures !(TakesDefendant(frs[..n], j) && |frs[..n][j]| >= 4) {
        TakesDefendantPrefix(frs, n, j);
      }
      TakesDefendantPrefix(frs, n, i);
      DefendantAttorneyFromLastWideRow(frs[..n], i);
    }
  }

  /**
   * `extract_party_info_data(rows)`: one pass over the rows, never raising;
   * rows with fewer than three cells are skipped.
   */
  method ExtractPartyInfoData(rows: seq<seq<string>>) returns (partyInfo: Parties)
    ensures partyInfo == PartiesOf(rows)
    ensures partyInfo.Keys <= PartyKeys
  {
    ghost var frs := AllFields(rows);
    var numParties: nat := 0;
    partyInfo := map[];
    for i := 0 to |rows|
      invariant Fold(frs[..i]) == PartyState(partyInfo, numParties)
    {
      var rowFields := RowFields(rows[i]);
      assert frs[..i + 1][..i] == frs[..i] && frs[..i + 1][i] == rowFields;
      if |rowFields| >= 3 {
        var party := rowFields[2];
        if party == PlaintiffTag {
          partyInfo := partyInfo[PlaintiffName := rowFields[0]];
          partyInfo := partyInfo[PlaintiffAddress := rowFields[1]];
          if |rowFields| >= 4 {
            partyInfo := partyInfo[PlaintiffAttorney := rowFields[3]];
          }
        } else if party == DefendantTag || ('D' in party && numParties < 1) {
          numParties := numParties + 1;
          partyInfo := partyInfo[DefendantName := rowFields[0]];
          partyInfo := partyInfo[DefendantAddress := rowFields[1]];
          if |rowFields| >= 4 {
            partyInfo := partyInfo[DefendantAttorney := rowFields[3]];
          }
        }
      }
    }
    assert frs[..|rows|] == frs;
    PartyKeysOnly(frs);
  }

  /** A table of one row yields that row's fields alone. */
  lemma OneRow(row: seq<string>)
    ensures PartiesOf([row]) == Step(PartyState(map[], 0), RowFields(row)).info
  {
    var frs := AllFields([row]);
    assert frs == [RowFields(row)];
    assert frs[..0] == [];
    assert Fold(frs) == Step(Fold([]), RowFields(row));
  }

  /**
   * A lone plaintiff row of three cells, such as `John Doe | 123 Main St | P 1`,
   * gives the plaintiff's name and address and no attorney key.
   */
  lemma PlaintiffWithoutAttorney(row: seq<string>)
    requires |row| == 3 && row[2] == PlaintiffTag
    ensures PartiesOf([row]) == map[PlaintiffName := RowFields(row)[0], PlaintiffAddress := RowFields(row)[1]]
  {
    assert RemoveNewlines(row[2]) == row[2];
    OneRow(row);
  }

  /** A table of two rows is folded in order. */
  lemma TwoRows(r1: seq<string>, r2: seq<string>)
    ensures PartiesOf([r1, r2]) == Step(Step(PartyState(map[], 0), RowFields(r1)), RowFields(r2)).info
  {
    var frs := AllFields([r1, r2]);
    assert frs == [RowFields(r1), RowFields(r2)];
    assert frs[..1] == [RowFields(r1)] && frs[..1][..0] == [];
    assert Fold(frs[..1]) == Step(Fold([]), RowFields(r1));
    assert Fold(frs) == Step(Fold(frs[..1]), RowFields(r2));
  }

  /** Two `D 1` rows: the second overwrites the first. */
  lemma SecondDefendantOverwrites(r1: seq<string>, r2: seq<string>)
    requires |r1| == 3 && r1[2] == DefendantTag
    requires |r2| == 3 && r2[2] == DefendantTag
    ensures PartiesOf([r1, r2]) == map[DefendantName := RowFields(r2)[0], DefendantAddress := RowFields(r2)[1]]
  {
    assert RemoveNewlines(r1[2]) == r1[2];
    assert RemoveNewlines(r2[2]) == r2[2];
    TwoRows(r1, r2);
  }

  /**
   * A `P 1` row with an attorney followed by a `P 1` row without one: the
   * second plaintiff's name and address sit next to the first one's
   * attorney, since the attorney key is never removed.
   */
  lemma StaleAttorney(r1: seq<string>, r2: seq<string>)
    requires |r1| == 4 && r1[2] == PlaintiffTag
    requires |r2| == 3 && r2[2] == PlaintiffTag
    ensures PartiesOf([r1, r2])
            == map[PlaintiffName := RowFields(r2)[0], PlaintiffAddress := RowFields(r2)[1],
                   PlaintiffAttorney := RowFields(r1)[3]]
  {
    assert RemoveNewlines(r1[2]) == r1[2];
    assert RemoveNewlines(r2[2]) == r2[2];
    TwoRows(r1, r2);
  }
}
