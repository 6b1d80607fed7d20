/**
 * The tables Dash.py's `main` derives from the filtered data for its tabs:
 * the running total of the trend series, the age-group breakdown of the
 * cases, the symptom counts and the "Download filtered data" subset. The
 * monthly comparison and the seasonality table live with the grouping, in
 * module Aggregate.
 */
module Derived {
  import opened Wrappers
  import opened Calendar
  import opened Dataset
  import opened Masking
  import opened TimeSeries
  import opened Aggregate
  import opened Filter
  import opened Kpis

  // ---------------------------------------------------------------------------
  // Cumulative tab: `grouped.cumsum()`.

  /** Each period keeps its key and carries the total of all periods up to and including it. */
  function CumSum(s: Series): (r: Series)
    ensures |r| == |s|
    ensures forall i :: 0 <= i < |s| ==> r[i].key == s[i].key && r[i].count == Total(s[..i + 1])
  {
    if s == [] then []
    else
      var init := s[..|s| - 1];
      assert s[..|s|] == s;
      PrefixesOfInit(s);
      CumSum(init) + [Bucket(s[|s| - 1].key, Total(s))]
  }

  lemma PrefixesOfInit(s: Series)
    requires s != []
    ensures forall j :: 0 <= j < |s| ==> s[..|s| - 1][..j] == s[..j]
  {
  }

  lemma {:induction false} TotalSnoc(s: Series, b: Bucket)
    ensures Total(s + [b]) == Total(s) + b.count
  {
    if s == [] {
      assert s + [b] == [b];
    } else {
      assert (s + [b])[1..] == s[1..] + [b];
      TotalSnoc(s[1..], b);
    }
  }

  /** The running total grows by exactly the next period's count. */
  lemma CumSumStep(s: Series, i: int)
    requires 0 <= i < |s| - 1
    ensures CumSum(s)[i + 1].count == CumSum(s)[i].count + s[i + 1].count
  {
    TotalPrefixStep(s, i);
  }

  lemma TotalPrefixStep(s: Series, i: int)
    requires 0 <= i < |s| - 1
    ensures Total(s[..i + 2]) == Total(s[..i + 1]) + s[i + 1].count
  {
    assert s[..i + 2] == s[..i + 1] + [s[i + 1]];
    TotalSnoc(s[..i + 1], s[i + 1]);
  }

  /** The running total starts at the first count. */
  lemma CumSumFirst(s: Series)
    requires s != []
    ensures CumSum(s)[0].count == s[0].count
  {
    assert s[..1] == [s[0]];
    assert Total([s[0]]) == s[0].count + Total([]);
  }

  /** With counts that are never negative the cumulative curve never goes down. */
  lemma CumSumMonotone(s: Series, i: int, j: int)
    requires forall k :: 0 <= k < |s| ==> s[k].count >= 0
    requires 0 <= i <= j < |s|
    ensures CumSum(s)[i].count <= CumSum(s)[j].count
    decreases j - i
  {
    if i < j {
      CumSumStep(s, j - 1);
      CumSumMonotone(s, i, j - 1);
    }
  }

  /** The cumulative series of the trend ends at the sum of the disease column over the dated rows. */
  lemma CumulativeEndsAtTotal(rows: seq<Row>, col: string, g: Granularity)
    requires GroupData(rows, col, g) != []
    ensures var s := GroupData(rows, col, g);
            CumSum(s)[|s| - 1].count == DatedSum(rows, col)
  {
    var s := GroupData(rows, col, g);
    assert s[..|s|] == s;
  }

  // ---------------------------------------------------------------------------
  // Age groups tab: `pd.cut(cases["age"], [0, 5, 15, 50, 120], labels=[...])`.

  const Under5: string := "<5"
  const From5To14: string := "5\U{2013}14"
  const From15To49: string := "15\U{2013}49"
  const Over50: string := "50+"
  const AgeLabels: seq<string> := [Under5, From5To14, From15To49, Over50]

  /**
   * The bin pandas assigns, as written: right-closed bins (0, 5], (5, 15],
   * (15, 50], (50, 120]; a missing age, an age of 0 or less and an age above
   * 120 get no group.
   */
  function AgeGroup(age: Option<real>): (g: Option<string>)
    ensures g.Some? <==> age.Some? && 0.0 < age.value <= 120.0
    ensures g.Some? ==> g.value in AgeLabels
  {
    match age
    case None => None
    case Some(a) =>
      if a <= 0.0 || a > 120.0 then None
      else if a <= 5.0 then Some(Under5)
      else if a <= 15.0 then Some(From5To14)
      else if a <= 50.0 then Some(From15To49)
      else Some(Over50)
  }

  /** A cut into bins is monotone: an older case never lands in a younger group. */
  lemma AgeGroupMonotone(a: real, b: real, i: int, j: int)
    requires a <= b && 0 <= i < |AgeLabels| && 0 <= j < |AgeLabels|
    requires AgeGroup(Some(a)) == Some(AgeLabels[i]) && AgeGroup(Some(b)) == Some(AgeLabels[j])
    ensures i <= j
  {
  }

  /** The as-written bins disagree with their labels at the bin edges. */
  lemma AgeBinLabelMismatch()
    ensures AgeGroup(Some(0.0)).None?
    ensures AgeGroup(Some(5.0)) == Some(Under5)
    ensures AgeGroup(Some(15.0)) == Some(From5To14)
    ensures AgeGroup(Some(50.0)) == Some(From15To49)
  {
  }

  /** The as-written bins over the whole ages 0..120: each label is one whole age off from its name. */
  lemma AgeGroupMatchesLabelsAsWritten(n: int)
    requires 0 <= n <= 120
    ensures AgeGroup(Some(n as real)).None? <==> n == 0
    ensures AgeGroup(Some(n as real)) == Some(Under5) <==> 1 <= n <= 5
    ensures AgeGroup(Some(n as real)) == Some(From5To14) <==> 6 <= n <= 15
    ensures AgeGroup(Some(n as real)) == Some(From15To49) <==> 16 <= n <= 50
    ensures AgeGroup(Some(n as real)) == Some(Over50) <==> 51 <= n
  {
  }

  /**
   * The grouping the labels describe: [0, 5) is "<5", [5, 15) is "5–14",
   * [15, 50) is "15–49" and [50, 120] is "50+".
   */
  function IntendedAgeGroup(age: Option<real>): (g: Option<string>)
    ensures g.Some? <==> age.Some? && 0.0 <= age.value <= 120.0
    ensures g.Some? ==> g.value in AgeLabels
  {
    match age
    case None => None
    case Some(a) =>
      if a < 0.0 || a > 120.0 then None
      else if a < 5.0 then Some(Under5)
      else if a < 15.0 then Some(From5To14)
      else if a < 50.0 then Some(From15To49)
      else Some(Over50)
  }

  /** With the intended bins every whole age from 0 to 120 falls in the group its label names. */
  lemma IntendedAgeGroupMatchesLabels(n: int)
    requires 0 <= n <= 120
    ensures IntendedAgeGroup(Some(n as real)) == Some(Under5) <==> n <= 4
    ensures IntendedAgeGroup(Some(n as real)) == Some(From5To14) <==> 5 <= n <= 14
    ensures IntendedAgeGroup(Some(n as real)) == Some(From15To49) <==> 15 <= n <= 49
    ensures IntendedAgeGroup(Some(n as real)) == Some(Over50) <==> 50 <= n
  {
  }

  /** Number of cases that a binning puts in the group `label` (`value_counts()[label]`). */
  function CountInGroup(cases: seq<Row>, bin: Option<real> -> Option<string>, name: string): nat {
    if cases == [] then 0
    else (if bin(cases[0].age) == Some(name) then 1 else 0) + CountInGroup(cases[1..], bin, name)
  }

  /** Number of cases that a binning puts in some group. */
  function CountBinned(cases: seq<Row>, bin: Option<real> -> Option<string>): nat {
    if cases == [] then 0
    else (if bin(cases[0].age).Some? then 1 else 0) + CountBinned(cases[1..], bin)
  }

  /** The age groups of the chart: the count of each label, in label order. */
  function AgeGroupCounts(cases: seq<Row>): (t: seq<(string, nat)>)
    ensures |t| == |AgeLabels|
    ensures forall i :: 0 <= i < |t| ==> t[i].0 == AgeLabels[i]
    ensures forall i :: 0 <= i < |t| ==> t[i].1 == CountInGroup(cases, AgeGroup, AgeLabels[i])
    ensures forall i :: 0 <= i < |t| ==> t[i].1 <= |cases|
    ensures t[0].1 + t[1].1 + t[2].1 + t[3].1 == CountBinned(cases, AgeGroup)
  {
    GroupsPartition(cases, AgeGroup);
    CountInGroupBound(cases, AgeGroup, Under5);
    CountInGroupBound(cases, AgeGroup, From5To14);
    CountInGroupBound(cases, AgeGroup, From15To49);
    CountInGroupBound(cases, AgeGroup, Over50);
    [(Under5, CountInGroup(cases, AgeGroup, Under5)),
     (From5To14, CountInGroup(cases, AgeGroup, From5To14)),
     (From15To49, CountInGroup(cases, AgeGroup, From15To49)),
     (Over50, CountInGroup(cases, AgeGroup, Over50))]
  }

  lemma {:induction false} CountInGroupBound(cases: seq<Row>, bin: Option<real> -> Option<string>, name: string)
    ensures CountInGroup(cases, bin, name) <= |cases|
  {
    if cases != [] {
      CountInGroupBound(cases[1..], bin, name);
    }
  }

  /**
   * The four groups partition the binned cases: when a binning only ever
   * answers one of the four labels, the group counts add up to the number of
   * cases it places.
   */
  lemma {:induction false} GroupsPartition(cases: seq<Row>, bin: Option<real> -> Option<string>)
    requires forall a :: bin(a).Some? ==> bin(a).value in AgeLabels
    ensures CountInGroup(cases, bin, Under5) + CountInGroup(cases, bin, From5To14)
          + CountInGroup(cases, bin, From15To49) + CountInGroup(cases, bin, Over50)
         == CountBinned(cases, bin)
  {
    if cases != [] {
      GroupsPartition(cases[1..], bin);
    }
  }

  /** The cases the chart leaves out are exactly those without an age in (0, 120]. */
  lemma {:induction false} AgeGroupsCoverAgedCases(cases: seq<Row>)
    ensures CountBinned(cases, AgeGroup) == |Where(cases, (r: Row) => r.age.Some? && 0.0 < r.age.value <= 120.0)|
    ensures CountInGroup(cases, AgeGroup, Under5) + CountInGroup(cases, AgeGroup, From5To14)
          + CountInGroup(cases, AgeGroup, From15To49) + CountInGroup(cases, AgeGroup, Over50)
         == CountBinned(cases, AgeGroup)
  {
    GroupsPartition(cases, AgeGroup);
    if cases != [] {
      AgeGroupsCoverAgedCases(cases[1..]);
    }
  }

  /** With the intended bins the chart would leave out only the cases without an age in [0, 120]. */
  lemma {:induction false} IntendedGroupsCoverAgedCases(cases: seq<Row>)
    ensures CountBinned(cases, IntendedAgeGroup) == |Where(cases, (r: Row) => r.age.Some? && 0.0 <= r.age.value <= 120.0)|
    ensures CountInGroup(cases, IntendedAgeGroup, Under5) + CountInGroup(cases, IntendedAgeGroup, From5To14)
          + CountInGroup(cases, IntendedAgeGroup, From15To49) + CountInGroup(cases, IntendedAgeGroup, Over50)
         == CountBinned(cases, IntendedAgeGroup)
  {
    GroupsPartition(cases, IntendedAgeGroup);
    if cases != [] {
      IntendedGroupsCoverAgedCases(cases[1..]);
    }
  }

  // ---------------------------------------------------------------------------
  // Symptoms tab: the `sym_` columns of the table and their sums over the cases.

  const SymptomPrefix: string := "sym_"

  predicate IsSymptomColumn(c: string) {
    |c| >= |SymptomPrefix| && c[..|SymptomPrefix|] == SymptomPrefix
  }

  /** `[c for c in df.columns if c.startswith("sym_")]`, in column order. */
  function SymptomColumns(columns: seq<string>): (sc: seq<string>)
    ensures forall c :: c in sc <==> c in columns && IsSymptomColumn(c)
    ensures IsSubsequence(sc, columns)
  {
    WhereFacts(columns, IsSymptomColumn);
    Where(columns, IsSymptomColumn)
  }

  /** `cases[sym_cols].sum()`: one total per symptom column, unparsable and missing cells adding nothing. */
  function SymptomCounts(cases: seq<Row>, columns: seq<string>): (t: seq<(string, int)>)
    ensures |t| == |SymptomColumns(columns)|
    ensures forall i :: 0 <= i < |t| ==> t[i].0 == SymptomColumns(columns)[i] && IsSymptomColumn(t[i].0)
    ensures forall i :: 0 <= i < |t| ==> t[i].1 == ColumnSum(cases, t[i].0)
  {
    var sc := SymptomColumns(columns);
    WhereFacts(columns, IsSymptomColumn);
    seq(|sc|, i requires 0 <= i < |sc| => (sc[i], ColumnSum(cases, sc[i])))
  }

  /** A 0/1 flag column (missing allowed). */
  predicate IsFlagColumn(rows: seq<Row>, col: string) {
    forall i :: 0 <= i < |rows| ==> Value(rows[i], col) in {None, Some(0), Some(1)}
  }

  /** Over a 0/1 flag column the sum counts the rows flagged 1, so it is at most the number of cases. */
  lemma {:induction false} FlagSumCountsFlagged(rows: seq<Row>, col: string)
    requires IsFlagColumn(rows, col)
    ensures ColumnSum(rows, col) == |Where(rows, IsCaseOf(col))|
    ensures 0 <= ColumnSum(rows, col) <= |rows|
  {
    if rows != [] {
      assert Value(rows[0], col) in {None, Some(0), Some(1)};
      FlagSumCountsFlagged(rows[1..], col);
    }
  }

  // ---------------------------------------------------------------------------
  // "Download filtered data": the country mask, the date mask, then `== 1`.

  /** The download subset, built from the full table in the order the sidebar code applies the masks. */
  function DownloadSubset(rows: seq<Row>, country: string, lo: Date, hi: Date, disease: string): (d: seq<Row>)
    ensures forall x :: x in d <==> x in rows && Selected(x, country, lo, hi) && IsCase(x, disease)
  {
    DownloadIsCases(rows, country, lo, hi, disease);
    var byCountry := if country != AllCountries then Where(rows, CountryIs(country)) else rows;
    var byDate := Where(byCountry, InDateRange(lo, hi));
    Where(byDate, IsCaseOf(disease))
  }

  /** The file offered for download holds exactly the case rows of the dashboard, in the same order. */
  lemma DownloadIsCases(rows: seq<Row>, country: string, lo: Date, hi: Date, disease: string)
    ensures (var byCountry := if country != AllCountries then Where(rows, CountryIs(country)) else rows;
             Where(Where(byCountry, InDateRange(lo, hi)), IsCaseOf(disease)))
         == Cases(FilterData(rows, country, lo, hi), disease)
  {
    if country != AllCountries {
      WhereCommute(rows, CountryIs(country), InDateRange(lo, hi));
    }
  }

  /** The download subset equals the KPI cases table computed from the filtered data. */
  /**
   * An empty grouped series after `filter_data` gives the KPI cards their
   * defaults: total 0, peak "N/A" and both percentages 0, since every filtered
   * record has a date and so no case remains either.
   */
  lemma EmptySeriesKpis(rows: seq<Row>, country: string, lo: Date, hi: Date, col: string, g: Granularity)
    requires GroupData(FilterData(rows, country, lo, hi), col, g) == []
    ensures var f := FilterData(rows, country, lo, hi);
            var k := ComputeKpis(f, GroupData(f, col, g), col);
            k.total == 0 && k.peak.None? && k.malePct == 0 && k.femalePct == 0
  {
    var f := FilterData(rows, country, lo, hi);
    assert AllDated(f);
    EmptyGroupsOnlyWithoutRows(f, col, g);
    assert Cases(f, col) == [];
  }

  /** Records that all have a date fill at least one period. */
  lemma EmptyGroupsOnlyWithoutRows(rows: seq<Row>, col: string, g: Granularity)
    requires AllDated(rows)
    ensures GroupData(rows, col, g) == [] ==> rows == []
  {
    if rows != [] {
      GroupedEmptyIffNoDates(rows, col, g);
      assert rows[0].date.Some?;
    }
  }

  lemma DownloadMatchesKpiCases(rows: seq<Row>, country: string, lo: Date, hi: Date, disease: string, g: Granularity)
    ensures var f := FilterData(rows, country, lo, hi);
            DownloadSubset(rows, country, lo, hi, disease) == ComputeKpis(f, GroupData(f, disease, g), disease).cases
  {
    DownloadIsCases(rows, country, lo, hi, disease);
  }
}
