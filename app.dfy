/**
 * The smaller dashboard, app.py: the `sexe` recoding, the date filter, the
 * three-granularity grouping, the case table and the normalised gender
 * shares. It works on the same line-list shape as Dash.py, with `sexe`
 * coded 1/2 instead of a gender label and no country filter.
 */
module App {
  import opened Wrappers
  import opened Calendar
  import opened Dataset
  import opened Masking
  import opened TimeSeries
  import opened Aggregate
  import opened Filter
  import opened Kpis

  const Male: string := "Male"
  const Female: string := "Female"

  /** A record as read from the CSV: `sexe` still holds its numeric code. */
  datatype CodedRow = CodedRow(date: Option<Date>, sexe: Option<int>, values: map<string, Option<int>>)

  /** `map({1: "Male", 2: "Female"})`: any other code, and a missing one, becomes missing. */
  function MapSexe(code: Option<int>): (g: Option<string>)
    ensures g == Some(Male) <==> code == Some(1)
    ensures g == Some(Female) <==> code == Some(2)
    ensures g.None? <==> code !in {Some(1), Some(2)}
  {
    match code
    case Some(1) => Some(Male)
    case Some(2) => Some(Female)
    case _ => None
  }

  function RecodeRow(r: CodedRow): (x: Row)
    ensures x.date == r.date && x.gender == MapSexe(r.sexe) && x.values == r.values
    ensures x.country.None? && x.age.None?
  {
    Row(r.date, None, MapSexe(r.sexe), None, r.values)
  }

  /** `df["sexe"] = df["sexe"].map(...)`, applied to every record. */
  function RecodeSexe(rows: seq<CodedRow>): (out: seq<Row>)
    ensures |out| == |rows|
    ensures forall i :: 0 <= i < |rows| ==> out[i] == RecodeRow(rows[i])
  {
    if rows == [] then [] else [RecodeRow(rows[0])] + RecodeSexe(rows[1..])
  }

  /** After the recoding every gender is "Male", "Female" or missing. */
  predicate OnlyCodedGenders(rows: seq<Row>) {
    forall i :: 0 <= i < |rows| ==> rows[i].gender in {None, Some(Male), Some(Female)}
  }

  lemma RecodedGenders(rows: seq<CodedRow>)
    ensures OnlyCodedGenders(RecodeSexe(rows))
  {
    var out := RecodeSexe(rows);
    forall i | 0 <= i < |out| ensures out[i].gender in {None, Some(Male), Some(Female)} {
      assert out[i].gender == MapSexe(rows[i].sexe);
    }
  }

  /**
   * `date_range[0], date_range[1]`: app.py does not normalise a single picked
   * date, so fewer than two dates leave no range (the source raises an error).
   */
  function AppDateRange(selection: seq<Date>): (r: Option<(Date, Date)>)
    ensures r.None? <==> |selection| < 2
    ensures r.Some? ==> r.value == (selection[0], selection[1])
  {
    if |selection| < 2 then None else Some((selection[0], selection[1]))
  }

  /** Where the two dashboards agree on the range: a selection of two or more dates. */
  lemma AppDateRangeAgrees(selection: seq<Date>)
    ensures |selection| >= 2 ==> AppDateRange(selection) == DateRange(selection)
    ensures |selection| == 1 ==> AppDateRange(selection).None? && DateRange(selection).Some?
  {
  }

  /** `df[(df["date_inc"] >= start_date) & (df["date_inc"] <= end_date)]`. */
  function FilterByDate(rows: seq<Row>, lo: Date, hi: Date): (r: seq<Row>)
    ensures forall x :: x in r <==> x in rows && x.date.Some? && DayNumber(lo) <= DayNumber(x.date.value) <= DayNumber(hi)
    ensures IsSubsequence(r, rows)
    ensures AllDated(r)
    ensures r == FilterData(rows, AllCountries, lo, hi)
  {
    WhereFacts(rows, InDateRange(lo, hi));
    Where(rows, InDateRange(lo, hi))
  }

  /** The aggregation levels app.py offers; it has no quarterly or yearly view. */
  datatype AppFreq = AppDaily | AppWeekly | AppMonthly

  function Level(f: AppFreq): (g: Granularity)
    ensures g in {Daily, Weekly, Monthly}
    ensures f == AppDaily <==> g == Daily
    ensures f == AppWeekly <==> g == Weekly
    ensures f == AppMonthly <==> g == Monthly
  {
    match f
    case AppDaily => Daily
    case AppWeekly => Weekly
    case AppMonthly => Monthly
  }

  /** The `if freq == ...` chain: the same per-period sum as Dash.py's grouping. */
  function AppGroup(filtered: seq<Row>, disease: string, f: AppFreq): (s: Series)
    ensures StrictlyIncreasing(s)
    ensures forall k :: HasKey(s, k) <==> Occurs(filtered, KeyOf(Level(f)), k)
    ensures forall i :: 0 <= i < |s| ==> s[i].count == BucketSum(filtered, KeyOf(Level(f)), disease, s[i].key)
    ensures Total(s) == DatedSum(filtered, disease)
  {
    GroupData(filtered, disease, Level(f))
  }

  /**
   * The case table app.py builds, `df[df[disease] == 1]` after the recoding and
   * the date filter, holds only "Male", "Female" or missing genders, so the
   * share lemmas below apply to it.
   */
  lemma AppCasesCoded(rows: seq<CodedRow>, lo: Date, hi: Date, disease: string)
    ensures OnlyCodedGenders(Cases(FilterByDate(RecodeSexe(rows), lo, hi), disease))
  {
    var recoded := RecodeSexe(rows);
    var filtered := FilterByDate(recoded, lo, hi);
    RecodedGenders(rows);
    CodedWithin(filtered, recoded);
    CodedWithin(Cases(filtered, disease), filtered);
  }

  /** Records drawn from a table with only coded genders have only coded genders. */
  lemma CodedWithin(sub: seq<Row>, rows: seq<Row>)
    requires forall x :: x in sub ==> x in rows
    requires OnlyCodedGenders(rows)
    ensures OnlyCodedGenders(sub)
  {
    forall i | 0 <= i < |sub| ensures sub[i].gender in {None, Some(Male), Some(Female)} {
      assert sub[i] in rows;
    }
  }

  /** On app.py's case table the male and female shares make up 100 percent once any gender is known. */
  lemma AppSharesAddUp(rows: seq<CodedRow>, lo: Date, hi: Date, disease: string)
    requires GenderKnownCount(Cases(FilterByDate(RecodeSexe(rows), lo, hi), disease)) > 0
    ensures var cases := Cases(FilterByDate(RecodeSexe(rows), lo, hi), disease);
            OnlyCodedGenders(cases) && ShareOf(GenderShares(cases), Male) + ShareOf(GenderShares(cases), Female) == 100.0
  {
    AppCasesCoded(rows, lo, hi, disease);
    SharesAddUp(Cases(FilterByDate(RecodeSexe(rows), lo, hi), disease));
  }

  /** Every record the date filter keeps has a date, so the grouped total is the column total of the filtered table. */
  lemma GroupedTotalIsColumnTotal(rows: seq<Row>, lo: Date, hi: Date, disease: string, f: AppFreq)
    ensures Total(AppGroup(FilterByDate(rows, lo, hi), disease, f)) == ColumnSum(FilterByDate(rows, lo, hi), disease)
  {
    DatedSumOfDatedRows(FilterByDate(rows, lo, hi), disease);
  }

  /** The "No data available" warning shows exactly when no record falls in the range. */
  lemma NoDataIffNoRows(rows: seq<Row>, lo: Date, hi: Date, disease: string, f: AppFreq)
    ensures AppGroup(FilterByDate(rows, lo, hi), disease, f) == [] <==> FilterByDate(rows, lo, hi) == []
  {
    var filtered := FilterByDate(rows, lo, hi);
    GroupedEmptyIffNoDates(filtered, disease, Level(f));
    if filtered != [] {
      assert filtered[0].date.Some?;
    }
  }

  /** s percent of known is count: s == count * 100 / known. */
  predicate IsShareOf(s: real, count: nat, known: nat) {
    s * (known as real) == (count as real) * 100.0
  }

  /** Share of one gender among the cases whose gender is known, in percent. */
  function Share(count: nat, known: nat): (s: real)
    requires count <= known && known > 0
    ensures s * (known as real) == (count as real) * 100.0
    ensures 0.0 <= s <= 100.0
    ensures count > 0 ==> s > 0.0
  {
    PercentOfWhole(count as real, known as real);
    (count as real) * 100.0 / (known as real)
  }

  /** c * 100 / k for 0 <= c <= k: a percentage between 0 and 100, positive when c is. */
  lemma PercentOfWhole(c: real, k: real)
    requires 0.0 <= c <= k && k > 0.0
    ensures (c * 100.0 / k) * k == c * 100.0
    ensures 0.0 <= c * 100.0 / k <= 100.0
    ensures c > 0.0 ==> c * 100.0 / k > 0.0
  {
    assert c * 100.0 <= k * 100.0;
  }

  /**
   * `cases["sexe"].value_counts(normalize=True) * 100`: one entry per gender
   * that occurs, missing genders left out of both the entries and the base.
   */
  function GenderShares(cases: seq<Row>): (m: map<string, real>)
    requires OnlyCodedGenders(cases)
    ensures m.Keys <= {Male, Female}
    ensures forall g :: g in m <==> g in {Male, Female} && GenderCount(cases, g) > 0
    ensures forall g :: g in m ==> IsShareOf(m[g], GenderCount(cases, g), GenderKnownCount(cases))
    ensures forall g :: g in m ==> 0.0 < m[g] <= 100.0
  {
    CodedKnown(cases);
    SharesOf(GenderCount(cases, Male), GenderCount(cases, Female))
  }

  /** The normalised counts of `male` men and `female` women, leaving out a gender that does not occur. */
  function SharesOf(male: nat, female: nat): (m: map<string, real>)
    ensures m.Keys <= {Male, Female}
    ensures Male in m <==> male > 0
    ensures Female in m <==> female > 0
    ensures Male in m ==> IsShareOf(m[Male], male, male + female) && 0.0 < m[Male] <= 100.0
    ensures Female in m ==> IsShareOf(m[Female], female, male + female) && 0.0 < m[Female] <= 100.0
  {
    var known := male + female;
    var withMen := if male > 0 then map[Male := Share(male, known)] else map[];
    if female > 0 then withMen[Female := Share(female, known)] else withMen
  }

  /** After the recoding the known genders are just the men and the women. */
  lemma {:induction false} CodedKnown(cases: seq<Row>)
    requires OnlyCodedGenders(cases)
    ensures GenderKnownCount(cases) == GenderCount(cases, Male) + GenderCount(cases, Female)
  {
    if cases != [] {
      assert cases[0].gender in {None, Some(Male), Some(Female)};
      assert OnlyCodedGenders(cases[1..]) by {
        forall i | 0 <= i < |cases[1..]| ensures cases[1..][i].gender in {None, Some(Male), Some(Female)} {
          assert cases[1..][i] == cases[i + 1];
        }
      }
      CodedKnown(cases[1..]);
    }
  }

  function ShareOf(m: map<string, real>, g: string): real {
    if g in m then m[g] else 0.0
  }

  /** When some case has a known gender, the shares of men and women make up 100 percent. */
  lemma SharesAddUp(cases: seq<Row>)
    requires OnlyCodedGenders(cases) && GenderKnownCount(cases) > 0
    ensures ShareOf(GenderShares(cases), Male) + ShareOf(GenderShares(cases), Female) == 100.0
  {
    CodedKnown(cases);
    var male, female := GenderCount(cases, Male), GenderCount(cases, Female);
    var known := GenderKnownCount(cases);
    var m := GenderShares(cases);
    assert ShareOf(m, Male) == Share(male, known);
    assert ShareOf(m, Female) == Share(female, known);
    ShareSum(male, female);
  }

  lemma ShareSum(male: nat, female: nat)
    requires male + female > 0
    ensures Share(male, male + female) + Share(female, male + female) == 100.0
  {
    SharesArith(Share(male, male + female), Share(female, male + female),
                male as real, female as real, (male + female) as real);
  }

  /** x and y are the shares a * 100 / k and b * 100 / k of a whole k == a + b. */
  lemma SharesArith(x: real, y: real, a: real, b: real, k: real)
    requires k == a + b && k > 0.0
    requires x * k == a * 100.0 && y * k == b * 100.0
    ensures x + y == 100.0
  {
    assert (x + y - 100.0) * k == x * k + y * k - 100.0 * k;
  }

  /** With no recorded gender the distribution is empty. */
  lemma NoSharesWithoutGender(cases: seq<Row>)
    requires OnlyCodedGenders(cases) && GenderKnownCount(cases) == 0
    ensures GenderShares(cases) == map[]
  {
    CodedKnown(cases);
  }

  /** Dash.py's integer male percentage is app.py's share with its fraction cut off. */
  lemma DashPercentIsFlooredShare(cases: seq<Row>)
    requires OnlyCodedGenders(cases) && GenderCount(cases, Male) > 0
    ensures var male, female := GenderCount(cases, Male), GenderCount(cases, Female);
            var p := Percent(male, male + female);
            p as real <= GenderShares(cases)[Male] < (p + 1) as real
  {
    CodedKnown(cases);
    var male, female := GenderCount(cases, Male), GenderCount(cases, Female);
    var p := Percent(male, male + female);
    var share := GenderShares(cases)[Male];
    assert IsShareOf(share, male, male + female);
    FloorBounds(p, share, male, male + female);
  }

  /** p is the floor of the share s of part in whole. */
  lemma FloorBounds(p: int, s: real, part: nat, whole: nat)
    requires 0 < whole && IsShareOf(s, part, whole)
    requires IsFloorPercent(p, part, whole)
    ensures p as real <= s < (p + 1) as real
  {
    var w := whole as real;
    assert (p as real) * w <= s * w < ((p + 1) as real) * w;
  }
}
