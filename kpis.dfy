/** The headline figures of the dashboard: `compute_kpis` in Dash.py. */
module Kpis {
  import opened Wrappers
  import opened Dataset
  import opened TimeSeries
  import opened Masking

  /** Position of the first largest count (what `idxmax` picks). */
  function PeakIndex(s: Series): (i: int)
    requires |s| > 0
    ensures 0 <= i < |s|
    ensures forall j :: 0 <= j < |s| ==> s[j].count <= s[i].count
    ensures forall j :: 0 <= j < i ==> s[j].count < s[i].count
  {
    if |s| == 1 then 0
    else
      var k := PeakIndex(s[..|s| - 1]);
      if s[|s| - 1].count > s[k].count then |s| - 1 else k
  }

  /** `str(grouped.idxmax())`, with None standing for the "N/A" of an empty series. */
  function Peak(s: Series): (p: Option<int>)
    ensures p.None? <==> s == []
    ensures p.Some? ==> exists i :: 0 <= i < |s| && s[i].key == p.value
  {
    if s == [] then None else Some(s[PeakIndex(s)].key)
  }

  /** The peak is the earliest entry whose count no other entry exceeds. */
  lemma PeakIsFirstMaximum(s: Series, i: int)
    requires 0 <= i < |s|
    requires forall j :: 0 <= j < |s| ==> s[j].count <= s[i].count
    requires forall j :: 0 <= j < i ==> s[j].count < s[i].count
    ensures Peak(s) == Some(s[i].key)
  {
    var k := PeakIndex(s);
    assert !(k < i) && !(i < k);
  }

  /** p is 100 * part / whole rounded down. */
  predicate IsFloorPercent(p: int, part: int, whole: int) {
    p * whole <= 100 * part < (p + 1) * whole
  }

  /** `int(part / whole * 100)` on exact numbers: the floor of the percentage, 0 when whole is 0. */
  function Percent(part: int, whole: int): (p: int)
    requires 0 <= part <= whole
    ensures 0 <= p <= 100
    ensures whole == 0 ==> p == 0
    ensures whole > 0 ==> IsFloorPercent(p, part, whole)
  {
    if whole == 0 then 0 else (100 * part) / whole
  }

  lemma ScaleLess(a: int, b: int, t: int)
    requires t > 0 && a * t < b * t
    ensures a < b
  {
    assert (b - a) * t == b * t - a * t > 0;
  }

  /** Two complementary shares, each rounded down, add up to 99 or 100 (0 when there is nothing to share). */
  lemma PercentPair(m: nat, f: nat)
    ensures Percent(m, m + f) + Percent(f, m + f) <= 100
    ensures m + f > 0 ==> Percent(m, m + f) + Percent(f, m + f) >= 99
  {
    var t := m + f;
    if t > 0 {
      PairBounds(Percent(m, t), Percent(f, t), m, f, t);
    }
  }

  /** Two floors p and q of 100m/t and 100f/t, where m + f == t, add up to 99 or 100. */
  lemma PairBounds(p: int, q: int, m: int, f: int, t: int)
    requires t > 0 && t == m + f
    requires IsFloorPercent(p, m, t) && IsFloorPercent(q, f, t)
    ensures 99 <= p + q <= 100
  {
    assert (p + q) * t == p * t + q * t;
    assert (p + q + 2) * t == (p + 1) * t + (q + 1) * t;
    ScaleLess(p + q, 101, t);
    ScaleLess(100, p + q + 2, t);
  }

  function IsCaseOf(col: string): Row -> bool {
    (r: Row) => IsCase(r, col)
  }

  /** `df[df[disease] == 1]`. */
  function Cases(rows: seq<Row>, col: string): (c: seq<Row>)
    ensures forall x :: x in c <==> x in rows && IsCase(x, col)
    ensures forall x :: multiset(c)[x] == if IsCase(x, col) then multiset(rows)[x] else 0
    ensures IsSubsequence(c, rows)
  {
    WhereFacts(rows, IsCaseOf(col));
    Where(rows, IsCaseOf(col))
  }

  lemma {:induction false} GenderSplit(rows: seq<Row>)
    ensures GenderCount(rows, "Male") + GenderCount(rows, "Female") <= GenderKnownCount(rows) <= |rows|
  {
    if rows != [] {
      GenderSplit(rows[1..]);
    }
  }

  /** p and q are the floored percentages of m men and f women among the m + f with a known gender. */
  predicate ArePercents(p: int, q: int, m: nat, f: nat) {
    p == Percent(m, m + f) && q == Percent(f, m + f)
  }

  datatype KpiSet = KpiSet(total: int, peak: Option<int>, malePct: int, femalePct: int, cases: seq<Row>)

  /** `compute_kpis(df, grouped, disease)`. */
  function ComputeKpis(rows: seq<Row>, grouped: Series, col: string): (k: KpiSet)
    ensures k.total == Total(grouped)
    ensures grouped == [] ==> k.total == 0 && k.peak.None?
    ensures grouped != [] ==> k.peak == Some(grouped[PeakIndex(grouped)].key)
    ensures forall x :: x in k.cases <==> x in rows && IsCase(x, col)
    ensures k.cases == Cases(rows, col)
    ensures ArePercents(k.malePct, k.femalePct, GenderCount(k.cases, "Male"), GenderCount(k.cases, "Female"))
    ensures 0 <= k.malePct <= 100 && 0 <= k.femalePct <= 100 && k.malePct + k.femalePct <= 100
    ensures GenderCount(k.cases, "Male") + GenderCount(k.cases, "Female") == 0 ==> k.malePct == 0 && k.femalePct == 0
    ensures GenderCount(k.cases, "Male") + GenderCount(k.cases, "Female") > 0 ==> k.malePct + k.femalePct >= 99
  {
    KpisOfCases(Cases(rows, col), grouped)
  }

  /** The KPI cards for a case table already selected. */
  function KpisOfCases(cases: seq<Row>, grouped: Series): (k: KpiSet)
    ensures k.total == Total(grouped)
    ensures grouped == [] ==> k.total == 0 && k.peak.None?
    ensures grouped != [] ==> k.peak == Some(grouped[PeakIndex(grouped)].key)
    ensures k.cases == cases
    ensures ArePercents(k.malePct, k.femalePct, GenderCount(cases, "Male"), GenderCount(cases, "Female"))
    ensures 0 <= k.malePct <= 100 && 0 <= k.femalePct <= 100 && k.malePct + k.femalePct <= 100
    ensures GenderCount(cases, "Male") + GenderCount(cases, "Female") == 0 ==> k.malePct == 0 && k.femalePct == 0
    ensures GenderCount(cases, "Male") + GenderCount(cases, "Female") > 0 ==> k.malePct + k.femalePct >= 99
  {
    var male := GenderCount(cases, "Male");
    var female := GenderCount(cases, "Female");
    GenderPercents(male, female);
    KpiSet(Total(grouped), Peak(grouped), Percent(male, male + female), Percent(female, male + female), cases)
  }

  /** The two floored percentages of `male` men and `female` women, as the KPI cards show them. */
  lemma GenderPercents(male: nat, female: nat)
    ensures var p, q := Percent(male, male + female), Percent(female, male + female);
            && ArePercents(p, q, male, female)
            && 0 <= p <= 100 && 0 <= q <= 100 && p + q <= 100
            && (male + female == 0 ==> p == 0 && q == 0)
            && (male + female > 0 ==> p + q >= 99)
  {
    PercentPair(male, female);
  }
}
