/**
 * Period bucketing and summing (`group_data` in Dash.py, the grouping block of
 * app.py, and the comparison and seasonality series of Dash.py's `main`).
 */
module Aggregate {
  import opened Wrappers
  import opened Calendar
  import opened Dataset
  import opened TimeSeries

  /** The aggregation frequencies offered in the sidebar. */
  datatype Granularity = Daily | Weekly | Monthly | Quarterly | Yearly

  /**
   * The bucket of a date, as an integer that increases with time:
   * the day itself (`dt.date`), the Monday-to-Sunday week (`to_period("W")`),
   * the month, the quarter or the year.
   */
  function BucketKey(g: Granularity, d: Date): (k: int)
    ensures g == Weekly ==> 7 * k <= DayNumber(d) < 7 * k + 7
    ensures g == Monthly ==> k / 12 == d.year && k % 12 == d.month - 1
    ensures g == Quarterly ==> k / 4 == d.year && k % 4 == (d.month - 1) / 3
  {
    match g
    case Daily => DayNumber(d)
    case Weekly => DayNumber(d) / 7
    case Monthly => 12 * d.year + d.month - 1
    case Quarterly => 4 * d.year + (d.month - 1) / 3
    case Yearly => d.year
  }

  function KeyOf(g: Granularity): Date -> int {
    (d: Date) => BucketKey(g, d)
  }

  /** `dt.month`: the month of the year, 1 .. 12, whatever the year. */
  function MonthOfYear(d: Date): (m: int)
    ensures 1 <= m <= 12
    ensures m == BucketKey(Monthly, d) % 12 + 1
  {
    d.month
  }

  /** What it means, in calendar terms, for two dates to share a bucket. */
  predicate SamePeriod(g: Granularity, a: Date, b: Date) {
    match g
    case Daily => a == b
    case Weekly => DayNumber(a) - Weekday(a) == DayNumber(b) - Weekday(b)   // the same Monday starts both weeks
    case Monthly => a.year == b.year && a.month == b.month
    case Quarterly => a.year == b.year && (a.month - 1) / 3 == (b.month - 1) / 3
    case Yearly => a.year == b.year
  }

  /** Two dates share a bucket exactly when they lie in the same calendar period. */
  lemma BucketKeyMeaning(g: Granularity, a: Date, b: Date)
    ensures BucketKey(g, a) == BucketKey(g, b) <==> SamePeriod(g, a, b)
  {
    match g
    case Daily => DayNumberOrder(a, b);
    case Weekly =>
    case Monthly =>
    case Quarterly =>
    case Yearly =>
  }

  /** A weekly bucket starts on a Monday and holds seven consecutive days. */
  lemma WeekBounds(d: Date)
    ensures 7 * BucketKey(Weekly, d) <= DayNumber(d) <= 7 * BucketKey(Weekly, d) + 6
    ensures DayNumber(d) - Weekday(d) == 7 * BucketKey(Weekly, d)
  {
  }

  /** Buckets follow time: a date no later than another never gets a larger key. */
  lemma BucketKeyMonotone(g: Granularity, a: Date, b: Date)
    requires DayNumber(a) <= DayNumber(b)
    ensures BucketKey(g, a) <= BucketKey(g, b)
  {
    DayNumberOrder(a, b);
    DayNumberOrder(b, a);
    match g
    case Daily =>
    case Weekly =>
    case Monthly =>
    case Quarterly =>
    case Yearly =>
  }

  /** A smaller key means an earlier date. */
  lemma BucketKeyOrder(g: Granularity, a: Date, b: Date)
    requires BucketKey(g, a) < BucketKey(g, b)
    ensures DayNumber(a) < DayNumber(b) && Precedes(a, b)
  {
    if DayNumber(b) <= DayNumber(a) {
      BucketKeyMonotone(g, b, a);
    }
    DayNumberOrder(a, b);
  }

  lemma AddToKeysAll(s: Series, k: int, v: int)
    requires StrictlyIncreasing(s)
    ensures forall j :: HasKey(AddTo(s, k, v), j) <==> HasKey(s, j) || j == k
    ensures forall j :: Lookup(AddTo(s, k, v), j) == Lookup(s, j) + (if j == k then v else 0)
  {
    forall j ensures HasKey(AddTo(s, k, v), j) <==> HasKey(s, j) || j == k {
      AddToKeys(s, k, v, j);
    }
    forall j ensures Lookup(AddTo(s, k, v), j) == Lookup(s, j) + (if j == k then v else 0) {
      AddToLookup(s, k, v, j);
    }
  }

  /**
   * `df.groupby(key(df[date]))[col].sum()`: one entry per occupied bucket, in
   * increasing key order, each holding the column's sum over that bucket's rows
   * (missing counted as 0). Rows without a date fall in no bucket.
   */
  function GroupBy(rows: seq<Row>, key: Date -> int, col: string): (s: Series)
    ensures StrictlyIncreasing(s)
    ensures forall k :: HasKey(s, k) <==> Occurs(rows, key, k)
    ensures forall k :: Lookup(s, k) == BucketSum(rows, key, col, k)
    ensures Total(s) == DatedSum(rows, col)
  {
    if rows == [] then []
    else
      var rest := GroupBy(rows[1..], key, col);
      match rows[0].date
      case None => rest
      case Some(d) =>
        AddToKeysAll(rest, key(d), ValueOrZero(rows[0], col));
        AddToTotal(rest, key(d), ValueOrZero(rows[0], col));
        AddTo(rest, key(d), ValueOrZero(rows[0], col))
  }

  lemma LookupAll(s: Series)
    requires StrictlyIncreasing(s)
    ensures forall i :: 0 <= i < |s| ==> Lookup(s, s[i].key) == s[i].count
  {
    forall i | 0 <= i < |s| ensures Lookup(s, s[i].key) == s[i].count {
      LookupAt(s, i);
    }
  }

  lemma HasKeyAll(s: Series)
    ensures forall i :: 0 <= i < |s| ==> HasKey(s, s[i].key)
  {
    forall i | 0 <= i < |s| ensures HasKey(s, s[i].key) {
      HasKeyIndex(s, s[i].key);
    }
  }

  /** `group_data(df, disease, freq)`, before its keys are rendered as labels. */
  function GroupData(rows: seq<Row>, col: string, g: Granularity): (s: Series)
    ensures StrictlyIncreasing(s)
    ensures forall k :: HasKey(s, k) <==> Occurs(rows, KeyOf(g), k)
    ensures forall i :: 0 <= i < |s| ==> Occurs(rows, KeyOf(g), s[i].key)
    ensures forall i :: 0 <= i < |s| ==> s[i].count == BucketSum(rows, KeyOf(g), col, s[i].key)
    ensures Total(s) == DatedSum(rows, col)
  {
    var s := GroupBy(rows, KeyOf(g), col);
    LookupAll(s);
    HasKeyAll(s);
    s
  }

  /** Buckets appear in chronological order: every date of an earlier entry precedes every date of a later one. */
  lemma GroupedChronological(rows: seq<Row>, col: string, g: Granularity, i: int, j: int, a: Date, b: Date)
    requires 0 <= i < j < |GroupData(rows, col, g)|
    requires BucketKey(g, a) == GroupData(rows, col, g)[i].key
    requires BucketKey(g, b) == GroupData(rows, col, g)[j].key
    ensures Precedes(a, b)
  {
    BucketKeyOrder(g, a, b);
  }

  /** Every dated row lands in exactly one entry: the one whose key is its bucket. */
  lemma {:induction false} DatedRowHasOneEntry(rows: seq<Row>, col: string, g: Granularity, r: int)
    requires 0 <= r < |rows| && rows[r].date.Some?
    ensures exists i :: 0 <= i < |GroupData(rows, col, g)| && GroupData(rows, col, g)[i].key == BucketKey(g, rows[r].date.value)
    ensures forall i, j ::
              (0 <= i < |GroupData(rows, col, g)| && 0 <= j < |GroupData(rows, col, g)|
               && GroupData(rows, col, g)[i].key == BucketKey(g, rows[r].date.value)
               && GroupData(rows, col, g)[j].key == BucketKey(g, rows[r].date.value)) ==> i == j
  {
    var s := GroupData(rows, col, g);
    var k := BucketKey(g, rows[r].date.value);
    OccursAt(rows, KeyOf(g), r);
    assert HasKey(s, k);
    HasKeyIndex(s, k);
    var i :| 0 <= i < |s| && Keys(s)[i] == k;
    assert s[i].key == k;
  }

  /** The grouped series is empty exactly when no row has a date. */
  lemma {:induction false} GroupedEmptyIffNoDates(rows: seq<Row>, col: string, g: Granularity)
    ensures GroupData(rows, col, g) == [] <==> forall r :: 0 <= r < |rows| ==> rows[r].date.None?
  {
    var s := GroupData(rows, col, g);
    if s != [] {
      var r := OccursWitness(rows, KeyOf(g), s[0].key);
    }
    if exists r :: 0 <= r < |rows| && rows[r].date.Some? {
      var r :| 0 <= r < |rows| && rows[r].date.Some?;
      DatedRowHasOneEntry(rows, col, g, r);
    }
  }

  /** The bucket layout is the same whichever column is summed. */
  lemma {:induction false} GroupByKeysIndependent(rows: seq<Row>, key: Date -> int, c1: string, c2: string)
    ensures Keys(GroupBy(rows, key, c1)) == Keys(GroupBy(rows, key, c2))
  {
    if rows != [] {
      GroupByKeysIndependent(rows[1..], key, c1, c2);
      if rows[0].date.Some? {
        var d := rows[0].date.value;
        AddToSameKeys(GroupBy(rows[1..], key, c1), GroupBy(rows[1..], key, c2),
                      key(d), ValueOrZero(rows[0], c1), ValueOrZero(rows[0], c2));
      }
    }
  }

  // ---------------------------------------------------------------------------
  // Disease comparison: monthly sums of the five disease columns side by side.

  datatype MonthRow = MonthRow(month: int, counts: seq<int>)

  /**
   * `df_f.groupby(to_period("M"))[DiseaseColumns].sum()`: one row per occupied
   * month, in month order, holding each disease column's sum in that month.
   */
  function Compare(rows: seq<Row>): (t: seq<MonthRow>)
    ensures forall i, j :: 0 <= i < j < |t| ==> t[i].month < t[j].month
    ensures forall i :: 0 <= i < |t| ==> Occurs(rows, KeyOf(Monthly), t[i].month)
    ensures forall i :: 0 <= i < |t| ==> |t[i].counts| == |DiseaseColumns|
    ensures forall i, j :: 0 <= i < |t| && 0 <= j < |DiseaseColumns| ==>
              t[i].counts[j] == BucketSum(rows, KeyOf(Monthly), DiseaseColumns[j], t[i].month)
    ensures |t| == |GroupData(rows, DiseaseColumns[0], Monthly)|
  {
    var ix := Keys(GroupData(rows, DiseaseColumns[0], Monthly));
    seq(|ix|, i requires 0 <= i < |ix| =>
      MonthRow(ix[i], seq(|DiseaseColumns|, j requires 0 <= j < |DiseaseColumns| =>
        Lookup(GroupBy(rows, KeyOf(Monthly), DiseaseColumns[j]), ix[i]))))
  }

  /** Column j of the comparison is the monthly trend series of disease j, entry by entry. */
  lemma CompareAlignsWithTrend(rows: seq<Row>, i: int, j: int)
    requires 0 <= i < |Compare(rows)| && 0 <= j < |DiseaseColumns|
    ensures i < |GroupData(rows, DiseaseColumns[j], Monthly)|
    ensures Compare(rows)[i].month == GroupData(rows, DiseaseColumns[j], Monthly)[i].key
    ensures Compare(rows)[i].counts[j] == GroupData(rows, DiseaseColumns[j], Monthly)[i].count
  {
    GroupByKeysIndependent(rows, KeyOf(Monthly), DiseaseColumns[0], DiseaseColumns[j]);
    var t := Compare(rows);
    var s := GroupData(rows, DiseaseColumns[j], Monthly);
    assert Keys(s)[i] == s[i].key;
  }

  // ---------------------------------------------------------------------------
  // Seasonality: sums per month of the year, pooling all years.

  /** `df_f.groupby(dt.month)[disease].sum()`. */
  function Seasonality(rows: seq<Row>, col: string): (s: Series)
    ensures StrictlyIncreasing(s)
    ensures forall i :: 0 <= i < |s| ==> 1 <= s[i].key <= 12
    ensures |s| <= 12
    ensures forall k :: HasKey(s, k) <==> Occurs(rows, MonthOfYear, k)
    ensures forall i :: 0 <= i < |s| ==> s[i].count == BucketSum(rows, MonthOfYear, col, s[i].key)
    ensures Total(s) == DatedSum(rows, col)
  {
    var s := GroupBy(rows, MonthOfYear, col);
    LookupAll(s);
    HasKeyAll(s);
    forall i | 0 <= i < |s| ensures 1 <= s[i].key <= 12 {
      var r := OccursWitness(rows, MonthOfYear, s[i].key);
    }
    AtMostTwelve(s);
    s
  }

  lemma {:induction false} AtMostTwelve(s: Series)
    requires StrictlyIncreasing(s)
    requires forall i :: 0 <= i < |s| ==> 1 <= s[i].key <= 12
    ensures |s| <= 12
  {
    if s != [] {
      IncreasingGap(s, |s| - 1);
    }
  }

  lemma {:induction false} IncreasingGap(s: Series, i: int)
    requires StrictlyIncreasing(s) && 0 <= i < |s|
    ensures s[i].key >= s[0].key + i
  {
    if i > 0 {
      IncreasingGap(s, i - 1);
    }
  }
}
