/**
 * Row selection: the sidebar's date-range normalisation and `filter_data`
 * of Dash.py.
 */
module Filter {
  import opened Wrappers
  import opened Calendar
  import opened Dataset
  import opened Masking

  /** The country choice that disables the country filter. */
  const AllCountries: string := "All"

  /**
   * The range the sidebar hands on: a single picked date d becomes [d, d];
   * otherwise the first two dates are the bounds. With nothing picked there is
   * no `dates[0]` and the source fails.
   */
  function DateRange(selection: seq<Date>): (r: Option<(Date, Date)>)
    ensures r.None? <==> selection == []
    ensures r.Some? ==> r.value.0 == selection[0]
    ensures |selection| == 1 ==> r == Some((selection[0], selection[0]))
    ensures |selection| >= 2 ==> r.value.1 == selection[1]
  {
    if |selection| == 0 then None
    else if |selection| == 1 then Some((selection[0], selection[0]))
    else Some((selection[0], selection[1]))
  }

  /** lo <= date <= hi; a missing date never matches. */
  function InDateRange(lo: Date, hi: Date): Row -> bool {
    (r: Row) => r.date.Some? && DayNumber(lo) <= DayNumber(r.date.value) <= DayNumber(hi)
  }

  /** `df["country"] == c`; a missing country never matches. */
  function CountryIs(c: string): Row -> bool {
    (r: Row) => r.country == Some(c)
  }

  /** The rows `filter_data` is meant to keep. */
  predicate Selected(r: Row, country: string, lo: Date, hi: Date) {
    && r.date.Some?
    && DayNumber(lo) <= DayNumber(r.date.value) <= DayNumber(hi)
    && (country == AllCountries || r.country == Some(country))
  }

  function KeepSelected(country: string, lo: Date, hi: Date): Row -> bool {
    (r: Row) => Selected(r, country, lo, hi)
  }

  /** `filter_data(df, country, [lo, hi])`: the date mask, then the country mask unless "All". */
  function FilterData(rows: seq<Row>, country: string, lo: Date, hi: Date): (r: seq<Row>)
    ensures forall x :: x in r <==> x in rows && Selected(x, country, lo, hi)
    ensures forall x :: multiset(r)[x] == if Selected(x, country, lo, hi) then multiset(rows)[x] else 0
    ensures forall i :: 0 <= i < |r| ==> Selected(r[i], country, lo, hi)
    ensures IsSubsequence(r, rows)
  {
    FilterIsOneMask(rows, country, lo, hi);
    WhereFacts(rows, KeepSelected(country, lo, hi));
    var inRange := Where(rows, InDateRange(lo, hi));
    if country != AllCountries then Where(inRange, CountryIs(country)) else inRange
  }

  /** The two masks of `filter_data` together keep exactly the selected rows. */
  lemma FilterIsOneMask(rows: seq<Row>, country: string, lo: Date, hi: Date)
    ensures (if country != AllCountries then Where(Where(rows, InDateRange(lo, hi)), CountryIs(country))
             else Where(rows, InDateRange(lo, hi)))
            == Where(rows, KeepSelected(country, lo, hi))
  {
    if country != AllCountries {
      WhereWhere(rows, InDateRange(lo, hi), CountryIs(country));
      WhereSamePredicate(rows, Both(InDateRange(lo, hi), CountryIs(country)), KeepSelected(country, lo, hi));
    } else {
      WhereSamePredicate(rows, InDateRange(lo, hi), KeepSelected(country, lo, hi));
    }
  }

  /** Filtering an already filtered table with the same choices changes nothing. */
  lemma FilterIdempotent(rows: seq<Row>, country: string, lo: Date, hi: Date)
    ensures FilterData(FilterData(rows, country, lo, hi), country, lo, hi) == FilterData(rows, country, lo, hi)
  {
    var d, c := InDateRange(lo, hi), CountryIs(country);
    if country == AllCountries {
      WhereIdempotent(rows, d);
    } else {
      var once := Where(Where(rows, d), c);
      WhereCommute(Where(rows, d), c, d);
      WhereIdempotent(rows, d);
      WhereIdempotent(Where(rows, d), c);
      assert Where(Where(once, d), c) == Where(Where(Where(Where(rows, d), d), c), c);
    }
  }

  /** A single picked date d selects exactly the rows dated d (and of the chosen country). */
  lemma SingleDateSelection(rows: seq<Row>, country: string, d: Date)
    ensures DateRange([d]) == Some((d, d))
    ensures forall x :: x in FilterData(rows, country, d, d) <==>
      x in rows && x.date == Some(d) && (country == AllCountries || x.country == Some(country))
  {
    forall x: Row | x.date.Some? ensures DayNumber(d) <= DayNumber(x.date.value) <= DayNumber(d) <==> x.date == Some(d) {
      DayNumberOrder(d, x.date.value);
    }
  }
}
