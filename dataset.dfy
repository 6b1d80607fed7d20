/**
 * The case line-list as the dashboard holds it after loading: one `Row` per
 * case record, with every cell that failed to parse already turned into a
 * missing value.
 */
module Dataset {
  import opened Wrappers
  import opened Calendar

  /**
   * One case record. `values` holds the numeric indicator columns (disease
   * flags such as "Arbovirus" and the `sym_` symptom flags), keyed by column
   * name; a column absent from the map reads as missing.
   */
  datatype Row = Row(
    date: Option<Date>,
    country: Option<string>,
    gender: Option<string>,
    age: Option<real>,
    values: map<string, Option<int>>)

  /** The indicator columns the dashboard lets the analyst choose from. */
  const DiseaseColumns: seq<string> := ["Arbovirus", "ILI", "SARI", "Diarrhoea", "Malaria_case"]

  function Value(r: Row, col: string): Option<int> {
    if col in r.values then r.values[col] else None
  }

  /** The value a pandas `sum` adds for this cell: missing counts as 0. */
  function ValueOrZero(r: Row, col: string): int {
    Value(r, col).GetOr(0)
  }

  /** `df[col] == 1`: a missing cell is never equal to 1. */
  predicate IsCase(r: Row, col: string) {
    Value(r, col) == Some(1)
  }

  /** Sum of a column over all rows, missing counted as 0. */
  function ColumnSum(rows: seq<Row>, col: string): int {
    if rows == [] then 0 else ValueOrZero(rows[0], col) + ColumnSum(rows[1..], col)
  }

  /** Sum of a column over the rows that have a date. */
  function DatedSum(rows: seq<Row>, col: string): int {
    if rows == [] then 0
    else (if rows[0].date.Some? then ValueOrZero(rows[0], col) else 0) + DatedSum(rows[1..], col)
  }

  /** Some dated row falls in bucket k of the bucketing function `key`. */
  predicate Occurs(rows: seq<Row>, key: Date -> int, k: int) {
    rows != [] && ((rows[0].date.Some? && key(rows[0].date.value) == k) || Occurs(rows[1..], key, k))
  }

  /** Sum of a column over the dated rows in bucket k. */
  function BucketSum(rows: seq<Row>, key: Date -> int, col: string, k: int): int {
    if rows == [] then 0
    else (if rows[0].date.Some? && key(rows[0].date.value) == k then ValueOrZero(rows[0], col) else 0)
         + BucketSum(rows[1..], key, col, k)
  }

  /** Number of rows whose gender is exactly `g` (`value_counts().get(g, 0)`). */
  function GenderCount(rows: seq<Row>, g: string): (n: nat)
    ensures n <= |rows|
  {
    if rows == [] then 0 else (if rows[0].gender == Some(g) then 1 else 0) + GenderCount(rows[1..], g)
  }

  /** `value_counts().get(g, 0)` is how often g occurs in the gender column: 0 when it never does. */
  lemma {:induction false} GenderCountIsMultiplicity(rows: seq<Row>, g: string)
    ensures GenderCount(rows, g) == multiset(GenderColumn(rows))[Some(g)]
    ensures GenderCount(rows, g) == 0 <==> Some(g) !in GenderColumn(rows)
  {
    if rows != [] {
      GenderCountIsMultiplicity(rows[1..], g);
      assert GenderColumn(rows) == [rows[0].gender] + GenderColumn(rows[1..]);
    }
  }

  /** The gender column, `df["sexe"]`, missing values included. */
  function GenderColumn(rows: seq<Row>): (c: seq<Option<string>>)
    ensures |c| == |rows| && forall i :: 0 <= i < |rows| ==> c[i] == rows[i].gender
  {
    if rows == [] then [] else [rows[0].gender] + GenderColumn(rows[1..])
  }

  /** Number of rows with a non-missing gender. */
  function GenderKnownCount(rows: seq<Row>): nat {
    if rows == [] then 0 else (if rows[0].gender.Some? then 1 else 0) + GenderKnownCount(rows[1..])
  }

  /** Rows that all have a date (as after any date-range filter). */
  predicate AllDated(rows: seq<Row>) {
    forall i :: 0 <= i < |rows| ==> rows[i].date.Some?
  }

  /** When every row is dated, summing over dated rows is summing over all rows. */
  lemma {:induction false} DatedSumOfDatedRows(rows: seq<Row>, col: string)
    requires AllDated(rows)
    ensures DatedSum(rows, col) == ColumnSum(rows, col)
  {
    if rows != [] {
      DatedSumOfDatedRows(rows[1..], col);
    }
  }

  /** A dated row occupies the bucket of its own date. */
  lemma {:induction false} OccursAt(rows: seq<Row>, key: Date -> int, i: int)
    requires 0 <= i < |rows| && rows[i].date.Some?
    ensures Occurs(rows, key, key(rows[i].date.value))
  {
    if i > 0 {
      assert rows[1..][i - 1] == rows[i];
      OccursAt(rows[1..], key, i - 1);
    }
  }

  /** An occupied bucket is occupied by some dated row. */
  lemma {:induction false} OccursWitness(rows: seq<Row>, key: Date -> int, k: int) returns (i: int)
    requires Occurs(rows, key, k)
    ensures 0 <= i < |rows| && rows[i].date.Some? && key(rows[i].date.value) == k
  {
    if rows[0].date.Some? && key(rows[0].date.value) == k {
      i := 0;
    } else {
      var j := OccursWitness(rows[1..], key, k);
      i := j + 1;
    }
  }
}
