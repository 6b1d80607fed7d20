/**
 * A time series as produced by a pandas `groupby(...).sum()`: a sequence of
 * (bucket key, count) entries. The bucket key is the integer the bucketing
 * function assigns to a date; labels are rendered from it only for display.
 */
module TimeSeries {

  datatype Bucket = Bucket(key: int, count: int)

  type Series = seq<Bucket>

  /** Keys strictly increase along the series, so each key appears once. */
  predicate StrictlyIncreasing(s: Series) {
    forall i, j :: 0 <= i < j < |s| ==> s[i].key < s[j].key
  }

  function Keys(s: Series): (ks: seq<int>)
    ensures |ks| == |s| && forall i :: 0 <= i < |s| ==> ks[i] == s[i].key
  {
    if s == [] then [] else [s[0].key] + Keys(s[1..])
  }

  function Counts(s: Series): (cs: seq<int>)
    ensures |cs| == |s| && forall i :: 0 <= i < |s| ==> cs[i] == s[i].count
  {
    if s == [] then [] else [s[0].count] + Counts(s[1..])
  }

  /** Some entry of the series has key k. */
  predicate HasKey(s: Series, k: int) {
    s != [] && (s[0].key == k || HasKey(s[1..], k))
  }

  /** `grouped.sum()`. */
  function Total(s: Series): int {
    if s == [] then 0 else s[0].count + Total(s[1..])
  }

  /** Count recorded for key k, 0 when the key is absent. */
  function Lookup(s: Series, k: int): int {
    if s == [] then 0 else if s[0].key == k then s[0].count else Lookup(s[1..], k)
  }

  /** Add v to bucket k, creating the bucket in key order when it is new. */
  function AddTo(s: Series, k: int, v: int): (r: Series)
    requires StrictlyIncreasing(s)
    ensures StrictlyIncreasing(r)
    ensures r != [] && r[0].key == if s != [] && s[0].key < k then s[0].key else k
  {
    if s == [] then [Bucket(k, v)]
    else if k < s[0].key then [Bucket(k, v)] + s
    else if k == s[0].key then [Bucket(k, s[0].count + v)] + s[1..]
    else [s[0]] + AddTo(s[1..], k, v)
  }

  /** Adding to bucket k adds k to the keys and no other key. */
  lemma {:induction false} AddToKeys(s: Series, k: int, v: int, j: int)
    requires StrictlyIncreasing(s)
    ensures HasKey(AddTo(s, k, v), j) <==> HasKey(s, j) || j == k
  {
    if s != [] && k > s[0].key {
      AddToKeys(s[1..], k, v, j);
    }
  }

  /** Adding to bucket k changes the count of bucket k by v and no other count. */
  lemma {:induction false} AddToLookup(s: Series, k: int, v: int, j: int)
    requires StrictlyIncreasing(s)
    ensures Lookup(AddTo(s, k, v), j) == Lookup(s, j) + (if j == k then v else 0)
  {
    if s != [] {
      if k < s[0].key {
        if j == k && Lookup(s, j) != 0 {
          LookupPresent(s, j);
          HasKeyAbove(s, j);
        }
      } else if k > s[0].key {
        AddToLookup(s[1..], k, v, j);
      }
    }
  }

  /** Adding to a bucket adds to the total. */
  lemma {:induction false} AddToTotal(s: Series, k: int, v: int)
    requires StrictlyIncreasing(s)
    ensures Total(AddTo(s, k, v)) == Total(s) + v
  {
    if s != [] && k > s[0].key {
      AddToTotal(s[1..], k, v);
    }
  }

  /** A non-zero lookup finds a key of the series. */
  lemma {:induction false} LookupPresent(s: Series, k: int)
    requires Lookup(s, k) != 0
    ensures HasKey(s, k)
  {
    if s[0].key != k {
      LookupPresent(s[1..], k);
    }
  }

  /** Every key of an increasing series is at least its first key. */
  lemma {:induction false} HasKeyAbove(s: Series, k: int)
    requires StrictlyIncreasing(s) && HasKey(s, k)
    ensures s[0].key <= k
  {
    if s[0].key != k {
      HasKeyAbove(s[1..], k);
    }
  }

  /** HasKey is membership among the keys. */
  lemma {:induction false} HasKeyIndex(s: Series, k: int)
    ensures HasKey(s, k) <==> k in Keys(s)
  {
    if s != [] {
      HasKeyIndex(s[1..], k);
      assert Keys(s) == [s[0].key] + Keys(s[1..]);
    }
  }

  /** In a series without repeated keys, looking up an entry's key gives that entry's count. */
  lemma {:induction false} LookupAt(s: Series, i: int)
    requires StrictlyIncreasing(s) && 0 <= i < |s|
    ensures Lookup(s, s[i].key) == s[i].count
  {
    if i > 0 {
      LookupAt(s[1..], i - 1);
    }
  }

  /** Where a bucket lands does not depend on the counts: equal keys before give equal keys after. */
  lemma {:induction false} AddToSameKeys(s1: Series, s2: Series, k: int, v1: int, v2: int)
    requires StrictlyIncreasing(s1) && StrictlyIncreasing(s2) && Keys(s1) == Keys(s2)
    ensures Keys(AddTo(s1, k, v1)) == Keys(AddTo(s2, k, v2))
  {
    if s1 != [] {
      assert s1[0].key == Keys(s1)[0] == s2[0].key;
      assert Keys(s1[1..]) == Keys(s1)[1..] == Keys(s2)[1..] == Keys(s2[1..]);
      if k > s1[0].key {
        AddToSameKeys(s1[1..], s2[1..], k, v1, v2);
      }
    }
  }
}
