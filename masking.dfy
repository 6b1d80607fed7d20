/**
 * Boolean-mask selection of rows, the `df[mask]` of pandas: keep the elements
 * a predicate accepts, in their original order.
 */
module Masking {

  /** `a` can be obtained from `b` by deleting elements (order kept). */
  predicate IsSubsequence<T(==)>(a: seq<T>, b: seq<T>)
    decreases |b|
  {
    if a == [] then true
    else if b == [] then false
    else if a[0] == b[0] then IsSubsequence(a[1..], b[1..])
    else IsSubsequence(a, b[1..])
  }

  function Where<T(==,!new)>(s: seq<T>, keep: T -> bool): (r: seq<T>)
    ensures |r| <= |s|
    ensures forall x :: x in r <==> x in s && keep(x)
    ensures multiset(r) <= multiset(s)
  {
    if s == [] then []
    else
      assert s == [s[0]] + s[1..];
      if keep(s[0]) then [s[0]] + Where(s[1..], keep) else Where(s[1..], keep)
  }

  /** A mask keeps each accepted element as often as it occurs, and drops every rejected one. */
  lemma {:induction false} WhereCount<T(!new)>(s: seq<T>, keep: T -> bool, x: T)
    ensures multiset(Where(s, keep))[x] == if keep(x) then multiset(s)[x] else 0
  {
    if s != [] {
      assert s == [s[0]] + s[1..];
      WhereCount(s[1..], keep, x);
    }
  }

  /** A mask keeps the input order. */
  lemma {:induction false} WhereIsSubsequence<T(!new)>(s: seq<T>, keep: T -> bool)
    ensures IsSubsequence(Where(s, keep), s)
  {
    if s != [] {
      WhereIsSubsequence(s[1..], keep);
      if !keep(s[0]) {
        var w := Where(s[1..], keep);
        if w != [] {
          assert w[0] in w;
        }
      }
    }
  }

  /** Every element the mask accepts: then nothing is removed. */
  lemma {:induction false} WhereAll<T(!new)>(s: seq<T>, keep: T -> bool)
    requires forall i :: 0 <= i < |s| ==> keep(s[i])
    ensures Where(s, keep) == s
  {
    if s != [] {
      WhereAll(s[1..], keep);
    }
  }

  /** Applying the same mask twice is applying it once. */
  lemma {:induction false} WhereIdempotent<T(!new)>(s: seq<T>, keep: T -> bool)
    ensures Where(Where(s, keep), keep) == Where(s, keep)
  {
    var w := Where(s, keep);
    assert forall i :: 0 <= i < |w| ==> keep(w[i]) by {
      forall i | 0 <= i < |w| ensures keep(w[i]) { assert w[i] in w; }
    }
    WhereAll(w, keep);
  }

  /** Two masks applied one after the other can be applied in either order. */
  lemma {:induction false} WhereCommute<T(!new)>(s: seq<T>, p: T -> bool, q: T -> bool)
    ensures Where(Where(s, p), q) == Where(Where(s, q), p)
  {
    if s != [] {
      WhereCommute(s[1..], p, q);
    }
  }

  function Both<T>(p: T -> bool, q: T -> bool): T -> bool {
    x => p(x) && q(x)
  }

  /** Two masks in a row are one mask that asks for both. */
  lemma {:induction false} WhereWhere<T(!new)>(s: seq<T>, p: T -> bool, q: T -> bool)
    ensures Where(Where(s, p), q) == Where(s, Both(p, q))
  {
    if s != [] {
      WhereWhere(s[1..], p, q);
    }
  }

  /** Masks that accept the same elements give the same result. */
  lemma {:induction false} WhereSamePredicate<T(!new)>(s: seq<T>, p: T -> bool, q: T -> bool)
    requires forall x :: p(x) == q(x)
    ensures Where(s, p) == Where(s, q)
  {
    if s != [] {
      WhereSamePredicate(s[1..], p, q);
    }
  }

  /** Everything a mask guarantees, gathered for its callers. */
  lemma WhereFacts<T(!new)>(s: seq<T>, keep: T -> bool)
    ensures forall x :: multiset(Where(s, keep))[x] == if keep(x) then multiset(s)[x] else 0
    ensures forall i :: 0 <= i < |Where(s, keep)| ==> keep(Where(s, keep)[i])
    ensures IsSubsequence(Where(s, keep), s)
  {
    forall x ensures multiset(Where(s, keep))[x] == if keep(x) then multiset(s)[x] else 0 {
      WhereCount(s, keep, x);
    }
    var w := Where(s, keep);
    assert forall i :: 0 <= i < |w| ==> w[i] in w;
    WhereIsSubsequence(s, keep);
  }

  /** A mask that accepts only the last element keeps just that element. */
  lemma {:induction false} WhereOnlyLast<T(!new)>(s: seq<T>, keep: T -> bool)
    requires |s| > 0 && keep(s[|s| - 1])
    requires forall i :: 0 <= i < |s| - 1 ==> !keep(s[i])
    ensures Where(s, keep) == [s[|s| - 1]]
  {
    if |s| == 1 {
      assert Where(s[1..], keep) == [];
    } else {
      assert !keep(s[0]);
      WhereOnlyLast(s[1..], keep);
    }
  }

  /** A mask that accepts no element leaves nothing. */
  lemma {:induction false} WhereNone<T(!new)>(s: seq<T>, keep: T -> bool)
    requires forall i :: 0 <= i < |s| ==> !keep(s[i])
    ensures Where(s, keep) == []
  {
    if s != [] {
      WhereNone(s[1..], keep);
    }
  }
}
