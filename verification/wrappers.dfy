/** Option and Result, the failure-carrying values every service returns. */
module Wrappers {

  datatype Option<+T> = None | Some(value: T)

  /** `Err` carries what the source raises; `Ok` what it returns. */
  datatype Result<+T, +E> = Ok(value: T) | Err(error: E)

  /** Index of the first element of `s` satisfying `p` (SQL `.first()` over a table in row order). */
  function FirstIndex<T>(s: seq<T>, p: T -> bool): (r: Option<nat>)
    ensures r.Some? ==> r.value < |s| && p(s[r.value])
    ensures r.Some? ==> forall j :: 0 <= j < r.value ==> !p(s[j])
    ensures r.None? <==> forall j :: 0 <= j < |s| ==> !p(s[j])
  {
    if |s| == 0 then None
    else if p(s[0]) then Some(0)
    else match FirstIndex(s[1..], p)
      case None => None
      case Some(k) => Some(k + 1)
  }

  /** The elements of `s` satisfying `p`, in their original order (SQL `.filter(...).all()`). */
  function Filter<T(!new)>(s: seq<T>, p: T -> bool): (r: seq<T>)
    ensures |r| <= |s|
    ensures forall x :: x in r <==> x in s && p(x)
    ensures forall k :: 0 <= k < |r| ==> p(r[k])
  {
    if |s| == 0 then []
    else if p(s[|s| - 1]) then Filter(s[..|s| - 1], p) + [s[|s| - 1]]
    else Filter(s[..|s| - 1], p)
  }

  /** Filtering keeps order: the filter of a concatenation is the concatenation of the filters. */
  lemma {:induction false} FilterAppend<T(!new)>(a: seq<T>, b: seq<T>, p: T -> bool)
    ensures Filter(a + b, p) == Filter(a, p) + Filter(b, p)
    decreases |b|
  {
    if |b| == 0 {
      assert a + b == a;
    } else {
      assert (a + b)[..|a + b| - 1] == a + b[..|b| - 1];
      assert (a + b)[|a + b| - 1] == b[|b| - 1];
      FilterAppend(a, b[..|b| - 1], p);
    }
  }

  /** Filtering keeps every copy of a satisfying element and no copy of any other. */
  lemma {:induction false} FilterCounts<T(!new)>(s: seq<T>, p: T -> bool)
    ensures forall x :: multiset(Filter(s, p))[x] == if p(x) then multiset(s)[x] else 0
  {
    if |s| > 0 {
      var init, last := s[..|s| - 1], s[|s| - 1];
      assert s == init + [last];
      FilterCounts(init, p);
    }
  }

  /** Nothing passes a filter that no element satisfies. */
  lemma {:induction false} FilterNone<T(!new)>(s: seq<T>, p: T -> bool)
    requires forall x :: x in s ==> !p(x)
    ensures Filter(s, p) == []
  {
    if |s| > 0 {
      assert s[|s| - 1] in s;
      assert forall x :: x in s[..|s| - 1] ==> x in s;
      FilterNone(s[..|s| - 1], p);
    }
  }

  /** A relation between every earlier and later element survives filtering. */
  lemma {:induction false} FilterPairwise<T(!new)>(s: seq<T>, p: T -> bool, ok: (T, T) -> bool)
    requires forall i, j :: 0 <= i < j < |s| ==> ok(s[i], s[j])
    ensures forall i, j :: 0 <= i < j < |Filter(s, p)| ==> ok(Filter(s, p)[i], Filter(s, p)[j])
  {
    if |s| > 0 {
      var init := s[..|s| - 1];
      var last := s[|s| - 1];
      FilterPairwise(init, p, ok);
      var f := Filter(init, p);
      if p(last) {
        var r := f + [last];
        forall i, j | 0 <= i < j < |r| ensures ok(r[i], r[j]) {
          if j == |r| - 1 {
            assert r[i] in f;
            var a :| 0 <= a < |init| && init[a] == r[i];
            assert s[a] == r[i] && s[|s| - 1] == r[j];
          } else {
            assert r[i] == f[i] && r[j] == f[j];
          }
        }
      }
    }
  }

  /** How many of `n` rows a page after `skip` rows of at most `limit` rows holds. */
  function PageLength(n: nat, skip: nat, limit: nat): nat
  {
    if skip >= n then 0 else if n - skip < limit then n - skip else limit
  }

  /** SQL `OFFSET skip LIMIT limit`: drop `skip` elements, keep at most `limit`. */
  function Window<T>(s: seq<T>, skip: nat, limit: nat): (r: seq<T>)
    ensures |r| == PageLength(|s|, skip, limit) && |r| <= limit
    ensures forall k :: 0 <= k < |r| ==> r[k] == s[skip + k]
  {
    if skip >= |s| then []
    else if |s| - skip < limit then s[skip..]
    else s[skip..skip + limit]
  }

  /** `s` without the element at index `k`, the others in their order. */
  function RemoveAt<T>(s: seq<T>, k: nat): (r: seq<T>)
    requires k < |s|
    ensures |r| == |s| - 1
    ensures forall i :: 0 <= i < k ==> r[i] == s[i]
    ensures forall i :: k <= i < |r| ==> r[i] == s[i + 1]
  {
    s[..k] + s[k + 1..]
  }

  /** Removing an element keeps every other element and adds none. */
  lemma RemoveAtMembers<T>(s: seq<T>, k: nat)
    requires k < |s|
    ensures forall x :: x in RemoveAt(s, k) ==> x in s
    ensures forall i :: 0 <= i < |s| && i != k ==> s[i] in RemoveAt(s, k)
  {
    var r := RemoveAt(s, k);
    forall x | x in r ensures x in s {
      var i :| 0 <= i < |r| && r[i] == x;
      if i < k { assert s[i] == x; } else { assert s[i + 1] == x; }
    }
    forall i | 0 <= i < |s| && i != k ensures s[i] in r {
      if i < k { assert r[i] == s[i]; } else { assert r[i - 1] == s[i]; }
    }
  }

  /** A relation that holds between every earlier and later pair still holds after a removal. */
  lemma RemoveAtPairwise<T>(s: seq<T>, k: nat, ok: (T, T) -> bool)
    requires k < |s|
    requires forall i, j :: 0 <= i < j < |s| ==> ok(s[i], s[j])
    ensures forall i, j :: 0 <= i < j < |RemoveAt(s, k)| ==> ok(RemoveAt(s, k)[i], RemoveAt(s, k)[j])
  {
    var r := RemoveAt(s, k);
    forall i, j | 0 <= i < j < |r| ensures ok(r[i], r[j]) {
      var i' := if i < k then i else i + 1;
      var j' := if j < k then j else j + 1;
      assert r[i] == s[i'] && r[j] == s[j'] && i' < j';
    }
  }
}
