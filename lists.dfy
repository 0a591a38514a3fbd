/** The array operations the application relies on: `findIndex`, `find`,
    `filter`, and the patch-the-first-match step the store performs after a
    `findIndex`. */
module Lists {
  import opened Basics

  /** `Array.prototype.findIndex`: the first position satisfying `p`, or -1. */
  function IndexWhere<T>(s: seq<T>, p: T -> bool): (i: int)
    ensures -1 <= i < |s|
    ensures i == -1 <==> forall j :: 0 <= j < |s| ==> !p(s[j])
    ensures 0 <= i ==> p(s[i]) && forall j :: 0 <= j < i ==> !p(s[j])
  {
    if |s| == 0 then -1
    else if p(s[0]) then 0
    else
      var i := IndexWhere(s[1..], p);
      if i == -1 then -1 else i + 1
  }

  /** `findIndex((x) => key(x) === k)`: the first record carrying key `k`. */
  function IndexOfKey<T, K(==)>(s: seq<T>, key: T -> K, k: K): (i: int)
    ensures -1 <= i < |s|
    ensures i == -1 <==> forall j :: 0 <= j < |s| ==> key(s[j]) != k
    ensures 0 <= i ==> key(s[i]) == k && forall j :: 0 <= j < i ==> key(s[j]) != k
  {
    IndexWhere(s, x => key(x) == k)
  }

  /** `Array.prototype.find`: the first element satisfying `p`. */
  function Find<T>(s: seq<T>, p: T -> bool): (r: Option<T>)
    ensures r.None? <==> forall j :: 0 <= j < |s| ==> !p(s[j])
    ensures r.Some? ==> r.value in s && p(r.value)
    ensures r.Some? ==>
      exists i :: 0 <= i < |s| && s[i] == r.value && p(s[i]) && forall j :: 0 <= j < i ==> !p(s[j])
  {
    var i := IndexWhere(s, p);
    if i == -1 then None else assert s[i] == s[IndexWhere(s, p)]; Some(s[i])
  }

  /** `Array.prototype.filter`. */
  function Filter<T(!new)>(s: seq<T>, p: T -> bool): (r: seq<T>)
    ensures |r| <= |s|
    ensures forall x :: x in r <==> x in s && p(x)
  {
    if |s| == 0 then []
    else if p(s[0]) then [s[0]] + Filter(s[1..], p)
    else Filter(s[1..], p)
  }

  /** `filter((x) => key(x) !== k)`: every record carrying key `k` removed. */
  function RemoveKey<T(!new), K(==)>(s: seq<T>, key: T -> K, k: K): (r: seq<T>)
    ensures forall x :: x in r <==> x in s && key(x) != k
  {
    Filter(s, x => key(x) != k)
  }

  /** The first record with key `k`, if any, replaced by `f` of itself. */
  function PatchFirst<T, K(==)>(s: seq<T>, key: T -> K, k: K, f: T -> T): (r: seq<T>)
    ensures |r| == |s|
    ensures forall j :: 0 <= j < |s| && key(s[j]) != k ==> r[j] == s[j]
    ensures forall j :: 0 <= j < |s| && j != IndexOfKey(s, key, k) ==> r[j] == s[j]
    ensures IndexOfKey(s, key, k) == -1 ==> r == s
    ensures 0 <= IndexOfKey(s, key, k) ==> r[IndexOfKey(s, key, k)] == f(s[IndexOfKey(s, key, k)])
  {
    var i := IndexOfKey(s, key, k);
    if i == -1 then s else s[i := f(s[i])]
  }

  /** Filtering keeps the original order: it distributes over concatenation. */
  lemma {:induction false} FilterConcat<T(!new)>(a: seq<T>, b: seq<T>, p: T -> bool)
    ensures Filter(a + b, p) == Filter(a, p) + Filter(b, p)
  {
    if |a| == 0 {
      assert a + b == b;
    } else {
      assert (a + b)[0] == a[0];
      assert (a + b)[1..] == a[1..] + b;
      FilterConcat(a[1..], b, p);
    }
  }

  /** Filtering with a predicate every element meets changes nothing. */
  lemma {:induction false} FilterKeepsAll<T(!new)>(s: seq<T>, p: T -> bool)
    requires forall j :: 0 <= j < |s| ==> p(s[j])
    ensures Filter(s, p) == s
  {
    if |s| > 0 {
      FilterKeepsAll(s[1..], p);
    }
  }

  /** Filtering with a predicate no element meets leaves nothing. */
  lemma {:induction false} FilterNone<T(!new)>(s: seq<T>, p: T -> bool)
    requires forall j :: 0 <= j < |s| ==> !p(s[j])
    ensures Filter(s, p) == []
  {
    if |s| > 0 {
      FilterNone(s[1..], p);
    }
  }

  /** `a` is `b` with some elements left out, the rest in their order. */
  ghost predicate Subsequence<T>(a: seq<T>, b: seq<T>) {
    |a| == 0 || (|b| > 0 && ((a[0] == b[0] && Subsequence(a[1..], b[1..])) || Subsequence(a, b[1..])))
  }

  /** Filtering keeps the original order. */
  lemma {:induction false} FilterSubsequence<T(!new)>(s: seq<T>, p: T -> bool)
    ensures Subsequence(Filter(s, p), s)
  {
    if |s| > 0 {
      FilterSubsequence(s[1..], p);
    }
  }

  /** A record appended with a fresh key is the one `findIndex` returns for that key. */
  lemma FindAppended<T, K>(s: seq<T>, key: T -> K, x: T)
    requires forall j :: 0 <= j < |s| ==> key(s[j]) != key(x)
    ensures IndexOfKey(s + [x], key, key(x)) == |s|
  {
    assert (s + [x])[|s|] == x;
  }

  /** Removing the key of a freshly appended record undoes the append. */
  lemma RemoveAppended<T(!new), K>(s: seq<T>, key: T -> K, x: T)
    requires forall j :: 0 <= j < |s| ==> key(s[j]) != key(x)
    ensures RemoveKey(s + [x], key, key(x)) == s
  {
    var p := y => key(y) != key(x);
    FilterConcat(s, [x], p);
    FilterKeepsAll(s, p);
  }
}
