/** Generic sequence helpers shared by the store's tables and reports:
    first-match lookup, distinct keys, SQLite's id allocation, order-preserving
    sub-sequences and the "sort descending, keep the first n" of the top lists. */
module Seqs {

  datatype Option<T> = None | Some(value: T)

  /** Index of the first element equal to `x`, as a query's `.first()` finds it. */
  function IndexOf<T(==)>(s: seq<T>, x: T): (r: Option<nat>)
    ensures r.Some? ==> r.value < |s| && s[r.value] == x
    ensures r.Some? ==> forall j :: 0 <= j < r.value ==> s[j] != x
    ensures r.None? <==> x !in s
  {
    if s == [] then None
    else if s[0] == x then Some(0)
    else match IndexOf(s[1..], x)
      case None => None
      case Some(k) => Some(k + 1)
  }

  predicate Distinct<T(==)>(s: seq<T>) {
    forall i, j :: 0 <= i < j < |s| ==> s[i] != s[j]
  }

  lemma IndexOfDistinct<T>(s: seq<T>, m: nat)
    requires Distinct(s) && m < |s|
    ensures IndexOf(s, s[m]) == Some(m)
  {
    assert s[m] in s;
  }

  lemma {:induction false} IndexOfAppend<T>(s: seq<T>, y: T, x: T)
    ensures IndexOf(s + [y], x) ==
      if x in s then IndexOf(s, x) else if y == x then Some(|s|) else None
  {
    if s != [] && s[0] != x {
      assert (s + [y])[1..] == s[1..] + [y];
      IndexOfAppend(s[1..], y, x);
    }
  }

  lemma DistinctAppend<T>(s: seq<T>, y: T)
    requires Distinct(s) && y !in s
    ensures Distinct(s + [y])
  {
    var t := s + [y];
    forall i, j | 0 <= i < j < |t| ensures t[i] != t[j] {
      if j == |s| {
        assert t[i] == s[i];
      }
    }
  }

  /** Removing position `k` keeps every other element and adds none. */
  lemma RemoveMembers<T>(s: seq<T>, k: nat)
    requires k < |s|
    ensures forall x :: x in s[..k] + s[k + 1..] ==> x in s
    ensures forall x :: x in s && x != s[k] ==> x in s[..k] + s[k + 1..]
  {
    var t := s[..k] + s[k + 1..];
    forall x | x in s && x != s[k] ensures x in t {
      var m :| 0 <= m < |s| && s[m] == x;
      if m < k { assert t[m] == x; } else { assert t[m - 1] == x; }
    }
  }

  lemma DistinctRemove<T>(s: seq<T>, k: nat)
    requires Distinct(s) && k < |s|
    ensures Distinct(s[..k] + s[k + 1..])
    ensures s[k] !in s[..k] + s[k + 1..]
    ensures forall x :: x in s[..k] + s[k + 1..] <==> x in s && x != s[k]
  {
    var t := s[..k] + s[k + 1..];
    assert forall i :: 0 <= i < |t| ==> t[i] == (if i < k then s[i] else s[i + 1]);
    forall x | x in s && x != s[k] ensures x in t {
      var m :| 0 <= m < |s| && s[m] == x;
      if m < k { assert t[m] == x; } else { assert t[m - 1] == x; }
    }
  }

  /** The id a new row of an INTEGER PRIMARY KEY table receives from SQLite:
      one more than the largest id in use, or 1 in an empty table. */
  function NextId(ids: seq<nat>): (r: nat)
    ensures r >= 1
    ensures forall i :: 0 <= i < |ids| ==> ids[i] < r
    ensures ids != [] ==> r - 1 in ids
  {
    if ids == [] then 1
    else
      var rest := NextId(ids[..|ids| - 1]);
      var last := ids[|ids| - 1];
      assert ids == ids[..|ids| - 1] + [last];
      if last + 1 > rest then last + 1 else rest
  }

  /** `a` is `b` with some elements left out, the rest kept in order. */
  predicate IsSubsequence<T(==)>(a: seq<T>, b: seq<T>)
    decreases |b|
  {
    if a == [] then true
    else if b == [] then false
    else
      (a[|a| - 1] == b[|b| - 1] && IsSubsequence(a[..|a| - 1], b[..|b| - 1]))
      || IsSubsequence(a, b[..|b| - 1])
  }

  predicate NonIncreasing<T>(s: seq<T>, key: T -> int) {
    forall i, j :: 0 <= i < j < |s| ==> key(s[i]) >= key(s[j])
  }

  /** In a non-increasing sequence no later element outranks the first. */
  lemma HeadBound<T>(s: seq<T>, key: T -> int)
    requires NonIncreasing(s, key) && s != []
    ensures forall y :: y in s ==> key(y) <= key(s[0])
  {
    forall y | y in s ensures key(y) <= key(s[0]) {
      var j :| 0 <= j < |s| && s[j] == y;
      if j > 0 { assert key(s[0]) >= key(s[j]); }
    }
  }

  lemma ConsNonIncreasing<T>(h: T, t: seq<T>, key: T -> int)
    requires NonIncreasing(t, key)
    requires forall y :: y in t ==> key(y) <= key(h)
    ensures NonIncreasing([h] + t, key)
  {
    var r := [h] + t;
    forall i, j | 0 <= i < j < |r| ensures key(r[i]) >= key(r[j]) {
      assert r[j] == t[j - 1];
      if i > 0 { assert r[i] == t[i - 1]; } else { assert r[j] in t; }
    }
  }

  /** Inserts `x` after every element whose key is at least key(x). */
  function InsertDesc<T>(x: T, s: seq<T>, key: T -> int): (r: seq<T>)
    requires NonIncreasing(s, key)
    ensures NonIncreasing(r, key)
    ensures multiset(r) == multiset(s) + multiset{x}
    ensures |r| == |s| + 1
    ensures forall y :: y in r ==> y == x || y in s
  {
    if s == [] then [x]
    else
      HeadBound(s, key);
      if key(s[0]) >= key(x) then
        var tail := InsertDesc(x, s[1..], key);
        assert s == [s[0]] + s[1..];
        ConsNonIncreasing(s[0], tail, key);
        [s[0]] + tail
      else
        ConsNonIncreasing(x, s, key);
        [x] + s
  }

  /** A stable sort by descending key (insertion sort). */
  function SortDesc<T>(s: seq<T>, key: T -> int): (r: seq<T>)
    ensures NonIncreasing(r, key)
    ensures multiset(r) == multiset(s)
    ensures |r| == |s|
  {
    if s == [] then []
    else
      assert s == s[..|s| - 1] + [s[|s| - 1]];
      InsertDesc(s[|s| - 1], SortDesc(s[..|s| - 1], key), key)
  }

  function Min(a: int, b: int): int { if a < b then a else b }

  /** The first `n` rows by descending key: `sort_values(ascending=False).head(n)`. */
  function Top<T>(s: seq<T>, n: nat, key: T -> int): seq<T> {
    SortDesc(s, key)[..Min(n, |s|)]
  }

  /** What a top-n list promises: at most n rows, highest key first, drawn
      from the input, and no row left out outranks a row kept. */
  lemma TopSpec<T>(s: seq<T>, n: nat, key: T -> int)
    ensures |Top(s, n, key)| == Min(n, |s|) <= n
    ensures NonIncreasing(Top(s, n, key), key)
    ensures multiset(Top(s, n, key)) + multiset(SortDesc(s, key)[Min(n, |s|)..]) == multiset(s)
    ensures forall i, j :: 0 <= i < |Top(s, n, key)| && 0 <= j < |SortDesc(s, key)[Min(n, |s|)..]| ==>
      key(SortDesc(s, key)[Min(n, |s|)..][j]) <= key(Top(s, n, key)[i])
  {
    SplitSorted(SortDesc(s, key), Min(n, |s|), key);
  }

  /** Cutting a non-increasing sequence at `k`: both parts stay in order, they
      hold every element between them, and nothing after the cut outranks
      anything before it. */
  lemma SplitSorted<T>(t: seq<T>, k: nat, key: T -> int)
    requires NonIncreasing(t, key) && k <= |t|
    ensures NonIncreasing(t[..k], key)
    ensures multiset(t[..k]) + multiset(t[k..]) == multiset(t)
    ensures forall i, j :: 0 <= i < |t[..k]| && 0 <= j < |t[k..]| ==> key(t[k..][j]) <= key(t[..k][i])
  {
    assert t == t[..k] + t[k..];
    forall i, j | 0 <= i < |t[..k]| && 0 <= j < |t[k..]| ensures key(t[k..][j]) <= key(t[..k][i]) {
      assert t[k..][j] == t[k + j] && t[..k][i] == t[i];
    }
  }

  /** The rows `Top` leaves out are exactly the rows of the sorted tail, so
      none of them outranks a row that is kept. */
  lemma TopExcluded<T>(s: seq<T>, n: nat, key: T -> int)
    ensures |Top(s, n, key)| == Min(n, |s|)
    ensures NonIncreasing(Top(s, n, key), key)
    ensures multiset(Top(s, n, key)) <= multiset(s)
    ensures forall x, y :: x in Top(s, n, key) && y in multiset(s) - multiset(Top(s, n, key)) ==>
      key(y) <= key(x)
  {
    TopSpec(s, n, key);
    var top := Top(s, n, key);
    var rest := SortDesc(s, key)[Min(n, |s|)..];
    assert multiset(s) - multiset(top) == multiset(rest);
    forall x, y | x in top && y in multiset(s) - multiset(top) ensures key(y) <= key(x) {
      assert y in rest;
      var i :| 0 <= i < |top| && top[i] == x;
      var j :| 0 <= j < |rest| && rest[j] == y;
    }
  }
}
