/**
  The JavaScript array operations the web client's logic relies on:
  `Array.prototype.slice` with its negative and out-of-range indices, and
  `Array.prototype.sort` with a descending numeric comparator, which is
  stable.
*/
module Js {

  /** How `slice` reads an index: negative counts from the end, then clamped to [0, len]. */
  function SliceIndex(i: int, len: nat): (r: nat)
    ensures r <= len
    ensures i >= 0 ==> r == if i <= len then i else len
    ensures i < 0 ==> r == if len + i >= 0 then len + i else 0
  {
    if i < 0 then (if len + i >= 0 then len + i else 0)
    else if i <= len then i else len
  }

  /** `s.slice(start, end)`. */
  function Slice<T>(s: seq<T>, start: int, end: int): seq<T> {
    var a := SliceIndex(start, |s|);
    var b := SliceIndex(end, |s|);
    if a < b then s[a..b] else []
  }

  /** `s.slice(start)`. */
  function SliceFrom<T>(s: seq<T>, start: int): seq<T> {
    Slice(s, start, |s|)
  }

  /** `slice(0, limit)` keeps the first `limit` elements, and all of them when there are fewer. */
  lemma SliceTake<T>(s: seq<T>, limit: int)
    requires limit >= 0
    ensures Slice(s, 0, limit) == s[..if limit <= |s| then limit else |s|]
    ensures |Slice(s, 0, limit)| <= limit
  {
  }

  /** `slice(0, limit)` always yields a prefix. */
  lemma SlicePrefix<T>(s: seq<T>, limit: int)
    ensures Slice(s, 0, limit) <= s
  {
  }

  predicate SortedDesc<T>(s: seq<T>, key: T -> int) {
    forall i, j :: 0 <= i < j < |s| ==> key(s[i]) >= key(s[j])
  }

  /** Places x after every element whose key is at least its own. */
  function Insert<T>(x: T, s: seq<T>, key: T -> int): (r: seq<T>)
    ensures |r| == |s| + 1
    ensures multiset(r) == multiset(s) + multiset{x}
    decreases |s|
  {
    if s == [] then [x]
    else if key(s[0]) >= key(x) then
      assert s == [s[0]] + s[1..];
      [s[0]] + Insert(x, s[1..], key)
    else [x] + s
  }

  lemma {:induction false} InsertSorted<T>(x: T, s: seq<T>, key: T -> int)
    requires SortedDesc(s, key)
    ensures SortedDesc(Insert(x, s, key), key)
    decreases |s|
  {
    if s != [] && key(s[0]) >= key(x) {
      InsertSorted(x, s[1..], key);
      var r := Insert(x, s, key);
      var t := Insert(x, s[1..], key);
      assert r == [s[0]] + t;
      forall i | 0 <= i < |t| ensures key(s[0]) >= key(t[i]) {
        assert t[i] in multiset(t);
        assert t[i] in multiset(s[1..]) + multiset{x};
        if t[i] in multiset(s[1..]) {
          var k :| 0 <= k < |s[1..]| && s[1..][k] == t[i];
          assert s[1..][k] == s[k + 1];
        }
      }
    }
  }

  /**
    `s.sort((a, b) => key(b) - key(a))`: insertion of each element, left to
    right, after the equal keys already placed, as a stable sort does.
  */
  function SortDesc<T>(s: seq<T>, key: T -> int): (r: seq<T>)
    ensures |r| == |s|
    decreases |s|
  {
    if s == [] then [] else Insert(s[|s| - 1], SortDesc(s[..|s| - 1], key), key)
  }

  /** The sort orders by non-increasing key and is a permutation. */
  lemma SortDescCorrect<T>(s: seq<T>, key: T -> int)
    ensures SortedDesc(SortDesc(s, key), key)
    ensures multiset(SortDesc(s, key)) == multiset(s)
  {
    SortDescSorted(s, key);
    SortDescPermutes(s, key);
  }

  lemma {:induction false} SortDescSorted<T>(s: seq<T>, key: T -> int)
    ensures SortedDesc(SortDesc(s, key), key)
    decreases |s|
  {
    if s != [] {
      var n := |s| - 1;
      SortDescSorted(s[..n], key);
      InsertSorted(s[n], SortDesc(s[..n], key), key);
    }
  }

  lemma {:induction false} SortDescPermutes<T>(s: seq<T>, key: T -> int)
    ensures multiset(SortDesc(s, key)) == multiset(s)
    decreases |s|
  {
    if s != [] {
      var n := |s| - 1;
      SortDescPermutes(s[..n], key);
      assert s == s[..n] + [s[n]];
    }
  }

  /** An element of a permutation is an element of the original. */
  lemma PermutationMember<T>(a: seq<T>, b: seq<T>, i: nat)
    requires multiset(a) == multiset(b) && i < |a|
    ensures a[i] in b
  {
    assert a[i] in multiset(a);
  }

  /** An element before position `m` is in the prefix of length `m`. */
  lemma PrefixMember<T>(s: seq<T>, m: int, k: int)
    requires 0 <= k < m <= |s|
    ensures s[k] in s[..m]
  {
    assert s[..m][k] == s[k];
  }

  /**
    The first `n` of the sorted list: `min(n, |s|)` elements of `s`, all of
    them when `n` reaches `|s|`, and none of the elements left out has a
    higher key than one kept.
  */
  lemma TopOfSorted<T>(s: seq<T>, key: T -> int, n: int)
    ensures n >= 0 ==> |Slice(SortDesc(s, key), 0, n)| == if n <= |s| then n else |s|
    ensures forall i :: 0 <= i < |Slice(SortDesc(s, key), 0, n)| ==> Slice(SortDesc(s, key), 0, n)[i] in s
    ensures n >= |s| ==> forall x :: x in s ==> x in Slice(SortDesc(s, key), 0, n)
    ensures forall x, i :: x in s && x !in Slice(SortDesc(s, key), 0, n) && 0 <= i < |Slice(SortDesc(s, key), 0, n)| ==>
      key(x) <= key(Slice(SortDesc(s, key), 0, n)[i])
  {
    var sorted := SortDesc(s, key);
    SortDescCorrect(s, key);
    var top := Slice(sorted, 0, n);
    SlicePrefix(sorted, n);
    if n >= 0 { SliceTake(sorted, n); }
    forall i | 0 <= i < |top| ensures top[i] in s {
      assert top[i] == sorted[i];
      PermutationMember(sorted, s, i);
    }
    forall x | x in s ensures x in sorted {
      var j :| 0 <= j < |s| && s[j] == x;
      PermutationMember(s, sorted, j);
    }
    if n >= |s| {
      assert top == sorted;
    }
    forall x, i | x in s && x !in top && 0 <= i < |top| ensures key(x) <= key(top[i]) {
      var k :| 0 <= k < |sorted| && sorted[k] == x;
      if k < |top| {
        PrefixMember(sorted, |top|, k);
        assert false;
      }
      assert top[i] == sorted[i];
    }
  }
}
