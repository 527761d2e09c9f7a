/** Sequence operations the TypeScript code takes from `Array.prototype`:
    `filter`, `slice(0, n)`, a stable `sort` by a numeric key (descending), and
    the order-keeping relation between a sequence and what is filtered out of it. */
module Seqs {

  /** `s.filter(p)`. */
  function Filter<T>(s: seq<T>, p: T -> bool): (r: seq<T>)
    ensures |r| <= |s|
    ensures forall x :: x in r ==> x in s && p(x)
    ensures forall x :: x in s && p(x) ==> x in r
  {
    if s == [] then [] else (if p(s[0]) then [s[0]] else []) + Filter(s[1..], p)
  }

  lemma {:induction false} FilterConcat<T>(a: seq<T>, b: seq<T>, p: T -> bool)
    ensures Filter(a + b, p) == Filter(a, p) + Filter(b, p)
  {
    if a == [] {
      assert a + b == b;
    } else {
      assert (a + b)[1..] == a[1..] + b;
      FilterConcat(a[1..], b, p);
    }
  }

  /** Filtering twice is filtering once by the conjunction. */
  lemma {:induction false} FilterFilter<T>(s: seq<T>, p: T -> bool, q: T -> bool)
    ensures Filter(Filter(s, p), q) == Filter(s, x => p(x) && q(x))
  {
    if s != [] {
      FilterFilter(s[1..], p, q);
      var head := if p(s[0]) then [s[0]] else [];
      FilterConcat(head, Filter(s[1..], p), q);
    }
  }

  /** `s.slice(0, n)` for a non-negative `n`. */
  function Take<T>(s: seq<T>, n: nat): (r: seq<T>)
    ensures r <= s
    ensures |r| == if |s| <= n then |s| else n
  {
    if |s| <= n then s else s[..n]
  }

  /** `r` is `s` with some elements left out and the rest in their order. */
  predicate IsSubseq<T(==)>(r: seq<T>, s: seq<T>)
    decreases |s|
  {
    if r == [] then true
    else if s == [] then false
    else if r[0] == s[0] then IsSubseq(r[1..], s[1..])
    else IsSubseq(r, s[1..])
  }

  lemma {:induction false} FilterIsSubseq<T>(s: seq<T>, p: T -> bool)
    ensures IsSubseq(Filter(s, p), s)
  {
    if s != [] {
      FilterIsSubseq(s[1..], p);
      if p(s[0]) {
        assert Filter(s, p) == [s[0]] + Filter(s[1..], p);
        assert Filter(s, p)[1..] == Filter(s[1..], p);
      } else {
        assert Filter(s, p) == Filter(s[1..], p);
        SubseqOfTail(Filter(s[1..], p), s);
      }
    }
  }

  /** A subsequence of `s[1..]` is a subsequence of `s`. */
  lemma {:induction false} SubseqOfTail<T>(r: seq<T>, s: seq<T>)
    requires s != [] && IsSubseq(r, s[1..])
    ensures IsSubseq(r, s)
    decreases |s|, 1
  {
    if r != [] && r[0] == s[0] {
      // s[1..] holds r, so it holds r[1..]
      SubseqDropHead(r, s[1..]);
    }
  }

  lemma {:induction false} SubseqDropHead<T>(r: seq<T>, s: seq<T>)
    requires r != [] && IsSubseq(r, s)
    ensures IsSubseq(r[1..], s)
    decreases |s|, 2
  {
    if r[0] == s[0] {
      if r[1..] != [] {
        SubseqOfTail(r[1..], s);
      }
    } else {
      SubseqDropHead(r, s[1..]);
      SubseqOfTail(r[1..], s);
    }
  }

  lemma {:induction false} PrefixIsSubseq<T>(r: seq<T>, s: seq<T>)
    requires r <= s
    ensures IsSubseq(r, s)
    decreases |s|
  {
    if r != [] {
      assert r[0] == s[0];
      assert r[1..] <= s[1..];
      PrefixIsSubseq(r[1..], s[1..]);
    }
  }

  lemma {:induction false} SubseqTrans<T>(a: seq<T>, b: seq<T>, c: seq<T>)
    requires IsSubseq(a, b) && IsSubseq(b, c)
    ensures IsSubseq(a, c)
    decreases |c|
  {
    if a != [] {
      assert b != [] && c != [];
      if b[0] == c[0] {
        if a[0] == b[0] {
          SubseqTrans(a[1..], b[1..], c[1..]);
        } else {
          SubseqTrans(a, b[1..], c[1..]);
        }
      } else {
        SubseqTrans(a, b, c[1..]);
      }
      SubseqOfTailIfNeeded(a, c);
    }
  }

  // In every branch of SubseqTrans the recursive call yields IsSubseq on c or c[1..];
  // this lemma closes the remaining step in both cases.
  lemma {:induction false} SubseqOfTailIfNeeded<T>(a: seq<T>, c: seq<T>)
    requires c != [] && (IsSubseq(a, c) || IsSubseq(a, c[1..]) || (a != [] && a[0] == c[0] && IsSubseq(a[1..], c[1..])))
    ensures IsSubseq(a, c)
  {
    if !IsSubseq(a, c) && IsSubseq(a, c[1..]) {
      SubseqOfTail(a, c);
    }
  }

  /** Every element of a subsequence is an element of the sequence. */
  lemma {:induction false} SubseqMembers<T>(r: seq<T>, s: seq<T>, x: T)
    requires IsSubseq(r, s) && x in r
    ensures x in s
    decreases |s|
  {
    if r[0] == s[0] {
      if x != r[0] {
        SubseqMembers(r[1..], s[1..], x);
      }
    } else {
      SubseqMembers(r, s[1..], x);
    }
  }

  /** Newest first: `key` never increases along `s`. */
  ghost predicate SortedDesc<T>(s: seq<T>, key: T -> int) {
    forall i, j :: 0 <= i < j < |s| ==> key(s[i]) >= key(s[j])
  }

  /** A subsequence of a descending sequence is descending. */
  lemma {:induction false} SubseqKeepsSortedDesc<T>(r: seq<T>, s: seq<T>, key: T -> int)
    requires IsSubseq(r, s) && SortedDesc(s, key)
    ensures SortedDesc(r, key)
    decreases |s|
  {
    if r != [] {
      if r[0] == s[0] {
        SubseqKeepsSortedDesc(r[1..], s[1..], key);
        forall j | 0 < j < |r| ensures key(r[0]) >= key(r[j]) {
          assert r[j] in r[1..];
          SubseqMembers(r[1..], s[1..], r[j]);
          var k :| 0 <= k < |s[1..]| && s[1..][k] == r[j];
          assert s[k + 1] == r[j];
        }
        forall i, j | 0 <= i < j < |r| ensures key(r[i]) >= key(r[j]) {
          if i > 0 {
            assert r[1..][i - 1] == r[i] && r[1..][j - 1] == r[j];
          }
        }
      } else {
        SubseqKeepsSortedDesc(r, s[1..], key);
      }
    }
  }

  /** Places `x` before the first element whose key is not larger, so that `x`
      stays ahead of the elements with an equal key (a stable insertion). */
  function InsertDesc<T>(x: T, s: seq<T>, key: T -> int): (r: seq<T>)
    ensures |r| == |s| + 1
    ensures multiset(r) == multiset(s) + multiset{x}
    ensures r[0] == x || (s != [] && r[0] == s[0])
    ensures SortedDesc(s, key) ==> SortedDesc(r, key)
  {
    if s == [] then [x]
    else if key(s[0]) <= key(x) then [x] + s
    else
      var rest := InsertDesc(x, s[1..], key);
      assert s == [s[0]] + s[1..];
      InsertDescBelowHead(x, s, rest, key);
      [s[0]] + rest
  }

  /** The head of a descending `s` is at least every element of `x` inserted into
      its tail. */
  lemma InsertDescBelowHead<T>(x: T, s: seq<T>, rest: seq<T>, key: T -> int)
    requires s != [] && key(s[0]) > key(x)
    requires multiset(rest) == multiset(s[1..]) + multiset{x}
    requires SortedDesc(s[1..], key) ==> SortedDesc(rest, key)
    ensures SortedDesc(s, key) ==> SortedDesc([s[0]] + rest, key)
  {
    if SortedDesc(s, key) {
      forall j | 0 <= j < |rest| ensures key(s[0]) >= key(rest[j]) {
        assert rest[j] in multiset(rest);
        if rest[j] != x {
          assert rest[j] in multiset(s[1..]);
          var k :| 0 <= k < |s[1..]| && s[1..][k] == rest[j];
          assert s[k + 1] == rest[j];
        }
      }
      var r := [s[0]] + rest;
      forall i, j | 0 <= i < j < |r| ensures key(r[i]) >= key(r[j]) {
        if i > 0 {
          assert r[i] == rest[i - 1] && r[j] == rest[j - 1];
        } else {
          assert r[j] == rest[j - 1];
        }
      }
    }
  }

  /** `s.sort((a, b) => key(b) - key(a))`: JavaScript's sort is stable, and so
      is this insertion sort. */
  function SortDesc<T>(s: seq<T>, key: T -> int): (r: seq<T>)
    ensures multiset(r) == multiset(s)
    ensures |r| == |s|
    ensures SortedDesc(r, key)
  {
    if s == [] then []
    else
      assert s == [s[0]] + s[1..];
      InsertDesc(s[0], SortDesc(s[1..], key), key)
  }

  /** Holds of the elements whose key is `k`. */
  function KeyIs<T>(key: T -> int, k: int): T -> bool {
    x => key(x) == k
  }

  /** The sort is stable: the elements of any one key come out in their input order. */
  lemma {:induction false} SortDescStable<T>(s: seq<T>, key: T -> int, k: int)
    ensures Filter(SortDesc(s, key), KeyIs(key, k)) == Filter(s, KeyIs(key, k))
  {
    if s != [] {
      SortDescStable(s[1..], key, k);
      InsertDescStable(s[0], SortDesc(s[1..], key), key, k);
      FilterCons(s[0], SortDesc(s[1..], key), KeyIs(key, k));
      FilterCons(s[0], s[1..], KeyIs(key, k));
      assert [s[0]] + s[1..] == s;
    }
  }

  /** The inserted element lands ahead of every element of its own key. */
  lemma {:induction false} InsertDescStable<T>(x: T, s: seq<T>, key: T -> int, k: int)
    ensures Filter(InsertDesc(x, s, key), KeyIs(key, k)) == Filter([x] + s, KeyIs(key, k))
  {
    if s != [] && key(s[0]) > key(x) {
      var rest := InsertDesc(x, s[1..], key);
      assert InsertDesc(x, s, key) == [s[0]] + rest;
      assert s == [s[0]] + s[1..];
      InsertDescStable(x, s[1..], key, k);
      PassOver(x, s[0], s[1..], rest, KeyIs(key, k));
    }
  }

  /** Moving `x` past an element `y` that `p` cannot hold of together with `x` leaves
      what `p` keeps unchanged. */
  lemma PassOver<T>(x: T, y: T, t: seq<T>, rest: seq<T>, p: T -> bool)
    requires !(p(x) && p(y))
    requires Filter(rest, p) == Filter([x] + t, p)
    ensures Filter([y] + rest, p) == Filter([x] + ([y] + t), p)
  {
    FilterCons(y, rest, p);
    FilterCons(x, t, p);
    FilterCons(x, [y] + t, p);
    FilterCons(y, t, p);
  }

  lemma FilterCons<T>(x: T, s: seq<T>, p: T -> bool)
    ensures Filter([x] + s, p) == (if p(x) then [x] else []) + Filter(s, p)
  {
    assert ([x] + s)[1..] == s;
  }

  /** The first `n` elements of the descending sort are the `n` largest: every
      element of `s` is among them or has a key no larger than any of theirs. */
  lemma TopOfSortDesc<T>(s: seq<T>, key: T -> int, n: nat, x: T)
    requires x in s
    ensures var top := Take(SortDesc(s, key), n);
      x in top || forall y :: y in top ==> key(y) >= key(x)
  {
    var sorted := SortDesc(s, key);
    var top := Take(sorted, n);
    assert x in multiset(sorted);
    var i :| 0 <= i < |sorted| && sorted[i] == x;
    if i < |top| {
      assert top[i] == x;
    } else {
      forall y | y in top ensures key(y) >= key(x) {
        var j :| 0 <= j < |top| && top[j] == y;
        assert sorted[j] == y;
      }
    }
  }

  /** `s.map(f)`, built from the front as a `for … of` loop visits it. */
  function Map<T, K>(s: seq<T>, f: T -> K): (r: seq<K>)
    ensures |r| == |s|
    ensures forall i :: 0 <= i < |s| ==> r[i] == f(s[i])
  {
    if s == [] then [] else Map(s[..|s| - 1], f) + [f(s[|s| - 1])]
  }

  lemma MapSnoc<T, K>(s: seq<T>, x: T, f: T -> K)
    ensures Map(s + [x], f) == Map(s, f) + [f(x)]
  {
    assert (s + [x])[..|s|] == s;
  }

  /** A key occurs in the mapped sequence as often as the elements it is the key of:
      counting keys is filtering by key. */
  lemma {:induction false} MapCount<T, K>(s: seq<T>, f: T -> K, k: K, p: T -> bool)
    requires forall x :: p(x) == (f(x) == k)
    ensures multiset(Map(s, f))[k] == |Filter(s, p)|
  {
    if s != [] {
      var init := s[..|s| - 1];
      var x := s[|s| - 1];
      assert s == init + [x];
      MapCount(init, f, k, p);
      FilterConcat(init, [x], p);
      assert Filter([x], p) == (if p(x) then [x] else []);
    }
  }

  /** `[...new Set(s)]`: each element once, in the order of its first occurrence. */
  function Distinct<T(==)>(s: seq<T>): (r: seq<T>)
    ensures forall i :: 0 <= i < |r| ==> r[i] in s
    ensures forall i :: 0 <= i < |s| ==> s[i] in r
    ensures forall i, j :: 0 <= i < j < |r| ==> r[i] != r[j]
  {
    if s == [] then []
    else
      var d := Distinct(s[..|s| - 1]);
      var x := s[|s| - 1];
      assert s == s[..|s| - 1] + [x];
      if x in d then d else d + [x]
  }
}
