/** Sequence helpers standing for the JavaScript array built-ins the original
    uses (`map`, `filter`, order-preserving sub-lists) and facts about them. */
module Seqs {

  /** `arr.map(f)`. */
  function Map<T, U>(s: seq<T>, f: T -> U): (r: seq<U>)
    ensures |r| == |s|
    ensures forall i :: 0 <= i < |s| ==> r[i] == f(s[i])
  {
    if s == [] then [] else [f(s[0])] + Map(s[1..], f)
  }

  /** `arr.filter(p)`: keeps, in order, exactly the elements satisfying `p`. */
  function Filter<T(==)>(s: seq<T>, p: T -> bool): (r: seq<T>)
    ensures |r| <= |s|
    ensures forall i :: 0 <= i < |r| ==> r[i] in s && p(r[i])
    ensures forall i :: 0 <= i < |s| && p(s[i]) ==> s[i] in r
  {
    if s == [] then [] else (if p(s[0]) then [s[0]] else []) + Filter(s[1..], p)
  }

  /** No element occurs twice. */
  predicate NoDup<T(==)>(s: seq<T>) {
    forall i, j :: 0 <= i < j < |s| ==> s[i] != s[j]
  }

  /** `c` is an order-preserving sub-list of `s`. */
  predicate IsSubseq<T(==)>(c: seq<T>, s: seq<T>)
    decreases |s|
  {
    if c == [] then true
    else if s == [] then false
    else (c[0] == s[0] && IsSubseq(c[1..], s[1..])) || IsSubseq(c, s[1..])
  }

  /** `rel` holds of every ordered pair of positions. */
  predicate PairwiseBy<T>(s: seq<T>, rel: (T, T) -> bool) {
    forall i, j :: 0 <= i < j < |s| ==> rel(s[i], s[j])
  }

  lemma {:induction false} MapAppend<T, U>(a: seq<T>, b: seq<T>, f: T -> U)
    ensures Map(a + b, f) == Map(a, f) + Map(b, f)
  {
    if a != [] {
      assert (a + b)[1..] == a[1..] + b;
      MapAppend(a[1..], b, f);
    }
  }

  /** Mapping two permutations of each other gives permutations of each other. */
  lemma {:induction false} MapMultiset<T, U>(s: seq<T>, t: seq<T>, f: T -> U)
    requires multiset(s) == multiset(t)
    ensures multiset(Map(s, f)) == multiset(Map(t, f))
    decreases |s|
  {
    if s != [] {
      var x := s[0];
      assert x in multiset(t);
      var j :| 0 <= j < |t| && t[j] == x;
      var rest := t[..j] + t[j + 1..];
      RemoveOne(s, t, j);
      assert s == [x] + s[1..];
      assert t == t[..j] + [x] + t[j + 1..];
      MapMultiset(s[1..], rest, f);
      MapAppend(t[..j], t[j + 1..], f);
      MapAppend(t[..j] + [x], t[j + 1..], f);
      MapAppend(t[..j], [x], f);
    }
  }

  /** Removing the head of `s` and the same value at position `j` of `t`
      keeps two permutations permutations of each other. */
  lemma {:induction false} RemoveOne<T>(s: seq<T>, t: seq<T>, j: int)
    requires s != [] && 0 <= j < |t| && t[j] == s[0] && multiset(s) == multiset(t)
    ensures multiset(s[1..]) == multiset(t[..j] + t[j + 1..])
  {
    assert t == t[..j] + [t[j]] + t[j + 1..];
    assert s == [s[0]] + s[1..];
    assert multiset(t) == multiset(t[..j]) + multiset{t[j]} + multiset(t[j + 1..]);
    assert multiset(s) == multiset{s[0]} + multiset(s[1..]);
    assert multiset(s[1..]) == multiset(s) - multiset{s[0]};
    assert multiset(t[..j] + t[j + 1..]) == multiset(t[..j]) + multiset(t[j + 1..]);
    assert multiset(t[..j]) + multiset(t[j + 1..]) == multiset(t) - multiset{t[j]};
  }

  /** A duplicate-free sequence holds each value at most once, and conversely. */
  lemma {:induction false} NoDupMultiset<T>(s: seq<T>)
    ensures NoDup(s) <==> forall x :: multiset(s)[x] <= 1
  {
    if s != [] {
      NoDupMultiset(s[1..]);
      assert s == [s[0]] + s[1..];
      if NoDup(s) {
        assert s[0] !in s[1..];
      } else {
        var i, j :| 0 <= i < j < |s| && s[i] == s[j];
        if i == 0 {
          assert s[j] in s[1..];
          assert multiset(s)[s[0]] >= 2;
          assert !(forall x :: multiset(s)[x] <= 1);
        } else {
          assert !NoDup(s[1..]) by { assert s[1..][i - 1] == s[1..][j - 1]; }
          var y :| multiset(s[1..])[y] > 1;
          assert multiset(s)[y] > 1;
        }
      }
    }
  }

  /** Permutations of a duplicate-free sequence are duplicate-free. */
  lemma {:induction false} NoDupPermutation<T>(s: seq<T>, t: seq<T>)
    requires multiset(s) == multiset(t) && NoDup(t)
    ensures NoDup(s)
  {
    NoDupMultiset(s);
    NoDupMultiset(t);
  }

  /** Two values occurring at two positions have multiplicity at least two,
      and conversely. */
  lemma {:induction false} TwoPositions<T>(s: seq<T>, x: T)
    ensures multiset(s)[x] >= 2 <==> exists i, j :: 0 <= i < j < |s| && s[i] == x && s[j] == x
  {
    if s != [] {
      TwoPositions(s[1..], x);
      assert s == [s[0]] + s[1..];
      if multiset(s)[x] >= 2 {
        if s[0] == x {
          assert x in s[1..];
          var j :| 0 <= j < |s[1..]| && s[1..][j] == x;
          assert s[0] == x && s[j + 1] == x;
        } else {
          var i, j :| 0 <= i < j < |s[1..]| && s[1..][i] == x && s[1..][j] == x;
          assert s[i + 1] == x && s[j + 1] == x;
        }
      }
      if exists i, j :: 0 <= i < j < |s| && s[i] == x && s[j] == x {
        var i, j :| 0 <= i < j < |s| && s[i] == x && s[j] == x;
        if i == 0 {
          assert s[1..][j - 1] == x;
        } else {
          assert s[1..][i - 1] == x && s[1..][j - 1] == x;
        }
      }
    }
  }

  lemma {:induction false} NoDupConcat<T>(a: seq<T>, b: seq<T>)
    requires NoDup(a) && NoDup(b)
    requires forall x :: x in a ==> x !in b
    ensures NoDup(a + b)
  {
    forall i, j | 0 <= i < j < |a + b|
      ensures (a + b)[i] != (a + b)[j]
    {
      if i < |a| && j >= |a| {
        assert (a + b)[i] in a && (a + b)[j] in b;
      }
    }
  }

  lemma {:induction false} NoDupSlice<T>(s: seq<T>, lo: nat, hi: nat)
    requires NoDup(s) && lo <= hi <= |s|
    ensures NoDup(s[lo..hi])
  {
    forall i, j | 0 <= i < j < hi - lo
      ensures s[lo..hi][i] != s[lo..hi][j]
    {
      assert s[lo..hi][i] == s[lo + i] && s[lo..hi][j] == s[lo + j];
    }
  }

  /** Filtering keeps every pairwise relation of the input. */
  lemma {:induction false} FilterPairwise<T>(s: seq<T>, p: T -> bool, rel: (T, T) -> bool)
    requires PairwiseBy(s, rel)
    ensures PairwiseBy(Filter(s, p), rel)
  {
    if s != [] {
      assert PairwiseBy(s[1..], rel) by {
        forall i, j | 0 <= i < j < |s[1..]| ensures rel(s[1..][i], s[1..][j]) {
          assert s[1..][i] == s[i + 1] && s[1..][j] == s[j + 1];
        }
      }
      FilterPairwise(s[1..], p, rel);
      var t := Filter(s[1..], p);
      if p(s[0]) {
        forall j | 0 <= j < |t| ensures rel(s[0], t[j]) {
          assert t[j] in s[1..];
          var k :| 0 <= k < |s[1..]| && s[1..][k] == t[j];
          assert s[k + 1] == t[j];
        }
        forall i, j | 0 <= i < j < |[s[0]] + t| ensures rel(([s[0]] + t)[i], ([s[0]] + t)[j]) {
          if i > 0 {
            assert ([s[0]] + t)[i] == t[i - 1] && ([s[0]] + t)[j] == t[j - 1];
          }
        }
      } else {
        assert Filter(s, p) == t;
      }
    }
  }

  lemma {:induction false} SubseqLength<T>(c: seq<T>, s: seq<T>)
    requires IsSubseq(c, s)
    ensures |c| <= |s|
    decreases |s|
  {
    if c != [] {
      if c[0] == s[0] && IsSubseq(c[1..], s[1..]) {
        SubseqLength(c[1..], s[1..]);
      } else {
        SubseqLength(c, s[1..]);
      }
    }
  }

  /** A sub-list of a suffix is a sub-list of the whole. */
  lemma {:induction false} SubseqOfSuffix<T>(c: seq<T>, s: seq<T>, j: nat)
    requires j <= |s| && IsSubseq(c, s[j..])
    ensures IsSubseq(c, s)
    decreases j
  {
    if j > 0 {
      if c != [] {
        assert s[j - 1..][1..] == s[j..];
        assert IsSubseq(c, s[j - 1..]);
      } else {
        assert IsSubseq(c, s[j - 1..]);
      }
      SubseqOfSuffix(c, s, j - 1);
    }
  }

  /** A non-empty sub-list takes its head at some position `j` and its tail
      from after `j`. */
  lemma {:induction false} SubseqSplit<T>(c: seq<T>, s: seq<T>) returns (j: nat)
    requires c != [] && IsSubseq(c, s)
    ensures j < |s| && s[j] == c[0] && IsSubseq(c[1..], s[j + 1..])
    decreases |s|
  {
    if c[0] == s[0] && IsSubseq(c[1..], s[1..]) {
      j := 0;
    } else {
      var k := SubseqSplit(c, s[1..]);
      assert s[1..][k + 1..] == s[k + 2..];
      j := k + 1;
    }
  }

  lemma {:induction false} SubseqMembers<T>(c: seq<T>, s: seq<T>)
    requires IsSubseq(c, s)
    ensures forall x :: x in c ==> x in s
    decreases |s|
  {
    if c != [] {
      if c[0] == s[0] && IsSubseq(c[1..], s[1..]) {
        SubseqMembers(c[1..], s[1..]);
        assert c == [c[0]] + c[1..];
      } else {
        SubseqMembers(c, s[1..]);
      }
    }
  }

  /** A sub-list as long as the list is the list itself. */
  lemma {:induction false} SubseqFull<T>(c: seq<T>, s: seq<T>)
    requires IsSubseq(c, s) && |c| == |s|
    ensures c == s
    decreases |s|
  {
    if c != [] {
      if c[0] == s[0] && IsSubseq(c[1..], s[1..]) {
        SubseqFull(c[1..], s[1..]);
        assert c == [c[0]] + c[1..] && s == [s[0]] + s[1..];
      } else {
        SubseqLength(c, s[1..]);
      }
    }
  }

  lemma {:induction false} SubseqRefl<T>(s: seq<T>)
    ensures IsSubseq(s, s)
  {
    if s != [] {
      SubseqRefl(s[1..]);
    }
  }

  /** `filter` keeps order: its result is a sub-list of its input. */
  lemma {:induction false} FilterIsSubseq<T>(s: seq<T>, p: T -> bool)
    ensures IsSubseq(Filter(s, p), s)
  {
    if s != [] {
      FilterIsSubseq(s[1..], p);
      var t := Filter(s[1..], p);
      if p(s[0]) {
        assert Filter(s, p) == [s[0]] + t;
        assert ([s[0]] + t)[1..] == t;
      } else {
        assert Filter(s, p) == t;
        if t != [] {
          assert IsSubseq(t, s[1..]);
        }
      }
    }
  }

  /** `filter` of a duplicate-free sequence is duplicate-free. */
  lemma {:induction false} FilterNoDup<T>(s: seq<T>, p: T -> bool)
    requires NoDup(s)
    ensures NoDup(Filter(s, p))
  {
    FilterPairwise(s, p, (a: T, b: T) => a != b);
  }

  /** Filtering by a predicate and by its negation splits a sequence: the two
      results together are as long as the input. */
  lemma {:induction false} FilterSplit<T>(s: seq<T>, p: T -> bool, q: T -> bool)
    requires forall x :: q(x) == !p(x)
    ensures |Filter(s, p)| + |Filter(s, q)| == |s|
  {
    if s != [] {
      FilterSplit(s[1..], p, q);
    }
  }

  /** A duplicate-free sequence whose elements all occur in `b` is no longer than `b`. */
  lemma {:induction false} NoDupSubsetLength<T>(a: seq<T>, b: seq<T>)
    requires NoDup(a)
    requires forall i :: 0 <= i < |a| ==> a[i] in b
    ensures |a| <= |b|
  {
    if a != [] {
      var k :| 0 <= k < |b| && b[k] == a[0];
      var rest := b[..k] + b[k + 1..];
      forall i | 0 <= i < |a[1..]| ensures a[1..][i] in rest {
        assert a[1..][i] == a[i + 1] && a[i + 1] != a[0];
        var m :| 0 <= m < |b| && b[m] == a[i + 1];
        if m < k {
          assert rest[m] == b[m];
        } else {
          assert rest[m - 1] == b[m];
        }
      }
      NoDupSlice(a, 1, |a|);
      NoDupSubsetLength(a[1..], rest);
    }
  }

  /** A sequence is constant exactly when any permutation of it is. */
  lemma {:induction false} AllEqualPermutation<T>(a: seq<T>, b: seq<T>)
    requires multiset(a) == multiset(b) && |a| > 0
    ensures (forall i :: 0 <= i < |a| ==> a[i] == a[0]) <==> (forall i :: 0 <= i < |b| ==> b[i] == b[0])
  {
    assert |b| == |multiset(b)| == |a|;
    if forall i :: 0 <= i < |a| ==> a[i] == a[0] {
      forall i | 0 <= i < |b| ensures b[i] == a[0] {
        assert b[i] in multiset(a);
      }
    }
    if forall i :: 0 <= i < |b| ==> b[i] == b[0] {
      forall i | 0 <= i < |a| ensures a[i] == b[0] {
        assert a[i] in multiset(b);
      }
    }
  }

  /** Two duplicate-free sequences with the same elements, both ordered by
      the same asymmetric relation, are equal. */
  lemma {:induction false} PairwiseUnique<T>(s: seq<T>, t: seq<T>, rel: (T, T) -> bool)
    requires NoDup(s) && NoDup(t)
    requires forall x :: x in s <==> x in t
    requires PairwiseBy(s, rel) && PairwiseBy(t, rel)
    requires forall a, b :: rel(a, b) ==> !rel(b, a)
    ensures s == t
    decreases |s|
  {
    assert forall i :: 0 <= i < |s| ==> s[i] in t;
    assert forall i :: 0 <= i < |t| ==> t[i] in s;
    NoDupSubsetLength(s, t);
    NoDupSubsetLength(t, s);
    if s != [] {
      assert s[0] in t && t[0] in t;
      var k :| 0 <= k < |t| && t[k] == s[0];
      var j :| 0 <= j < |s| && s[j] == t[0];
      assert k == 0;
      assert forall x :: x in s[1..] <==> x in t[1..] by {
        forall x ensures x in s[1..] <==> x in t[1..] {
          if x in s[1..] {
            var i :| 1 <= i < |s| && s[i] == x;
            assert x != s[0];
            assert x in t;
            var k :| 0 <= k < |t| && t[k] == x;
            assert k != 0;
          }
          if x in t[1..] {
            var i :| 1 <= i < |t| && t[i] == x;
            assert x != t[0];
            assert x in s;
            var k :| 0 <= k < |s| && s[k] == x;
            assert k != 0;
          }
        }
      }
      NoDupSlice(s, 1, |s|);
      NoDupSlice(t, 1, |t|);
      assert PairwiseBy(s[1..], rel) by {
        forall i, j | 0 <= i < j < |s[1..]| ensures rel(s[1..][i], s[1..][j]) {
          assert s[1..][i] == s[i + 1] && s[1..][j] == s[j + 1];
        }
      }
      assert PairwiseBy(t[1..], rel) by {
        forall i, j | 0 <= i < j < |t[1..]| ensures rel(t[1..][i], t[1..][j]) {
          assert t[1..][i] == t[i + 1] && t[1..][j] == t[j + 1];
        }
      }
      PairwiseUnique(s[1..], t[1..], rel);
      assert s == [s[0]] + s[1..] && t == [t[0]] + t[1..];
    }
  }

  /** Two different values together occur at most as often as the sequence is long. */
  lemma {:induction false} MultPairBound<T>(s: seq<T>, a: T, b: T)
    requires a != b
    ensures multiset(s)[a] + multiset(s)[b] <= |s|
  {
    if s != [] {
      MultPairBound(s[1..], a, b);
      assert s == [s[0]] + s[1..];
    }
  }
}
