/** JavaScript's `Array.prototype.sort` with a comparator `(a, b) => key(b) - key(a)`:
    a stable sort into descending key order. Any stable sort gives the same
    result; insertion sort is the one written here. */
module StableSort {
  import opened Seqs

  /** Keys never increase from left to right. */
  predicate SortedDescBy<T>(s: seq<T>, key: T -> int) {
    forall i, j :: 0 <= i < j < |s| ==> key(s[i]) >= key(s[j])
  }

  /** Keys never increase, and equal keys appear in `before` order. */
  predicate LexSortedBy<T>(s: seq<T>, key: T -> int, before: (T, T) -> bool) {
    forall i, j :: 0 <= i < j < |s| ==>
      key(s[i]) > key(s[j]) || (key(s[i]) == key(s[j]) && before(s[i], s[j]))
  }

  /** Places `x` after every element whose key is at least `key(x)`. */
  function Insert<T>(t: seq<T>, x: T, key: T -> int): (r: seq<T>)
    ensures multiset(r) == multiset(t) + multiset{x}
  {
    if t == [] then [x]
    else if key(t[0]) < key(x) then [x] + t
    else
      assert t == [t[0]] + t[1..];
      [t[0]] + Insert(t[1..], x, key)
  }

  /** Every element of `Insert(t, x, key)` is `x` or an element of `t`. */
  lemma {:induction false} InsertMembers<T>(t: seq<T>, x: T, key: T -> int)
    ensures forall y :: y in Insert(t, x, key) ==> y == x || y in t
  {
    var r := Insert(t, x, key);
    forall y | y in r ensures y == x || y in t {
      assert y in multiset(r);
    }
  }

  /** The tail of a sequence in (key, `before`) order is in that order. */
  lemma {:induction false} LexSortedTail<T>(t: seq<T>, key: T -> int, before: (T, T) -> bool)
    requires t != [] && LexSortedBy(t, key, before)
    ensures LexSortedBy(t[1..], key, before)
    ensures forall y :: y in t[1..] ==> key(t[0]) > key(y) || (key(t[0]) == key(y) && before(t[0], y))
  {
    var u := t[1..];
    forall i, j | 0 <= i < j < |u|
      ensures key(u[i]) > key(u[j]) || (key(u[i]) == key(u[j]) && before(u[i], u[j]))
    {
      assert u[i] == t[i + 1] && u[j] == t[j + 1];
    }
    forall y | y in u ensures key(t[0]) > key(y) || (key(t[0]) == key(y) && before(t[0], y)) {
      var k :| 0 <= k < |u| && u[k] == y;
      assert t[k + 1] == y;
    }
  }

  /** Prepending an element related to everything keeps (key, `before`) order. */
  lemma {:induction false} ConsLexSorted<T>(y: T, u: seq<T>, key: T -> int, before: (T, T) -> bool)
    requires LexSortedBy(u, key, before)
    requires forall z :: z in u ==> key(y) > key(z) || (key(y) == key(z) && before(y, z))
    ensures LexSortedBy([y] + u, key, before)
  {
    var r := [y] + u;
    forall i, j | 0 <= i < j < |r|
      ensures key(r[i]) > key(r[j]) || (key(r[i]) == key(r[j]) && before(r[i], r[j]))
    {
      if i == 0 {
        assert r[j] == u[j - 1];
      } else {
        assert r[i] == u[i - 1] && r[j] == u[j - 1];
      }
    }
  }

  lemma {:induction false} InsertSorted<T>(t: seq<T>, x: T, key: T -> int)
    requires SortedDescBy(t, key)
    ensures SortedDescBy(Insert(t, x, key), key)
  {
    var always := (a: T, b: T) => true;
    assert LexSortedBy(t, key, always);
    InsertLex(t, x, key, always);
  }

  /** The stable descending sort. */
  function SortDescBy<T>(s: seq<T>, key: T -> int): (r: seq<T>)
    ensures multiset(r) == multiset(s)
    ensures |r| == |s|
    ensures SortedDescBy(r, key)
  {
    if s == [] then []
    else
      var sorted := SortDescBy(s[..|s| - 1], key);
      var r := Insert(sorted, s[|s| - 1], key);
      InsertSorted(sorted, s[|s| - 1], key);
      assert s == s[..|s| - 1] + [s[|s| - 1]];
      assert multiset(s) == multiset(s[..|s| - 1]) + multiset{s[|s| - 1]};
      assert |r| == |multiset(r)| == |multiset(s)|;
      r
  }

  /** Inserting `x`, which every element of `t` precedes, keeps `t` in
      (key descending, `before`) order: equal keys stay in arrival order. */
  lemma {:induction false} InsertLex<T>(t: seq<T>, x: T, key: T -> int, before: (T, T) -> bool)
    requires LexSortedBy(t, key, before)
    requires forall y :: y in t ==> before(y, x)
    ensures LexSortedBy(Insert(t, x, key), key, before)
  {
    if t == [] {
    } else if key(t[0]) < key(x) {
      forall z | z in t ensures key(x) > key(z) {
        var k :| 0 <= k < |t| && t[k] == z;
        assert k == 0 || key(t[0]) >= key(t[k]);
      }
      ConsLexSorted(x, t, key, before);
    } else {
      LexSortedTail(t, key, before);
      InsertLex(t[1..], x, key, before);
      InsertMembers(t[1..], x, key);
      ConsLexSorted(t[0], Insert(t[1..], x, key), key, before);
    }
  }

  /** Stability: sorting an input already in `before` order yields
      (key descending, then `before`) order. */
  lemma {:induction false} SortLex<T>(s: seq<T>, key: T -> int, before: (T, T) -> bool)
    requires PairwiseBy(s, before)
    ensures LexSortedBy(SortDescBy(s, key), key, before)
  {
    if s != [] {
      var init := s[..|s| - 1];
      var x := s[|s| - 1];
      assert PairwiseBy(init, before) by {
        forall i, j | 0 <= i < j < |init| ensures before(init[i], init[j]) {
          assert init[i] == s[i] && init[j] == s[j];
        }
      }
      SortLex(init, key, before);
      var sorted := SortDescBy(init, key);
      forall y | y in sorted ensures before(y, x) {
        assert y in multiset(sorted);
        assert y in init;
        var k :| 0 <= k < |init| && init[k] == y;
        assert s[k] == y;
      }
      InsertLex(sorted, x, key, before);
    }
  }

  /** An input already in descending key order is left unchanged. */
  lemma {:induction false} SortSortedIdentity<T>(s: seq<T>, key: T -> int)
    requires SortedDescBy(s, key)
    ensures SortDescBy(s, key) == s
  {
    if s != [] {
      var init := s[..|s| - 1];
      var x := s[|s| - 1];
      assert SortedDescBy(init, key) by {
        forall i, j | 0 <= i < j < |init| ensures key(init[i]) >= key(init[j]) {
          assert init[i] == s[i] && init[j] == s[j];
        }
      }
      SortSortedIdentity(init, key);
      forall i | 0 <= i < |init| ensures key(init[i]) >= key(x) {
        assert init[i] == s[i];
      }
      InsertAtEnd(init, x, key);
      assert init + [x] == s;
    }
  }

  lemma {:induction false} InsertAtEnd<T>(t: seq<T>, x: T, key: T -> int)
    requires forall i :: 0 <= i < |t| ==> key(t[i]) >= key(x)
    ensures Insert(t, x, key) == t + [x]
  {
    if t != [] {
      InsertAtEnd(t[1..], x, key);
      assert t == [t[0]] + t[1..];
    }
  }

  /** Two descending sequences with the same elements are equal: the sorted
      order of a multiset of numbers is unique. */
  lemma {:induction false} SortedDescUnique(s: seq<int>, t: seq<int>)
    requires SortedDescBy(s, Id) && SortedDescBy(t, Id)
    requires multiset(s) == multiset(t)
    ensures s == t
    decreases |s|
  {
    assert |s| == |multiset(s)| == |t|;
    if s != [] {
      assert s[0] in multiset(t) && t[0] in multiset(s);
      var i :| 0 <= i < |t| && t[i] == s[0];
      var j :| 0 <= j < |s| && s[j] == t[0];
      assert Id(t[0]) >= Id(t[i]) && Id(s[0]) >= Id(s[j]);
      assert s[0] == t[0];
      SameHeadTails(s, t);
      SortedTail(s);
      SortedTail(t);
      SortedDescUnique(s[1..], t[1..]);
      assert s == [s[0]] + s[1..] && t == [t[0]] + t[1..];
    }
  }

  /** Two permutations of each other with the same head have permuted tails. */
  lemma {:induction false} SameHeadTails(s: seq<int>, t: seq<int>)
    requires s != [] && t != [] && s[0] == t[0] && multiset(s) == multiset(t)
    ensures multiset(s[1..]) == multiset(t[1..])
  {
    assert s == [s[0]] + s[1..] && t == [t[0]] + t[1..];
    assert multiset(s) == multiset{s[0]} + multiset(s[1..]);
    assert multiset(t) == multiset{t[0]} + multiset(t[1..]);
    assert multiset(s[1..]) == multiset(s) - multiset{s[0]};
    assert multiset(t[1..]) == multiset(t) - multiset{t[0]};
  }

  /** The tail of a descending sequence is descending. */
  lemma {:induction false} SortedTail(s: seq<int>)
    requires s != [] && SortedDescBy(s, Id)
    ensures SortedDescBy(s[1..], Id)
  {
    forall a, b | 0 <= a < b < |s[1..]| ensures Id(s[1..][a]) >= Id(s[1..][b]) {
      assert s[1..][a] == s[a + 1] && s[1..][b] == s[b + 1];
    }
  }

  /** The identity key, for sorting numbers themselves. */
  function Id(x: int): int { x }
}
