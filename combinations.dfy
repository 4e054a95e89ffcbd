/** `getCombinations`: every k-element, order-preserving sub-list of an array. */
module Combinations {
  import opened Seqs

  /** `tails.map(tail => head.concat(tail))`. */
  function Prefixed<T>(head: T, tails: seq<seq<T>>): (r: seq<seq<T>>)
    ensures |r| == |tails|
    ensures forall i :: 0 <= i < |r| ==> r[i] == [head] + tails[i]
  {
    seq(|tails|, i requires 0 <= i < |tails| => [head] + tails[i])
  }

  /** `arr.map(item => [item])`. */
  function Singletons<T>(arr: seq<T>): (r: seq<seq<T>>)
    ensures |r| == |arr|
    ensures forall i :: 0 <= i < |r| ==> r[i] == [arr[i]]
  {
    seq(|arr|, i requires 0 <= i < |arr| => [arr[i]])
  }

  /** What `getCombinations(arr, k)` returns: nothing for `k <= 0` or
      `k > |arr|`, the array itself for `k == |arr|`, singletons for `k == 1`,
      and otherwise, for each head position `i <= |arr| - k`, the head
      followed by every (k-1)-combination of what comes after it. */
  function Combos<T>(arr: seq<T>, k: int): (r: seq<seq<T>>)
    ensures k <= 0 || k > |arr| ==> r == []
    decreases |arr|, 1
  {
    if k > |arr| || k <= 0 then []
    else if k == |arr| then [arr]
    else if k == 1 then Singletons(arr)
    else HeadsBelow(arr, k, |arr| - k + 1)
  }

  /** The combinations the loop has pushed after the head positions `0 .. i-1`. */
  function HeadsBelow<T>(arr: seq<T>, k: int, i: int): seq<seq<T>>
    requires 0 <= i <= |arr|
    decreases |arr|, 0, i
  {
    if i == 0 then []
    else HeadsBelow(arr, k, i - 1) + Prefixed(arr[i - 1], Combos(arr[i..], k - 1))
  }

  /** The loop-and-recursion implementation of `getCombinations`. */
  method GetCombinations<T>(arr: seq<T>, k: int) returns (combinations: seq<seq<T>>)
    ensures combinations == Combos(arr, k)
    decreases |arr|
  {
    if k > |arr| || k <= 0 {
      return [];
    }
    if k == |arr| {
      return [arr];
    }
    if k == 1 {
      return Singletons(arr);
    }
    combinations := [];
    var i := 0;
    while i < |arr| - k + 1
      invariant 0 <= i <= |arr| - k + 1
      invariant combinations == HeadsBelow(arr, k, i)
    {
      var head := arr[i];
      var tailCombinations := GetCombinations(arr[i + 1..], k - 1);
      var j := 0;
      while j < |tailCombinations|
        invariant 0 <= j <= |tailCombinations|
        invariant combinations == HeadsBelow(arr, k, i) + Prefixed(head, tailCombinations[..j])
      {
        assert Prefixed(head, tailCombinations[..j + 1])
          == Prefixed(head, tailCombinations[..j]) + [[head] + tailCombinations[j]];
        combinations := combinations + [[head] + tailCombinations[j]];
        j := j + 1;
      }
      assert tailCombinations[..j] == tailCombinations;
      i := i + 1;
    }
  }

  /** The binomial coefficient C(n, k), by Pascal's rule. */
  function Binom(n: nat, k: nat): nat {
    if k == 0 then 1 else if n == 0 then 0 else Binom(n - 1, k - 1) + Binom(n - 1, k)
  }

  lemma {:induction false} BinomAbove(n: nat, k: nat)
    requires k > n
    ensures Binom(n, k) == 0
  {
    if n > 0 {
      BinomAbove(n - 1, k - 1);
      BinomAbove(n - 1, k);
    }
  }

  lemma {:induction false} BinomDiagonal(n: nat)
    ensures Binom(n, n) == 1
  {
    if n > 0 {
      BinomDiagonal(n - 1);
      BinomAbove(n - 1, n);
    }
  }

  lemma {:induction false} BinomOne(n: nat)
    ensures Binom(n, 1) == n
  {
    if n > 0 {
      BinomOne(n - 1);
    }
  }

  /** `getCombinations(arr, k)` returns C(|arr|, k) lists for `1 <= k`. */
  lemma {:induction false} CombosCount<T>(arr: seq<T>, k: int)
    requires 1 <= k
    ensures |Combos(arr, k)| == Binom(|arr|, k)
    decreases |arr|, 1
  {
    var n := |arr|;
    if k > n {
      BinomAbove(n, k);
    } else if k == n {
      BinomDiagonal(n);
    } else if k == 1 {
      BinomOne(n);
    } else {
      HeadsBelowCount(arr, k, n - k + 1);
      BinomAbove(k - 1, k);
    }
  }

  /** After head positions `0 .. i-1` the loop has pushed
      C(n, k) - C(n - i, k) lists (the hockey-stick identity). */
  lemma {:induction false} HeadsBelowCount<T>(arr: seq<T>, k: int, i: int)
    requires 2 <= k < |arr| && 0 <= i <= |arr| - k + 1
    ensures |HeadsBelow(arr, k, i)| == Binom(|arr|, k) - Binom(|arr| - i, k)
    decreases |arr|, 0, i
  {
    if i > 0 {
      HeadsBelowCount(arr, k, i - 1);
      CombosCount(arr[i..], k - 1);
      assert Binom(|arr| - i + 1, k) == Binom(|arr| - i, k - 1) + Binom(|arr| - i, k);
    }
  }

  /** Every list returned has length `k` and is an order-preserving sub-list. */
  lemma {:induction false} CombosSound<T>(arr: seq<T>, k: int)
    ensures forall c :: c in Combos(arr, k) ==> |c| == k && IsSubseq(c, arr)
    decreases |arr|, 1
  {
    var n := |arr|;
    if k > n || k <= 0 {
    } else if k == n {
      SubseqRefl(arr);
    } else if k == 1 {
      forall c | c in Combos(arr, k) ensures |c| == k && IsSubseq(c, arr) {
        var i :| 0 <= i < n && Singletons(arr)[i] == c;
        assert IsSubseq(c, arr[i..]) by {
          assert c[1..] == [];
          assert arr[i..][0] == arr[i];
        }
        SubseqOfSuffix(c, arr, i);
      }
    } else {
      HeadsBelowSound(arr, k, n - k + 1);
    }
  }

  lemma {:induction false} HeadsBelowSound<T>(arr: seq<T>, k: int, i: int)
    requires 2 <= k < |arr| && 0 <= i <= |arr| - k + 1
    ensures forall c :: c in HeadsBelow(arr, k, i) ==> |c| == k && IsSubseq(c, arr)
    decreases |arr|, 0, i
  {
    if i > 0 {
      HeadsBelowSound(arr, k, i - 1);
      var tails := Combos(arr[i..], k - 1);
      CombosSound(arr[i..], k - 1);
      forall c | c in Prefixed(arr[i - 1], tails) ensures |c| == k && IsSubseq(c, arr) {
        var m :| 0 <= m < |tails| && Prefixed(arr[i - 1], tails)[m] == c;
        assert c == [arr[i - 1]] + tails[m];
        assert tails[m] in tails;
        assert IsSubseq(c, arr[i - 1..]) by {
          assert c[0] == arr[i - 1..][0];
          assert c[1..] == tails[m];
          assert arr[i - 1..][1..] == arr[i..];
        }
        SubseqOfSuffix(c, arr, i - 1);
      }
    }
  }

  /** The pushed combinations only grow as the head position advances. */
  lemma {:induction false} HeadsBelowGrows<T>(arr: seq<T>, k: int, i: int, j: int)
    requires 0 <= i <= j <= |arr|
    ensures forall c :: c in HeadsBelow(arr, k, i) ==> c in HeadsBelow(arr, k, j)
    decreases j - i
  {
    if i < j {
      HeadsBelowGrows(arr, k, i, j - 1);
    }
  }

  /** Every order-preserving k-sub-list is returned, for `1 <= k <= |arr|`. */
  lemma {:induction false} CombosComplete<T>(arr: seq<T>, k: int, c: seq<T>)
    requires 1 <= k <= |arr| && |c| == k && IsSubseq(c, arr)
    ensures c in Combos(arr, k)
    decreases |arr|
  {
    var n := |arr|;
    if k == n {
      SubseqFull(c, arr);
    } else if k == 1 {
      SingletonComplete(arr, c);
    } else {
      var j := SubseqSplit(c, arr);
      SubseqLength(c[1..], arr[j + 1..]);
      CombosComplete(arr[j + 1..], k - 1, c[1..]);
      var tails := Combos(arr[j + 1..], k - 1);
      var m :| 0 <= m < |tails| && tails[m] == c[1..];
      assert c == [arr[j]] + c[1..];
      assert Prefixed(arr[j], tails)[m] == c;
      assert c in HeadsBelow(arr, k, j + 1);
      HeadsBelowGrows(arr, k, j + 1, n - k + 1);
    }
  }

  /** Every one-element sub-list is among the singletons. */
  lemma {:induction false} SingletonComplete<T>(arr: seq<T>, c: seq<T>)
    requires 1 < |arr| && |c| == 1 && IsSubseq(c, arr)
    ensures c in Combos(arr, 1)
  {
    SubseqMembers(c, arr);
    assert c[0] in arr;
    var i :| 0 <= i < |arr| && arr[i] == c[0];
    assert c == [arr[i]];
    assert Combos(arr, 1) == Singletons(arr);
    assert Singletons(arr)[i] == c;
  }

  /** On a duplicate-free array no list is returned twice. */
  lemma {:induction false} CombosNoDup<T>(arr: seq<T>, k: int)
    requires NoDup(arr)
    ensures NoDup(Combos(arr, k))
    decreases |arr|, 1
  {
    var n := |arr|;
    if k > n || k <= 0 || k == n {
    } else if k == 1 {
      var r := Singletons(arr);
      forall i, j | 0 <= i < j < |r| ensures r[i] != r[j] {
        assert r[i][0] == arr[i] && r[j][0] == arr[j];
      }
    } else {
      HeadsBelowNoDup(arr, k, n - k + 1);
    }
  }

  lemma {:induction false} HeadsBelowNoDup<T>(arr: seq<T>, k: int, i: int)
    requires NoDup(arr) && 2 <= k < |arr| && 0 <= i <= |arr| - k + 1
    ensures NoDup(HeadsBelow(arr, k, i))
    ensures forall c :: c in HeadsBelow(arr, k, i) ==> c != [] && c[0] in arr[..i]
    decreases |arr|, 0, i
  {
    if i > 0 {
      HeadsBelowNoDup(arr, k, i - 1);
      var before := HeadsBelow(arr, k, i - 1);
      var tails := Combos(arr[i..], k - 1);
      NoDupSlice(arr, i, |arr|);
      CombosNoDup(arr[i..], k - 1);
      var added := Prefixed(arr[i - 1], tails);
      forall a, b | 0 <= a < b < |added| ensures added[a] != added[b] {
        assert added[a][1..] == tails[a] && added[b][1..] == tails[b];
      }
      forall c | c in before ensures c !in added {
        var p :| 0 <= p < i - 1 && arr[..i - 1][p] == c[0];
        assert arr[p] == c[0] && p != i - 1;
      }
      NoDupConcat(before, added);
      forall c | c in HeadsBelow(arr, k, i) ensures c != [] && c[0] in arr[..i] {
        if c in before {
          var p :| 0 <= p < i - 1 && arr[..i - 1][p] == c[0];
          assert arr[..i][p] == c[0];
        } else {
          assert c in added;
          assert arr[..i][i - 1] == arr[i - 1];
        }
      }
    }
  }
}
