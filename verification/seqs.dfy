/** Sequence helpers: Python's `list.remove`, distinctness and the multiset facts
    the dealing and scoring proofs rest on. */
module Seqs {

  /** No element occurs twice. */
  predicate Distinct<T(==)>(s: seq<T>) {
    forall i, j :: 0 <= i < j < |s| ==> s[i] != s[j]
  }

  /** Position of the first occurrence of `x` (Python's `list.index`). */
  function IndexOf<T(==)>(s: seq<T>, x: T): (k: nat)
    requires x in s
    ensures k < |s| && s[k] == x
    ensures x !in s[..k]
  {
    if s[0] == x then 0
    else
      var k := IndexOf(s[1..], x);
      assert s[..k + 1] == [s[0]] + s[1..][..k];
      1 + k
  }

  /** Python's `list.remove`: drops the first occurrence of `x`. */
  function Remove<T(==)>(s: seq<T>, x: T): (r: seq<T>)
    requires x in s
    ensures r == s[..IndexOf(s, x)] + s[IndexOf(s, x) + 1..]
    ensures |r| == |s| - 1
  {
    var k := IndexOf(s, x);
    var r := if s[0] == x then s[1..] else [s[0]] + Remove(s[1..], x);
    assert r == s[..k] + s[k + 1..] by {
      if s[0] != x {
        var k' := IndexOf(s[1..], x);
        assert k == k' + 1;
        var t := s[1..];
        assert Remove(t, x) == t[..k'] + t[k' + 1..];
        assert s[..k] == [s[0]] + t[..k'];
        assert s[k + 1..] == t[k' + 1..];
      }
    }
    r
  }

  /** `list.remove` takes away exactly one copy of `x` and nothing else. */
  lemma RemoveMultiset<T>(s: seq<T>, x: T)
    requires x in s
    ensures multiset(Remove(s, x)) == multiset(s) - multiset{x}
  {
    var k := IndexOf(s, x);
    var r := Remove(s, x);
    CutOneMultiset(s, k);
    calc {
      multiset(r);
      multiset(s[..k] + s[k + 1..]);
      multiset(s) - multiset{s[k]};
      multiset(s) - multiset{x};
    }
  }

  /** Cutting position `k` out removes exactly one copy of `s[k]`. */
  lemma CutOneMultiset<T>(s: seq<T>, k: nat)
    requires k < |s|
    ensures multiset(s[..k] + s[k + 1..]) == multiset(s) - multiset{s[k]}
  {
    assert s == s[..k] + [s[k]] + s[k + 1..];
  }

  /** Taking the first element off one sequence and the same value off a
      permutation of it leaves two permutations of each other. */
  lemma CutMatching<T>(a: seq<T>, b: seq<T>, k: nat)
    requires multiset(a) == multiset(b) && |a| > 0 && k < |b| && b[k] == a[0]
    ensures multiset(a[1..]) == multiset(b[..k] + b[k + 1..])
  {
    CutOneMultiset(a, 0);
    CutOneMultiset(b, k);
    calc {
      multiset(a[1..]);
      { assert a[..0] + a[1..] == a[1..]; }
      multiset(a[..0] + a[1..]);
      multiset(a) - multiset{a[0]};
      multiset(b) - multiset{b[k]};
      multiset(b[..k] + b[k + 1..]);
    }
  }

  /** In a distinct sequence every value occurs at most once. */
  lemma {:induction false} DistinctCountsOnce<T>(s: seq<T>, x: T)
    requires Distinct(s)
    ensures multiset(s)[x] <= 1
  {
    if |s| > 0 {
      assert s == [s[0]] + s[1..];
      assert Distinct(s[1..]) by {
        forall i, j | 0 <= i < j < |s[1..]| ensures s[1..][i] != s[1..][j] {
          assert s[1..][i] == s[i + 1] && s[1..][j] == s[j + 1];
        }
      }
      DistinctCountsOnce(s[1..], x);
      if x == s[0] {
        assert x !in s[1..] by {
          forall k | 0 <= k < |s[1..]| ensures s[1..][k] != x {
            assert s[1..][k] == s[k + 1];
          }
        }
      }
    }
  }

  /** A value that occurs at most once cannot sit at two positions. */
  lemma NoRepeatAt<T>(s: seq<T>, i: nat, j: nat)
    requires i < j < |s|
    requires multiset(s)[s[i]] <= 1
    ensures s[i] != s[j]
  {
    assert s == s[..i] + [s[i]] + s[i + 1..j] + [s[j]] + s[j + 1..];
  }

  /** Rearranging a distinct sequence keeps it distinct. */
  lemma PermutationKeepsDistinct<T>(a: seq<T>, b: seq<T>)
    requires Distinct(a)
    requires multiset(a) == multiset(b)
    ensures Distinct(b)
  {
    forall i, j | 0 <= i < j < |b| ensures b[i] != b[j] {
      DistinctCountsOnce(a, b[i]);
      NoRepeatAt(b, i, j);
    }
  }

  /** Two non-overlapping slices of a distinct sequence share no element. */
  lemma DistinctSlicesDisjoint<T>(s: seq<T>, a: nat, b: nat, c: nat, d: nat)
    requires Distinct(s)
    requires a <= b <= c <= d <= |s|
    ensures multiset(s[a..b]) !! multiset(s[c..d])
  {
    forall x | x in s[a..b] ensures x !in s[c..d] {
      var k :| 0 <= k < b - a && s[a..b][k] == x;
      forall m | 0 <= m < d - c ensures s[c..d][m] != x {
        assert s[c..d][m] == s[c + m] && s[a..b][k] == s[a + k];
      }
    }
  }
}
