/**
  `itertools.groupby` as the result code uses it: the input is cut into
  maximal runs of consecutive elements with equal keys, and each run is
  reported under the key of its first element.
 */
module Grouping {

  /** The runs written one after the other. */
  function Flatten<T>(runs: seq<seq<T>>): seq<T> {
    if |runs| == 0 then [] else runs[0] + Flatten(runs[1..])
  }

  /** `[(k, list(g)) for k, g in groupby(s, key)]`, without the keys. */
  function GroupBy<T, K(==)>(s: seq<T>, key: T -> K): (r: seq<seq<T>>)
    ensures |r| <= |s| && (|s| == 0 <==> |r| == 0)
    ensures forall i :: 0 <= i < |r| ==> |r[i]| > 0
    ensures |s| > 0 ==> r[0][0] == s[0]
    ensures forall i, j :: 0 <= i < |r| && 0 <= j < |r[i]| ==> key(r[i][j]) == key(r[i][0])
  {
    if |s| == 0 then []
    else
      var rest := GroupBy(s[1..], key);
      if |rest| > 0 && key(rest[0][0]) == key(s[0]) then [[s[0]] + rest[0]] + rest[1..]
      else [[s[0]]] + rest
  }

  /** Concatenating the runs gives the input back, in order. */
  lemma {:induction false} GroupByFlatten<T, K>(s: seq<T>, key: T -> K)
    ensures Flatten(GroupBy(s, key)) == s
  {
    if |s| > 0 {
      GroupByFlatten(s[1..], key);
      var rest := GroupBy(s[1..], key);
      var r := GroupBy(s, key);
      if |rest| > 0 && key(rest[0][0]) == key(s[0]) {
        assert r[1..] == rest[1..];
        assert Flatten(rest) == rest[0] + Flatten(rest[1..]);
      } else {
        assert r[1..] == rest;
      }
    }
  }

  /** Neighbouring runs have different keys, so every run is maximal. */
  lemma {:induction false} GroupByAdjacentDiffer<T, K>(s: seq<T>, key: T -> K)
    ensures forall i :: 0 <= i < |GroupBy(s, key)| - 1 ==>
      key(GroupBy(s, key)[i][0]) != key(GroupBy(s, key)[i + 1][0])
  {
    if |s| > 0 {
      GroupByAdjacentDiffer(s[1..], key);
      var rest := GroupBy(s[1..], key);
      var r := GroupBy(s, key);
      if |rest| > 0 && key(rest[0][0]) == key(s[0]) {
        forall i | 0 <= i < |r| - 1 ensures key(r[i][0]) != key(r[i + 1][0]) {
          if i > 0 {
            assert r[i] == rest[i] && r[i + 1] == rest[i + 1];
          } else {
            assert r[1] == rest[1];
          }
        }
      } else {
        forall i | 0 <= i < |r| - 1 ensures key(r[i][0]) != key(r[i + 1][0]) {
          if i > 0 {
            assert r[i] == rest[i - 1] && r[i + 1] == rest[i];
          }
        }
      }
    }
  }

  lemma {:induction false} InFlatten<T>(runs: seq<seq<T>>, i: nat, x: T)
    requires i < |runs| && x in runs[i]
    ensures x in Flatten(runs)
  {
    if i > 0 {
      InFlatten(runs[1..], i - 1, x);
    }
  }

  /** Every element of the flattened runs sits in some run. */
  lemma {:induction false} FlattenMember<T>(runs: seq<seq<T>>, x: T)
    requires x in Flatten(runs)
    ensures exists k :: 0 <= k < |runs| && x in runs[k]
  {
    if x !in runs[0] {
      FlattenMember(runs[1..], x);
      var k :| 0 <= k < |runs[1..]| && x in runs[1..][k];
      assert x in runs[k + 1];
    }
  }

  /**
    An order that holds between every earlier and later element of the input
    holds inside every run: with votes ordered by (voting, value), the votes
    of one voting come in value order.
   */
  lemma {:induction false} GroupByKeepsOrder<T, K>(s: seq<T>, key: T -> K, before: (T, T) -> bool)
    requires forall i, j :: 0 <= i < j < |s| ==> before(s[i], s[j])
    ensures forall k, i, j :: 0 <= k < |GroupBy(s, key)| && 0 <= i < j < |GroupBy(s, key)[k]| ==>
      before(GroupBy(s, key)[k][i], GroupBy(s, key)[k][j])
  {
    if |s| > 0 {
      var tail := s[1..];
      assert forall i, j :: 0 <= i < j < |tail| ==> before(tail[i], tail[j]) by {
        forall i, j | 0 <= i < j < |tail| ensures before(tail[i], tail[j]) {
          assert tail[i] == s[i + 1] && tail[j] == s[j + 1];
        }
      }
      GroupByKeepsOrder(tail, key, before);
      var rest := GroupBy(tail, key);
      var r := GroupBy(s, key);
      if |rest| > 0 && key(rest[0][0]) == key(s[0]) {
        GroupByFlatten(tail, key);
        forall k, i, j | 0 <= k < |r| && 0 <= i < j < |r[k]| ensures before(r[k][i], r[k][j]) {
          if k > 0 {
            assert r[k] == rest[k];
          } else if i > 0 {
            assert r[0][i] == rest[0][i - 1] && r[0][j] == rest[0][j - 1];
          } else {
            assert r[0][j] == rest[0][j - 1];
            InFlatten(rest, 0, rest[0][j - 1]);
            var m :| 0 <= m < |tail| && tail[m] == rest[0][j - 1];
            assert s[m + 1] == tail[m];
          }
        }
      } else {
        forall k, i, j | 0 <= k < |r| && 0 <= i < j < |r[k]| ensures before(r[k][i], r[k][j]) {
          assert k > 0;
          assert r[k] == rest[k - 1];
        }
      }
    }
  }

  /**
    When the keys never decrease along the input (the input is sorted by
    key), the runs have strictly increasing, so pairwise different, keys:
    every key has exactly one run.
   */
  lemma {:induction false} GroupBySortedKeys<T>(s: seq<T>, key: T -> int)
    requires forall i, j :: 0 <= i < j < |s| ==> key(s[i]) <= key(s[j])
    ensures forall i, j :: 0 <= i < j < |GroupBy(s, key)| ==>
      key(GroupBy(s, key)[i][0]) < key(GroupBy(s, key)[j][0])
  {
    if |s| > 0 {
      var tail := s[1..];
      assert forall i, j :: 0 <= i < j < |tail| ==> key(tail[i]) <= key(tail[j]) by {
        forall i, j | 0 <= i < j < |tail| ensures key(tail[i]) <= key(tail[j]) {
          assert tail[i] == s[i + 1] && tail[j] == s[j + 1];
        }
      }
      GroupBySortedKeys(tail, key);
      var rest := GroupBy(tail, key);
      var r := GroupBy(s, key);
      if |rest| > 0 {
        assert rest[0][0] == s[1];
      }
      if |rest| > 0 && key(rest[0][0]) == key(s[0]) {
        forall i, j | 0 <= i < j < |r| ensures key(r[i][0]) < key(r[j][0]) {
          assert r[j] == rest[j];
          if i > 0 {
            assert r[i] == rest[i];
          }
        }
      } else {
        forall i, j | 0 <= i < j < |r| ensures key(r[i][0]) < key(r[j][0]) {
          assert r[j] == rest[j - 1];
          if i > 0 {
            assert r[i] == rest[i - 1];
          } else if j > 1 {
            assert key(rest[0][0]) < key(rest[j - 1][0]);
          }
        }
      }
    }
  }
  /** The elements of s whose key is k, in input order. */
  function Having<T, K(==)>(s: seq<T>, key: T -> K, k: K): (r: seq<T>)
    ensures |r| <= |s|
  {
    if |s| == 0 then [] else (if key(s[0]) == k then [s[0]] else []) + Having(s[1..], key, k)
  }

  lemma {:induction false} HavingAppend<T, K>(a: seq<T>, b: seq<T>, key: T -> K, k: K)
    ensures Having(a + b, key, k) == Having(a, key, k) + Having(b, key, k)
  {
    if |a| > 0 {
      assert (a + b)[1..] == a[1..] + b;
      HavingAppend(a[1..], b, key, k);
    } else {
      assert a + b == b;
    }
  }

  lemma {:induction false} HavingAll<T, K>(s: seq<T>, key: T -> K, k: K)
    requires forall i :: 0 <= i < |s| ==> key(s[i]) == k
    ensures Having(s, key, k) == s
  {
    if |s| > 0 {
      HavingAll(s[1..], key, k);
    }
  }

  lemma {:induction false} HavingNone<T, K>(s: seq<T>, key: T -> K, k: K)
    requires forall x :: x in s ==> key(x) != k
    ensures Having(s, key, k) == []
  {
    if |s| > 0 {
      assert s[0] in s;
      HavingNone(s[1..], key, k);
    }
  }

  /** No run has key k, so no element of the runs has it. */
  lemma FlattenHavingNone<T, K>(runs: seq<seq<T>>, key: T -> K, k: K)
    requires forall i, j :: 0 <= i < |runs| && 0 <= j < |runs[i]| ==> key(runs[i][j]) == key(runs[i][0])
    requires forall i :: 0 <= i < |runs| && |runs[i]| > 0 ==> key(runs[i][0]) != k
    ensures Having(Flatten(runs), key, k) == []
  {
    forall x | x in Flatten(runs) ensures key(x) != k {
      FlattenMember(runs, x);
      var i :| 0 <= i < |runs| && x in runs[i];
      var j :| 0 <= j < |runs[i]| && runs[i][j] == x;
    }
    HavingNone(Flatten(runs), key, k);
  }

  /** Runs with constant, pairwise different keys: selecting a run's key from all of them gives that run back. */
  lemma {:induction false} FlattenHavingRun<T, K>(runs: seq<seq<T>>, key: T -> K, i: nat)
    requires forall m :: 0 <= m < |runs| ==> |runs[m]| > 0
    requires forall m, j :: 0 <= m < |runs| && 0 <= j < |runs[m]| ==> key(runs[m][j]) == key(runs[m][0])
    requires forall m, n :: 0 <= m < n < |runs| ==> key(runs[m][0]) != key(runs[n][0])
    requires i < |runs|
    ensures Having(Flatten(runs), key, key(runs[i][0])) == runs[i]
  {
    var c := key(runs[i][0]);
    var tail := runs[1..];
    HavingAppend(runs[0], Flatten(tail), key, c);
    if i == 0 {
      HavingAll(runs[0], key, c);
      forall m | 0 <= m < |tail| && |tail[m]| > 0 ensures key(tail[m][0]) != c {
        assert tail[m] == runs[m + 1];
      }
      FlattenHavingNone(tail, key, c);
    } else {
      forall x | x in runs[0] ensures key(x) != c {
        var j :| 0 <= j < |runs[0]| && runs[0][j] == x;
      }
      HavingNone(runs[0], key, c);
      assert tail[i - 1] == runs[i];
      FlattenHavingRun(tail, key, i - 1);
    }
  }

  /**
    With the input sorted by key, every run of `groupby` holds exactly the
    elements with its key, and a key without a run has no elements.
   */
  lemma GroupBySortedRuns<T>(s: seq<T>, key: T -> int, k: int)
    requires forall i, j :: 0 <= i < j < |s| ==> key(s[i]) <= key(s[j])
    ensures forall i :: 0 <= i < |GroupBy(s, key)| ==> Having(s, key, key(GroupBy(s, key)[i][0])) == GroupBy(s, key)[i]
    ensures (forall i :: 0 <= i < |GroupBy(s, key)| ==> key(GroupBy(s, key)[i][0]) != k) ==> Having(s, key, k) == []
  {
    var runs := GroupBy(s, key);
    GroupByFlatten(s, key);
    GroupBySortedKeys(s, key);
    forall i | 0 <= i < |runs| ensures Having(s, key, key(runs[i][0])) == runs[i] {
      FlattenHavingRun(runs, key, i);
    }
    if forall i :: 0 <= i < |runs| ==> key(runs[i][0]) != k {
      FlattenHavingNone(runs, key, k);
    }
  }
}
