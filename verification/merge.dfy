/**
  `merge_voting_results(median, schulze)`: the votings of both results are
  merged by (group number, voting number) as `heapq.merge` does, collected
  into an ordered dictionary by voting id, and a warning is added when that
  dictionary lost entries. Votes, warnings and descriptions are combined
  with `dict.update` and list concatenation.
 */
module ResultMerge {
  import opened OrderedDicts
  import opened Results

  /** An item of `votings.items()`: a voting id and the voting. */
  type Entry = (int, Voting)

  /** The merge key: `(voting.group.group_num, voting.voting_num)`. */
  function MergeKey(e: Entry): (int, int) {
    (e.1.Group().groupNum, e.1.VotingNum())
  }

  /** Python's comparison of two key tuples. */
  predicate KeyLess(a: (int, int), b: (int, int)) {
    a.0 < b.0 || (a.0 == b.0 && a.1 < b.1)
  }

  predicate KeyAtMost(a: (int, int), b: (int, int)) {
    !KeyLess(b, a)
  }

  predicate SortedByKey(s: seq<Entry>) {
    forall i, j :: 0 <= i < j < |s| ==> KeyAtMost(MergeKey(s[i]), MergeKey(s[j]))
  }

  /**
    `heapq.merge(a, b, key=MergeKey)`: repeatedly takes the smaller head;
    on equal keys the head of the first iterable wins.
   */
  function HeapMerge(a: seq<Entry>, b: seq<Entry>): (r: seq<Entry>)
    ensures |r| == |a| + |b|
    decreases |a| + |b|
  {
    if |a| == 0 then b
    else if |b| == 0 then a
    else if KeyLess(MergeKey(b[0]), MergeKey(a[0])) then [b[0]] + HeapMerge(a, b[1..])
    else [a[0]] + HeapMerge(a[1..], b)
  }

  /** The merge is a permutation of the two inputs together. */
  lemma {:induction false} MergePermutation(a: seq<Entry>, b: seq<Entry>)
    ensures multiset(HeapMerge(a, b)) == multiset(a) + multiset(b)
    decreases |a| + |b|
  {
    if |a| > 0 && |b| > 0 {
      if KeyLess(MergeKey(b[0]), MergeKey(a[0])) {
        MergePermutation(a, b[1..]);
        ConsMultiset(b[0], b, HeapMerge(a, b[1..]), HeapMerge(a, b));
      } else {
        MergePermutation(a[1..], b);
        ConsMultiset(a[0], a, HeapMerge(a[1..], b), HeapMerge(a, b));
      }
    }
  }

  lemma ConsMultiset(x: Entry, s: seq<Entry>, m: seq<Entry>, r: seq<Entry>)
    requires |s| > 0 && s[0] == x && r == [x] + m
    ensures multiset(r) == multiset{x} + multiset(m)
    ensures multiset(s) == multiset{x} + multiset(s[1..])
  {
    assert s == [x] + s[1..];
  }

  lemma MergeMembers(a: seq<Entry>, b: seq<Entry>)
    ensures forall x :: x in HeapMerge(a, b) <==> x in a || x in b
  {
    MergePermutation(a, b);
    forall x ensures x in HeapMerge(a, b) <==> x in a || x in b {
      assert x in HeapMerge(a, b) <==> multiset(HeapMerge(a, b))[x] > 0;
    }
  }

  lemma SortedTail(s: seq<Entry>)
    requires |s| > 0 && SortedByKey(s)
    ensures SortedByKey(s[1..])
    ensures forall x :: x in s ==> KeyAtMost(MergeKey(s[0]), MergeKey(x))
  {
    forall i, j | 0 <= i < j < |s| - 1 ensures KeyAtMost(MergeKey(s[1..][i]), MergeKey(s[1..][j])) {
      assert s[1..][i] == s[i + 1] && s[1..][j] == s[j + 1];
    }
  }

  /** Merging two sorted sequences gives a sorted sequence. */
  lemma {:induction false} MergeSorted(a: seq<Entry>, b: seq<Entry>)
    requires SortedByKey(a) && SortedByKey(b)
    ensures SortedByKey(HeapMerge(a, b))
    decreases |a| + |b|
  {
    if |a| > 0 && |b| > 0 {
      SortedTail(a);
      SortedTail(b);
      var r := HeapMerge(a, b);
      if KeyLess(MergeKey(b[0]), MergeKey(a[0])) {
        var m := HeapMerge(a, b[1..]);
        MergeSorted(a, b[1..]);
        MergeMembers(a, b[1..]);
        forall i, j | 0 <= i < j < |r| ensures KeyAtMost(MergeKey(r[i]), MergeKey(r[j])) {
          assert r[j] == m[j - 1] && r[j] in m;
          if i > 0 {
            assert r[i] == m[i - 1];
          }
        }
      } else {
        var m := HeapMerge(a[1..], b);
        MergeSorted(a[1..], b);
        MergeMembers(a[1..], b);
        forall i, j | 0 <= i < j < |r| ensures KeyAtMost(MergeKey(r[i]), MergeKey(r[j])) {
          assert r[j] == m[j - 1] && r[j] in m;
          if i > 0 {
            assert r[i] == m[i - 1];
          }
        }
      }
    }
  }

  predicate AllMedian(s: seq<Entry>) {
    forall i :: 0 <= i < |s| ==> s[i].1.Median?
  }

  predicate AllSchulze(s: seq<Entry>) {
    forall i :: 0 <= i < |s| ==> s[i].1.Schulze?
  }

  /**
    Ties go to the median votings: in the merge of sorted median and Schulze
    votings, a Schulze voting placed before a median voting has a strictly
    smaller key.
   */
  lemma {:induction false} MergeTies(a: seq<Entry>, b: seq<Entry>)
    requires SortedByKey(a) && SortedByKey(b) && AllMedian(a) && AllSchulze(b)
    ensures forall i, j :: 0 <= i < j < |HeapMerge(a, b)| && HeapMerge(a, b)[i].1.Schulze? && HeapMerge(a, b)[j].1.Median? ==>
      KeyLess(MergeKey(HeapMerge(a, b)[i]), MergeKey(HeapMerge(a, b)[j]))
    decreases |a| + |b|
  {
    if |a| > 0 && |b| > 0 {
      var r := HeapMerge(a, b);
      if KeyLess(MergeKey(b[0]), MergeKey(a[0])) {
        var m := HeapMerge(a, b[1..]);
        SortedTail(a);
        SortedTail(b);
        MergeTies(a, b[1..]);
        MergeMembers(a, b[1..]);
        forall i, j | 0 <= i < j < |r| && r[i].1.Schulze? && r[j].1.Median?
          ensures KeyLess(MergeKey(r[i]), MergeKey(r[j]))
        {
          assert r[j] == m[j - 1] && r[j] in m;
          if i > 0 {
            assert r[i] == m[i - 1];
          } else {
            assert r[j] !in b[1..];
          }
        }
      } else {
        var m := HeapMerge(a[1..], b);
        SortedTail(a);
        MergeTies(a[1..], b);
        forall i, j | 0 <= i < j < |r| && r[i].1.Schulze? && r[j].1.Median?
          ensures KeyLess(MergeKey(r[i]), MergeKey(r[j]))
        {
          assert r[i] == m[i - 1] && r[j] == m[j - 1];
        }
      }
    }
  }

  lemma {:induction false} MergeKeys(a: seq<Entry>, b: seq<Entry>)
    ensures forall k :: k in PairKeys(HeapMerge(a, b)) <==> k in PairKeys(a) || k in PairKeys(b)
    decreases |a| + |b|
  {
    if |a| > 0 && |b| > 0 {
      if KeyLess(MergeKey(b[0]), MergeKey(a[0])) {
        MergeKeys(a, b[1..]);
        PairKeysCons(b[0], HeapMerge(a, b[1..]));
        assert b == [b[0]] + b[1..];
        PairKeysCons(b[0], b[1..]);
      } else {
        MergeKeys(a[1..], b);
        PairKeysCons(a[0], HeapMerge(a[1..], b));
        assert a == [a[0]] + a[1..];
        PairKeysCons(a[0], a[1..]);
      }
    }
  }

  lemma PairKeysCons(x: Entry, s: seq<Entry>)
    ensures PairKeys([x] + s) == [x.0] + PairKeys(s)
  {
  }

  lemma DistinctCons<T>(x: T, s: seq<T>)
    ensures Distinct([x] + s) <==> x !in s && Distinct(s)
  {
    var t := [x] + s;
    if Distinct(t) {
      forall i, j | 0 <= i < j < |s| ensures s[i] != s[j] {
        assert t[i + 1] == s[i] && t[j + 1] == s[j];
      }
      forall i | 0 <= i < |s| ensures s[i] != x {
        assert t[i + 1] == s[i] && t[0] == x;
        assert 0 < i + 1 < |t|;
      }
    }
    if x !in s && Distinct(s) {
      forall i, j | 0 <= i < j < |t| ensures t[i] != t[j] {
        assert t[j] == s[j - 1];
        if i > 0 {
          assert t[i] == s[i - 1];
        }
      }
    }
  }

  /** Some value occurs in both sequences. */
  predicate Shared(p: seq<int>, q: seq<int>) {
    exists k :: k in p && k in q
  }

  lemma SharedSymmetric(p: seq<int>, q: seq<int>)
    ensures Shared(p, q) <==> Shared(q, p)
  {
  }

  /** One step of the induction below, on plain key sequences. */
  lemma DistinctStep(x: int, m: seq<int>, p: seq<int>, q: seq<int>)
    requires forall k :: k in m <==> k in p || k in q
    requires Distinct(m) <==> Distinct(p) && Distinct(q) && !Shared(p, q)
    ensures Distinct([x] + m) <==> Distinct([x] + p) && Distinct(q) && !Shared([x] + p, q)
  {
    DistinctCons(x, m);
    DistinctCons(x, p);
    if Shared([x] + p, q) && !Shared(p, q) {
      var k :| k in [x] + p && k in q;
      assert k == x;
    }
    if Shared(p, q) {
      var k :| k in p && k in q;
      assert k in [x] + p;
    }
    if x in q {
      assert x in [x] + p;
    }
  }

  /** Some voting id occurs in both sequences of items. */
  predicate SharedKey(a: seq<Entry>, b: seq<Entry>) {
    Shared(PairKeys(a), PairKeys(b))
  }

  /** The merged ids are all different exactly when each input's are and no id is in both. */
  lemma {:induction false} MergeDistinctKeys(a: seq<Entry>, b: seq<Entry>)
    ensures Distinct(PairKeys(HeapMerge(a, b))) <==>
      Distinct(PairKeys(a)) && Distinct(PairKeys(b)) && !SharedKey(a, b)
    decreases |a| + |b|
  {
    if |a| == 0 {
      assert PairKeys(a) == [];
    } else if |b| == 0 {
      assert PairKeys(b) == [];
    } else if KeyLess(MergeKey(b[0]), MergeKey(a[0])) {
      MergeDistinctKeys(a, b[1..]);
      MergeKeys(a, b[1..]);
      var pa, pb := PairKeys(a), PairKeys(b[1..]);
      assert PairKeys(HeapMerge(a, b)) == [b[0].0] + PairKeys(HeapMerge(a, b[1..]));
      assert PairKeys(b) == [b[0].0] + pb;
      SharedSymmetric(pa, pb);
      SharedSymmetric(pa, [b[0].0] + pb);
      DistinctStep(b[0].0, PairKeys(HeapMerge(a, b[1..])), pb, pa);
    } else {
      MergeDistinctKeys(a[1..], b);
      MergeKeys(a[1..], b);
      assert PairKeys(HeapMerge(a, b)) == [a[0].0] + PairKeys(HeapMerge(a[1..], b));
      assert PairKeys(a) == [a[0].0] + PairKeys(a[1..]);
      DistinctStep(a[0].0, PairKeys(HeapMerge(a[1..], b)), PairKeys(a[1..]), PairKeys(b));
    }
  }

  /** `OrderedDict(merge(median.votings.items(), schulze.votings.items(), key=key))`. */
  function MergedVotings(median: Dict<int, Voting>, schulze: Dict<int, Voting>): Dict<int, Voting>
    requires median.Valid() && schulze.Valid()
  {
    FromPairs(HeapMerge(median.Items(), schulze.Items()))
  }

  /**
    The merged dictionary is smaller than the two inputs together (the
    condition of the duplicate warning) exactly when some voting id occurs
    in both results.
   */
  lemma DuplicateWarningCondition(median: Dict<int, Voting>, schulze: Dict<int, Voting>)
    requires median.Valid() && schulze.Valid()
    ensures MergedVotings(median, schulze).Size() != median.Size() + schulze.Size() <==>
      exists id :: id in median.entries && id in schulze.entries
  {
    var a, b := median.Items(), schulze.Items();
    ItemsKeys(median);
    ItemsKeys(schulze);
    FromPairsSize(HeapMerge(a, b));
    MergeDistinctKeys(a, b);
    if SharedKey(a, b) {
      var k :| k in PairKeys(a) && k in PairKeys(b);
      assert k in median.entries && k in schulze.entries;
    }
    if exists id :: id in median.entries && id in schulze.entries {
      var id :| id in median.entries && id in schulze.entries;
      assert id in PairKeys(a) && id in PairKeys(b);
    }
  }

  /**
    Without shared ids the merged dictionary holds every voting of both
    results in merge order: sorted by (group number, voting number) when both
    inputs are, with median votings first on equal keys.
   */
  lemma MergedVotingsOrder(median: Dict<int, Voting>, schulze: Dict<int, Voting>)
    requires median.Valid() && schulze.Valid()
    requires forall id :: id in median.entries ==> id !in schulze.entries
    requires SortedByKey(median.Items()) && SortedByKey(schulze.Items())
    requires AllMedian(median.Items()) && AllSchulze(schulze.Items())
    ensures MergedVotings(median, schulze).Items() == HeapMerge(median.Items(), schulze.Items())
    ensures MergedVotings(median, schulze).Size() == median.Size() + schulze.Size()
    ensures SortedByKey(MergedVotings(median, schulze).Items())
    ensures var r := MergedVotings(median, schulze).Items();
      forall i, j :: 0 <= i < j < |r| && r[i].1.Schulze? && r[j].1.Median? ==> KeyLess(MergeKey(r[i]), MergeKey(r[j]))
  {
    var a, b := median.Items(), schulze.Items();
    ItemsKeys(median);
    ItemsKeys(schulze);
    MergeDistinctKeys(a, b);
    assert !SharedKey(a, b);
    FromDistinctPairs(HeapMerge(a, b));
    MergeSorted(a, b);
    MergeTies(a, b);
  }

  /** The warnings of the merged result: the duplicate warning, then the median ones, then the Schulze ones. */
  function MergedWarnings(median: Dict<int, Voting>, schulze: Dict<int, Voting>, medianWarnings: seq<Warning>, schulzeWarnings: seq<Warning>): seq<Warning>
    requires median.Valid() && schulze.Valid()
  {
    (if MergedVotings(median, schulze).Size() != median.Size() + schulze.Size() then [DuplicateVotings] else [])
      + medianWarnings + schulzeWarnings
  }

  /**
    The merged warnings start with exactly one duplicate warning when an id is
    shared and none otherwise, followed by the median and then the Schulze
    warnings unchanged.
   */
  lemma MergedWarningsShape(median: Dict<int, Voting>, schulze: Dict<int, Voting>, mw: seq<Warning>, sw: seq<Warning>)
    requires median.Valid() && schulze.Valid()
    ensures var shared := exists id :: id in median.entries && id in schulze.entries;
      MergedWarnings(median, schulze, mw, sw) == (if shared then [DuplicateVotings] else []) + mw + sw
  {
    DuplicateWarningCondition(median, schulze);
  }

  /**
    On an id present in both results the Schulze votes win, while the median
    description wins.
   */
  lemma MergeOverrides<V>(mv: Dict<int, V>, sv: Dict<int, V>, md: map<int, Description>, sd: map<int, Description>, id: int)
    requires mv.Valid() && sv.Valid()
    ensures id in sv.entries ==> Update(mv, sv).entries[id] == sv.entries[id]
    ensures id in mv.entries && id !in sv.entries ==> Update(mv, sv).entries[id] == mv.entries[id]
    ensures id in md ==> (sd + md)[id] == md[id]
    ensures id in sd && id !in md ==> (sd + md)[id] == sd[id]
  {
  }

  /** `merge_voting_results(median, schulze)`. */
  method MergeVotingResults<V>(median: GenericVotingResult<V>, schulze: GenericVotingResult<V>) returns (res: GenericVotingResult<V>)
    requires median.Valid() && schulze.Valid()
    ensures fresh(res) && res.Valid()
    ensures res.votings == MergedVotings(median.votings, schulze.votings)
    ensures res.warnings == MergedWarnings(median.votings, schulze.votings, median.warnings, schulze.warnings)
    ensures res.votes == Update(median.votes, schulze.votes)
    ensures res.votingDescription == schulze.votingDescription + median.votingDescription
  {
    var votings, warnings := MergeVotings(median.votings, schulze.votings, median.warnings, schulze.warnings);
    var votes := MergeVotes(median.votes, schulze.votes);
    MergeEmpty(schulze.votingDescription);
    var description := map[] + schulze.votingDescription;
    description := description + median.votingDescription;
    res := new GenericVotingResult.Of(votings, votes, warnings, description);
  }

  /** The votings part of `merge_voting_results`: merge by (group, number), warn once when ids collide, then the old warnings. */
  method MergeVotings(median: Dict<int, Voting>, schulze: Dict<int, Voting>, medianWarnings: seq<Warning>, schulzeWarnings: seq<Warning>)
    returns (votings: Dict<int, Voting>, warnings: seq<Warning>)
    requires median.Valid() && schulze.Valid()
    ensures votings.Valid()
    ensures votings == MergedVotings(median, schulze)
    ensures warnings == MergedWarnings(median, schulze, medianWarnings, schulzeWarnings)
  {
    var merged := HeapMerge(median.Items(), schulze.Items());
    votings := FromPairs(merged);
    assert votings == MergedVotings(median, schulze);
    warnings := [];
    if votings.Size() != median.Size() + schulze.Size() {
      warnings := warnings + [DuplicateVotings];
    }
    assert warnings == if votings.Size() != median.Size() + schulze.Size() then [DuplicateVotings] else [];
    warnings := warnings + medianWarnings;
    warnings := warnings + schulzeWarnings;
  }

  /** `res.votes.update(median.votes)` then `res.votes.update(schulze.votes)` on an empty dictionary. */
  method MergeVotes<V>(median: Dict<int, V>, schulze: Dict<int, V>) returns (votes: Dict<int, V>)
    requires median.Valid() && schulze.Valid()
    ensures votes.Valid()
    ensures votes == Update(median, schulze)
  {
    UpdateEmpty(median);
    votes := Update(Empty(), median);
    votes := Update(votes, schulze);
  }

}
