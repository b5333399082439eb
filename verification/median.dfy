/**
  The grouping and filtering loop of `median_for_evaluation`: the votes of a
  collection, ordered by (voting id, value), are cut into runs of one voting
  each; in each run the votes that may be counted are stored under their
  voter's id, the others give a warning, and the voting's id is mapped to
  the resulting voter mapping.
 */
module MedianEvaluation {
  import opened OrderedDicts
  import opened Grouping
  import opened Results

  /** The groupby key `vote.voting`, compared by primary key. */
  function VotingIdOf(v: MedianVote): int {
    v.voting.id
  }

  /**
    A vote is stored when its voting exists and its value is at most the
    value of the run's voting.
   */
  predicate Accepted(v: MedianVote, voting: MedianVoting, known: set<int>) {
    v.voting.id in known && v.value <= voting.value
  }

  /** The warning of a vote that is not stored. */
  function Rejection(v: MedianVote, voting: MedianVoting, known: set<int>): Warning {
    if v.voting.id !in known then UnknownVoting(v.voting.id) else VoteTooHigh(voting.id, v.voterId, v.value)
  }

  /** `voter_mapping` after the inner loop over one run whose voting is `voting`. */
  function RunMapping(run: seq<MedianVote>, voting: MedianVoting, known: set<int>): (r: Dict<int, MedianVote>)
    ensures r.Valid()
  {
    if |run| == 0 then Empty()
    else
      var m := RunMapping(run[..|run| - 1], voting, known);
      var v := run[|run| - 1];
      if Accepted(v, voting, known) then Set(m, v.voterId, v) else m
  }

  /** The warnings of the inner loop over one run. */
  function RunWarnings(run: seq<MedianVote>, voting: MedianVoting, known: set<int>): seq<Warning> {
    if |run| == 0 then []
    else
      var v := run[|run| - 1];
      RunWarnings(run[..|run| - 1], voting, known) + if Accepted(v, voting, known) then [] else [Rejection(v, voting, known)]
  }

  /** The accepted votes of a run as `(voter id, vote)` pairs, in order. */
  function AcceptedPairs(run: seq<MedianVote>, voting: MedianVoting, known: set<int>): (r: seq<(int, MedianVote)>)
    ensures |r| <= |run|
  {
    if |run| == 0 then []
    else
      var v := run[|run| - 1];
      AcceptedPairs(run[..|run| - 1], voting, known) + if Accepted(v, voting, known) then [(v.voterId, v)] else []
  }

  /**
    The voter mapping of a run is the dictionary of its accepted votes by
    voter id: filtering first and building the dictionary afterwards gives
    the same as the loop.
   */
  lemma {:induction false} RunMappingFiltered(run: seq<MedianVote>, voting: MedianVoting, known: set<int>)
    ensures RunMapping(run, voting, known) == FromPairs(AcceptedPairs(run, voting, known))
  {
    if |run| > 0 {
      var init, v := run[..|run| - 1], run[|run| - 1];
      RunMappingFiltered(init, voting, known);
      var p := AcceptedPairs(init, voting, known);
      if Accepted(v, voting, known) {
        var q := p + [(v.voterId, v)];
        assert AcceptedPairs(run, voting, known) == q;
        assert q[..|q| - 1] == p && q[|q| - 1] == (v.voterId, v);
      } else {
        assert AcceptedPairs(run, voting, known) == p;
      }
    }
  }

  /** A pair is accepted exactly when it is an accepted vote of the run under its voter's id. */
  lemma {:induction false} AcceptedPairsMembers(run: seq<MedianVote>, voting: MedianVoting, known: set<int>)
    ensures forall p :: p in AcceptedPairs(run, voting, known) <==>
      p.1 in run && Accepted(p.1, voting, known) && p.0 == p.1.voterId
  {
    if |run| > 0 {
      var init, v := run[..|run| - 1], run[|run| - 1];
      AcceptedPairsMembers(init, voting, known);
      assert run == init + [v];
    }
  }

  /** Every vote of a run is either stored or warned about, never both and never neither. */
  lemma {:induction false} RunWarningsCount(run: seq<MedianVote>, voting: MedianVoting, known: set<int>)
    ensures |RunWarnings(run, voting, known)| + |AcceptedPairs(run, voting, known)| == |run|
    ensures forall w :: w in RunWarnings(run, voting, known) <==>
      exists v :: v in run && !Accepted(v, voting, known) && w == Rejection(v, voting, known)
  {
    if |run| > 0 {
      var init, last := run[..|run| - 1], run[|run| - 1];
      RunWarningsCount(init, voting, known);
      assert run == init + [last];
      forall w | exists v :: v in run && !Accepted(v, voting, known) && w == Rejection(v, voting, known)
        ensures w in RunWarnings(run, voting, known)
      {
        var v :| v in run && !Accepted(v, voting, known) && w == Rejection(v, voting, known);
        if v != last {
          assert v in init;
        }
      }
    }
  }

  /** The inner loop over one run, proved against RunMapping and RunWarnings. */
  method MapRun(run: seq<MedianVote>, voting: MedianVoting, known: set<int>)
    returns (mapping: Dict<int, MedianVote>, warnings: seq<Warning>)
    ensures mapping == RunMapping(run, voting, known)
    ensures warnings == RunWarnings(run, voting, known)
  {
    mapping, warnings := Empty(), [];
    for i := 0 to |run|
      invariant mapping == RunMapping(run[..i], voting, known)
      invariant warnings == RunWarnings(run[..i], voting, known)
    {
      var vote := run[i];
      assert run[..i + 1][..i] == run[..i];
      if vote.voting.id !in known {
        warnings := warnings + [UnknownVoting(vote.voting.id)];
      } else if vote.value > voting.value {
        warnings := warnings + [VoteTooHigh(voting.id, vote.voterId, vote.value)];
      } else {
        mapping := Set(mapping, vote.voterId, vote);
      }
    }
    assert run[..|run|] == run;
  }

  predicate NonEmptyRuns(runs: seq<seq<MedianVote>>) {
    forall k :: 0 <= k < |runs| ==> |runs[k]| > 0
  }

  /** `all_votings.votes` after each run's mapping is stored under the run's voting id. */
  function VotesAfter(d: Dict<int, Dict<int, MedianVote>>, runs: seq<seq<MedianVote>>, known: set<int>): (r: Dict<int, Dict<int, MedianVote>>)
    requires d.Valid() && NonEmptyRuns(runs)
    ensures r.Valid()
  {
    if |runs| == 0 then d
    else
      var run := runs[|runs| - 1];
      Set(VotesAfter(d, runs[..|runs| - 1], known), run[0].voting.id, RunMapping(run, run[0].voting, known))
  }

  /** The warnings of all runs, in order. */
  function WarningsAfter(runs: seq<seq<MedianVote>>, known: set<int>): seq<Warning>
    requires NonEmptyRuns(runs)
  {
    if |runs| == 0 then []
    else
      var run := runs[|runs| - 1];
      WarningsAfter(runs[..|runs| - 1], known) + RunWarnings(run, run[0].voting, known)
  }

  /** The number of stored votes over all runs. */
  function AcceptedCount(runs: seq<seq<MedianVote>>, known: set<int>): nat
    requires NonEmptyRuns(runs)
  {
    if |runs| == 0 then 0
    else
      var run := runs[|runs| - 1];
      AcceptedCount(runs[..|runs| - 1], known) + |AcceptedPairs(run, run[0].voting, known)|
  }

  /**
    `median_for_evaluation`, lines 38-59, on the result of `median_votings`:
    only `votes` and `warnings` change, and earlier warnings stay in front.
   */
  method MedianForEvaluation(res: GenericVotingResult<Dict<int, MedianVote>>, votes: seq<MedianVote>)
    requires res.Valid()
    modifies res`votes, res`warnings
    ensures res.Valid()
    ensures res.votes == VotesAfter(old(res.votes), GroupBy(votes, VotingIdOf), res.votings.entries.Keys)
    ensures res.warnings == old(res.warnings) + WarningsAfter(GroupBy(votes, VotingIdOf), res.votings.entries.Keys)
  {
    var runs := GroupBy(votes, VotingIdOf);
    StoreRuns(res, runs);
  }

  /** The outer loop of `median_for_evaluation` over the runs. */
  method StoreRuns(res: GenericVotingResult<Dict<int, MedianVote>>, runs: seq<seq<MedianVote>>)
    requires res.Valid() && NonEmptyRuns(runs)
    modifies res`votes, res`warnings
    ensures res.Valid()
    ensures res.votes == VotesAfter(old(res.votes), runs, res.votings.entries.Keys)
    ensures res.warnings == old(res.warnings) + WarningsAfter(runs, res.votings.entries.Keys)
  {
    var known := res.votings.entries.Keys;
    assert runs[..0] == [];
    assert old(res.warnings) + [] == old(res.warnings);
    for i := 0 to |runs|
      invariant res.Valid() && res.votings == old(res.votings)
      invariant res.votes == VotesAfter(old(res.votes), runs[..i], known)
      invariant res.warnings == old(res.warnings) + WarningsAfter(runs[..i], known)
    {
      StoreRun(res, runs, i, known, old(res.votes), old(res.warnings));
    }
    assert runs[..|runs|] == runs;
  }

  /** One iteration of the outer loop: the run's mapping is stored under its voting's id. */
  method StoreRun(res: GenericVotingResult<Dict<int, MedianVote>>, runs: seq<seq<MedianVote>>, i: nat, known: set<int>,
                  ghost votes0: Dict<int, Dict<int, MedianVote>>, ghost warnings0: seq<Warning>)
    requires res.Valid() && votes0.Valid() && NonEmptyRuns(runs) && i < |runs|
    requires res.votes == VotesAfter(votes0, runs[..i], known)
    requires res.warnings == warnings0 + WarningsAfter(runs[..i], known)
    modifies res`votes, res`warnings
    ensures res.Valid()
    ensures res.votes == VotesAfter(votes0, runs[..i + 1], known)
    ensures res.warnings == warnings0 + WarningsAfter(runs[..i + 1], known)
  {
    StoreStep(votes0, runs, known, i);
    Assoc(warnings0, WarningsAfter(runs[..i], known), RunWarnings(runs[i], runs[i][0].voting, known));
    MapAndStore(res, runs[i], known);
  }

  /** The body of the outer loop for one run: map it, then store the mapping and the warnings. */
  method MapAndStore(res: GenericVotingResult<Dict<int, MedianVote>>, run: seq<MedianVote>, known: set<int>)
    requires res.Valid() && |run| > 0
    modifies res`votes, res`warnings
    ensures res.Valid()
    ensures res.votes == Set(old(res.votes), run[0].voting.id, RunMapping(run, run[0].voting, known))
    ensures res.warnings == old(res.warnings) + RunWarnings(run, run[0].voting, known)
  {
    var voting := run[0].voting;
    var mapping, warnings := MapRun(run, voting, known);
    res.warnings := res.warnings + warnings;
    res.votes := Set(res.votes, voting.id, mapping);
  }

  lemma StoreStep(d: Dict<int, Dict<int, MedianVote>>, runs: seq<seq<MedianVote>>, known: set<int>, i: nat)
    requires d.Valid() && NonEmptyRuns(runs) && i < |runs|
    ensures VotesAfter(d, runs[..i + 1], known) ==
      Set(VotesAfter(d, runs[..i], known), runs[i][0].voting.id, RunMapping(runs[i], runs[i][0].voting, known))
    ensures WarningsAfter(runs[..i + 1], known) == WarningsAfter(runs[..i], known) + RunWarnings(runs[i], runs[i][0].voting, known)
  {
    assert runs[..i + 1][..i] == runs[..i];
  }

  /** A voting mapped by a run and by no later run keeps that run's mapping. */
  lemma {:induction false} VotesAfterRun(d: Dict<int, Dict<int, MedianVote>>, runs: seq<seq<MedianVote>>, known: set<int>, k: nat)
    requires d.Valid() && NonEmptyRuns(runs) && k < |runs|
    requires forall j :: k < j < |runs| ==> runs[j][0].voting.id != runs[k][0].voting.id
    ensures runs[k][0].voting.id in VotesAfter(d, runs, known).entries
    ensures VotesAfter(d, runs, known).entries[runs[k][0].voting.id] == RunMapping(runs[k], runs[k][0].voting, known)
  {
    if k < |runs| - 1 {
      VotesAfterRun(d, runs[..|runs| - 1], known, k);
    }
  }

  /** Some run is a run of voting `id`. */
  predicate HasRun(runs: seq<seq<MedianVote>>, id: int)
    requires NonEmptyRuns(runs)
  {
    exists k :: 0 <= k < |runs| && runs[k][0].voting.id == id
  }

  /** Some vote is a vote in voting `id`. */
  predicate HasVote(votes: seq<MedianVote>, id: int) {
    exists v :: v in votes && v.voting.id == id
  }

  /** The runs add entries for their votings and for nothing else. */
  lemma {:induction false} VotesAfterDomain(d: Dict<int, Dict<int, MedianVote>>, runs: seq<seq<MedianVote>>, known: set<int>)
    requires d.Valid() && NonEmptyRuns(runs)
    ensures forall id :: id in VotesAfter(d, runs, known).entries <==> id in d.entries || HasRun(runs, id)
  {
    if |runs| > 0 {
      var init := runs[..|runs| - 1];
      VotesAfterDomain(d, init, known);
      forall id | HasRun(runs, id)
        ensures id in VotesAfter(d, runs, known).entries
      {
        var k :| 0 <= k < |runs| && runs[k][0].voting.id == id;
        HasRunInit(runs, k);
      }
    }
  }

  lemma HasRunInit(runs: seq<seq<MedianVote>>, k: nat)
    requires NonEmptyRuns(runs) && k < |runs|
    ensures k < |runs| - 1 ==> HasRun(runs[..|runs| - 1], runs[k][0].voting.id)
  {
    if k < |runs| - 1 {
      assert runs[..|runs| - 1][k] == runs[k];
    }
  }

  /** The voting ids of the runs are the voting ids of the votes. */
  lemma RunIdsAreVoteIds(votes: seq<MedianVote>)
    ensures forall id :: HasRun(GroupBy(votes, VotingIdOf), id) <==> HasVote(votes, id)
  {
    var runs: seq<seq<MedianVote>> := GroupBy(votes, VotingIdOf);
    GroupByFlatten(votes, VotingIdOf);
    forall id | HasRun(runs, id)
      ensures HasVote(votes, id)
    {
      var k :| 0 <= k < |runs| && runs[k][0].voting.id == id;
      InFlatten(runs, k, runs[k][0]);
    }
    forall id | HasVote(votes, id)
      ensures HasRun(runs, id)
    {
      var v :| v in votes && v.voting.id == id;
      FlattenMember(runs, v);
      var k :| 0 <= k < |runs| && v in runs[k];
      var j :| 0 <= j < |runs[k]| && runs[k][j] == v;
      assert VotingIdOf(runs[k][j]) == VotingIdOf(runs[k][0]);
    }
  }

  /**
    Every voting that has at least one vote gets a `votes` entry, possibly
    empty; no other entry is added.
   */
  lemma MedianVotesDomain(d: Dict<int, Dict<int, MedianVote>>, votes: seq<MedianVote>, known: set<int>)
    requires d.Valid()
    ensures forall id :: id in VotesAfter(d, GroupBy(votes, VotingIdOf), known).entries <==> id in d.entries || HasVote(votes, id)
  {
    VotesAfterDomain(d, GroupBy(votes, VotingIdOf), known);
    RunIdsAreVoteIds(votes);
  }

  lemma {:induction false} WarningsAfterCount(runs: seq<seq<MedianVote>>, known: set<int>)
    requires NonEmptyRuns(runs)
    ensures |WarningsAfter(runs, known)| + AcceptedCount(runs, known) == |Flatten(runs)|
  {
    if |runs| > 0 {
      var init, run := runs[..|runs| - 1], runs[|runs| - 1];
      WarningsAfterCount(init, known);
      RunWarningsCount(run, run[0].voting, known);
      FlattenSnoc(init, run);
      assert runs == init + [run];
    }
  }

  lemma {:induction false} FlattenSnoc<T>(runs: seq<seq<T>>, run: seq<T>)
    ensures |Flatten(runs + [run])| == |Flatten(runs)| + |run|
  {
    if |runs| > 0 {
      FlattenSnoc(runs[1..], run);
      assert (runs + [run])[1..] == runs[1..] + [run];
    } else {
      assert Flatten([run]) == run + Flatten([]);
    }
  }

  /** The added warnings are as many as the votes that are not stored. */
  lemma MedianWarningsCount(votes: seq<MedianVote>, known: set<int>)
    ensures |WarningsAfter(GroupBy(votes, VotingIdOf), known)| + AcceptedCount(GroupBy(votes, VotingIdOf), known) == |votes|
  {
    WarningsAfterCount(GroupBy(votes, VotingIdOf), known);
    GroupByFlatten(votes, VotingIdOf);
  }

  /**
    The order of the query, with the database's guarantee that a voter votes
    at most once per voting: by voting id, then by value.
   */
  predicate VoteBefore(a: MedianVote, b: MedianVote) {
    a.voting.id < b.voting.id || (a.voting.id == b.voting.id && a.value <= b.value && a.voterId != b.voterId)
  }

  predicate PairsAscending(ps: seq<(int, MedianVote)>) {
    forall i, j :: 0 <= i < j < |ps| ==> ps[i].1.value <= ps[j].1.value && ps[i].0 != ps[j].0
  }

  lemma {:induction false} AcceptedPairsAscending(run: seq<MedianVote>, voting: MedianVoting, known: set<int>)
    requires forall i, j :: 0 <= i < j < |run| ==> run[i].value <= run[j].value && run[i].voterId != run[j].voterId
    ensures PairsAscending(AcceptedPairs(run, voting, known))
  {
    if |run| > 0 {
      var init, v := run[..|run| - 1], run[|run| - 1];
      AcceptedPairsAscending(init, voting, known);
      AcceptedPairsMembers(init, voting, known);
      var p := AcceptedPairs(init, voting, known);
      if Accepted(v, voting, known) {
        var q := p + [(v.voterId, v)];
        forall i, j | 0 <= i < j < |q| ensures q[i].1.value <= q[j].1.value && q[i].0 != q[j].0 {
          if j == |p| {
            assert q[i] in p;
            var m :| 0 <= m < |init| && init[m] == q[i].1;
            assert run[m] == init[m];
          } else {
            assert q[i] == p[i] && q[j] == p[j];
          }
        }
      }
    }
  }

  /** Ascending pairs with different voters give a mapping whose values ascend in iteration order. */
  lemma MappingAscending(ps: seq<(int, MedianVote)>)
    requires PairsAscending(ps)
    ensures FromPairs(ps).Valid()
    ensures forall i, j :: 0 <= i < j < |FromPairs(ps).keys| ==>
      FromPairs(ps).entries[FromPairs(ps).keys[i]].value <= FromPairs(ps).entries[FromPairs(ps).keys[j]].value
  {
    assert Distinct(PairKeys(ps));
    FromDistinctPairs(ps);
    var m := FromPairs(ps);
    forall i, j | 0 <= i < j < |m.keys| ensures m.entries[m.keys[i]].value <= m.entries[m.keys[j]].value {
      assert m.Items()[i] == ps[i] && m.Items()[j] == ps[j];
    }
  }

  /**
    With the votes in query order, every voter mapping that the loop stores
    lists its voters in non-decreasing order of value.
   */
  lemma MedianMappingsAscending(d: Dict<int, Dict<int, MedianVote>>, votes: seq<MedianVote>, known: set<int>, id: int)
    requires d.Valid()
    requires forall i, j :: 0 <= i < j < |votes| ==> VoteBefore(votes[i], votes[j])
    requires HasVote(votes, id)
    ensures id in VotesAfter(d, GroupBy(votes, VotingIdOf), known).entries
    ensures var m := VotesAfter(d, GroupBy(votes, VotingIdOf), known).entries[id];
      m.Valid() && forall i, j :: 0 <= i < j < |m.keys| ==> m.entries[m.keys[i]].value <= m.entries[m.keys[j]].value
  {
    var runs: seq<seq<MedianVote>> := GroupBy(votes, VotingIdOf);
    RunIdsAreVoteIds(votes);
    var k :| 0 <= k < |runs| && runs[k][0].voting.id == id;
    GroupBySortedKeys(votes, VotingIdOf);
    VotesAfterRun(d, runs, known, k);
    RunAscending(votes, k);
    RunMappingAscending(runs[k], known);
  }

  /** Within one voting's run of the sorted votes, values ascend and voters differ. */
  lemma RunAscending(votes: seq<MedianVote>, k: nat)
    requires forall i, j :: 0 <= i < j < |votes| ==> VoteBefore(votes[i], votes[j])
    requires k < |GroupBy(votes, VotingIdOf)|
    ensures var run := GroupBy(votes, VotingIdOf)[k];
      forall i, j :: 0 <= i < j < |run| ==> run[i].value <= run[j].value && run[i].voterId != run[j].voterId
  {
    var runs: seq<seq<MedianVote>> := GroupBy(votes, VotingIdOf);
    GroupByKeepsOrder(votes, VotingIdOf, VoteBefore);
    var run: seq<MedianVote> := runs[k];
    forall i, j | 0 <= i < j < |run| ensures run[i].value <= run[j].value && run[i].voterId != run[j].voterId {
      assert VotingIdOf(run[i]) == VotingIdOf(run[0]) && VotingIdOf(run[j]) == VotingIdOf(run[0]);
      assert VoteBefore(run[i], run[j]);
    }
  }

  /** A run with ascending values and distinct voters gives a mapping with ascending values. */
  lemma RunMappingAscending(run: seq<MedianVote>, known: set<int>)
    requires |run| > 0
    requires forall i, j :: 0 <= i < j < |run| ==> run[i].value <= run[j].value && run[i].voterId != run[j].voterId
    ensures var m := RunMapping(run, run[0].voting, known);
      m.Valid() && forall i, j :: 0 <= i < j < |m.keys| ==> m.entries[m.keys[i]].value <= m.entries[m.keys[j]].value
  {
    AcceptedPairsAscending(run, run[0].voting, known);
    RunMappingFiltered(run, run[0].voting, known);
    MappingAscending(AcceptedPairs(run, run[0].voting, known));
  }
}
