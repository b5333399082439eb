/**
  The grouping, validation and pruning of `schulze_for_evaluation`: the
  votes of a collection, ordered by (voting id, voter id, option number),
  become one voter mapping per voting (voter id to that voter's ballot);
  ballots that do not match the voting's options are removed with warnings,
  and votings left without voters are dropped.
 */
module SchulzeEvaluation {
  import opened Wrappers
  import opened OrderedDicts
  import opened Grouping
  import opened Results
  import opened VoterResults

  /** The groupby key `vote.voter`, compared by primary key. */
  function VoterIdOf(v: SchulzeVote): int {
    v.voterId
  }

  predicate NonEmptyRuns(runs: seq<seq<SchulzeVote>>) {
    forall k :: 0 <= k < |runs| ==> |runs[k]| > 0
  }

  /** `voter_mapping[voter.id] = list(votes_for_voter)` for each voter run, as pairs. */
  function VoterPairs(runs: seq<seq<SchulzeVote>>): (r: seq<(int, seq<SchulzeVote>)>)
    requires NonEmptyRuns(runs)
    ensures |r| == |runs| && forall k :: 0 <= k < |runs| ==> r[k] == (runs[k][0].voterId, runs[k])
  {
    seq(|runs|, k requires 0 <= k < |runs| => (runs[k][0].voterId, runs[k]))
  }

  /** The voter mapping of one voting's votes. */
  function VoterMapping(run: seq<SchulzeVote>): (r: Dict<int, seq<SchulzeVote>>)
    ensures r.Valid()
  {
    FromPairs(VoterPairs(GroupBy(run, VoterIdOf)))
  }

  /** The inner grouping loop over the voters of one voting. */
  method BuildVoterMapping(run: seq<SchulzeVote>) returns (mapping: Dict<int, seq<SchulzeVote>>)
    ensures mapping == VoterMapping(run)
  {
    var voterRuns := GroupBy(run, VoterIdOf);
    ghost var pairs := VoterPairs(voterRuns);
    mapping := Empty();
    for i := 0 to |voterRuns|
      invariant mapping == FromPairs(pairs[..i])
    {
      var votesList := voterRuns[i];
      assert pairs[..i + 1][..i] == pairs[..i] && pairs[i] == (votesList[0].voterId, votesList);
      mapping := Set(mapping, votesList[0].voterId, votesList);
    }
    assert pairs[..|voterRuns|] == pairs;
  }

  /** Ordered by voter id, as the query orders a voting's votes. */
  ghost predicate VoterOrdered(run: seq<SchulzeVote>) {
    forall i, j :: 0 <= i < j < |run| ==> run[i].voterId <= run[j].voterId
  }

  /** The ballots of the voter mapping, read one after the other, give the votes back in their order. */
  lemma VoterMappingFlatten(run: seq<SchulzeVote>)
    requires VoterOrdered(run)
    ensures Flatten(VoterMapping(run).Values()) == run
  {
    VoterMappingItems(run);
    GroupByFlatten(run, VoterIdOf);
  }

  /** Every voter who voted has a ballot in the voter mapping. */
  lemma VoterMappingVoters(run: seq<SchulzeVote>)
    requires VoterOrdered(run)
    ensures forall k :: 0 <= k < |run| ==> run[k].voterId in VoterMapping(run).entries
  {
    var runs := GroupBy(run, VoterIdOf);
    GroupByFlatten(run, VoterIdOf);
    forall k | 0 <= k < |run| ensures run[k].voterId in VoterMapping(run).entries {
      VoterOfVote(runs, run[k]);
    }
  }

  /** A voter's ballot holds only that voter's votes. */
  lemma VoterMappingOwnVotes(run: seq<SchulzeVote>)
    requires VoterOrdered(run)
    ensures forall v, j :: v in VoterMapping(run).entries && 0 <= j < |VoterMapping(run).entries[v]| ==>
      VoterMapping(run).entries[v][j].voterId == v
  {
    var runs: seq<seq<SchulzeVote>> := GroupBy(run, VoterIdOf);
    var m: Dict<int, seq<SchulzeVote>> := VoterMapping(run);
    VoterMappingItems(run);
    forall v, j | v in m.entries && 0 <= j < |m.entries[v]| ensures m.entries[v][j].voterId == v {
      var i :| 0 <= i < |m.keys| && m.keys[i] == v;
      assert m.Items()[i] == (runs[i][0].voterId, runs[i]);
      assert VoterIdOf(runs[i][j]) == VoterIdOf(runs[i][0]);
    }
  }

  /** The keys of the voter runs differ, so the mapping keeps every run in order. */
  lemma VoterMappingItems(run: seq<SchulzeVote>)
    requires VoterOrdered(run)
    ensures VoterMapping(run).keys == PairKeys(VoterPairs(GroupBy(run, VoterIdOf)))
    ensures VoterMapping(run).Items() == VoterPairs(GroupBy(run, VoterIdOf))
    ensures VoterMapping(run).Values() == GroupBy(run, VoterIdOf)
  {
    var runs := GroupBy(run, VoterIdOf);
    var pairs := VoterPairs(runs);
    GroupBySortedKeys(run, VoterIdOf);
    DistinctVoters(runs);
    FromDistinctPairs(pairs);
    var m := FromPairs(pairs);
    forall i | 0 <= i < |runs| ensures m.Values()[i] == runs[i] {
      assert m.Items()[i] == pairs[i];
    }
  }

  /** Runs whose voters strictly increase give pairs with distinct keys. */
  lemma DistinctVoters(runs: seq<seq<SchulzeVote>>)
    requires NonEmptyRuns(runs)
    requires forall i, j :: 0 <= i < j < |runs| ==> VoterIdOf(runs[i][0]) < VoterIdOf(runs[j][0])
    ensures Distinct(PairKeys(VoterPairs(runs)))
  {
    var ks := PairKeys(VoterPairs(runs));
    forall i, j | 0 <= i < j < |ks| ensures ks[i] != ks[j] {
      assert VoterIdOf(runs[i][0]) < VoterIdOf(runs[j][0]);
    }
  }

  /** A vote in some voter run has its voter among the keys of the runs. */
  lemma VoterOfVote(runs: seq<seq<SchulzeVote>>, x: SchulzeVote)
    requires NonEmptyRuns(runs) && x in Flatten(runs)
    requires forall i, j :: 0 <= i < |runs| && 0 <= j < |runs[i]| ==> VoterIdOf(runs[i][j]) == VoterIdOf(runs[i][0])
    ensures x.voterId in PairKeys(VoterPairs(runs))
  {
    FlattenMember(runs, x);
    var i :| 0 <= i < |runs| && x in runs[i];
    var j :| 0 <= j < |runs[i]| && runs[i][j] == x;
    assert VoterIdOf(runs[i][j]) == VoterIdOf(runs[i][0]);
    assert PairKeys(VoterPairs(runs))[i] == x.voterId;
  }

  /** Every voter mapping is a well-formed dictionary. */
  ghost predicate MappingsValid(d: Dict<int, Dict<int, seq<SchulzeVote>>>) {
    forall id :: id in d.entries ==> d.entries[id].Valid()
  }

  /** `all_votings.votes` after the grouping loop over the voting runs. */
  function GroupedVotes(d: Dict<int, Dict<int, seq<SchulzeVote>>>, runs: seq<seq<SchulzeVote>>): (r: Dict<int, Dict<int, seq<SchulzeVote>>>)
    requires d.Valid() && NonEmptyRuns(runs)
    ensures r.Valid() && (MappingsValid(d) ==> MappingsValid(r))
  {
    if |runs| == 0 then d
    else
      var run := runs[|runs| - 1];
      Set(GroupedVotes(d, runs[..|runs| - 1]), run[0].option.votingId, VoterMapping(run))
  }

  /** The outer grouping loop, lines 34-39. */
  method GroupVotes(res: GenericVotingResult<Dict<int, seq<SchulzeVote>>>, runs: seq<seq<SchulzeVote>>)
    requires res.Valid() && NonEmptyRuns(runs)
    modifies res`votes
    ensures res.Valid()
    ensures res.votes == GroupedVotes(old(res.votes), runs)
  {
    assert runs[..0] == [];
    for i := 0 to |runs|
      invariant res.Valid()
      invariant res.votes == GroupedVotes(old(res.votes), runs[..i])
    {
      GroupedVotesStep(old(res.votes), runs, i);
      StoreRun(res, runs[i]);
    }
    assert runs[..|runs|] == runs;
  }

  /** One turn of that loop: the run's voter mapping is stored under its voting id. */
  method StoreRun(res: GenericVotingResult<Dict<int, seq<SchulzeVote>>>, run: seq<SchulzeVote>)
    requires res.Valid() && |run| > 0
    modifies res`votes
    ensures res.Valid()
    ensures res.votes == Set(old(res.votes), run[0].option.votingId, VoterMapping(run))
  {
    var mapping := BuildVoterMapping(run);
    res.votes := Set(res.votes, run[0].option.votingId, mapping);
  }

  lemma GroupedVotesStep(d: Dict<int, Dict<int, seq<SchulzeVote>>>, runs: seq<seq<SchulzeVote>>, i: nat)
    requires d.Valid() && NonEmptyRuns(runs) && i < |runs|
    ensures NonEmptyRuns(runs[..i]) && NonEmptyRuns(runs[..i + 1])
    ensures GroupedVotes(d, runs[..i + 1]) == Set(GroupedVotes(d, runs[..i]), runs[i][0].option.votingId, VoterMapping(runs[i]))
  {
    assert runs[..i + 1][..i] == runs[..i];
  }

  /** Ordered by voting id, as the query orders the votes. */
  ghost predicate VotingOrdered(votes: seq<SchulzeVote>) {
    forall i, j :: 0 <= i < j < |votes| ==> VoteVotingId(votes[i]) <= VoteVotingId(votes[j])
  }

  /** The entries of `all_votings.votes` after the grouping loop, as a plain map. */
  function GroupedEntries<V>(m: map<int, V>, runs: seq<seq<SchulzeVote>>, f: seq<SchulzeVote> -> V): map<int, V>
    requires NonEmptyRuns(runs)
  {
    if |runs| == 0 then m
    else GroupedEntries(m, runs[..|runs| - 1], f)[VoteVotingId(runs[|runs| - 1][0]) := f(runs[|runs| - 1])]
  }

  lemma {:induction false} GroupedVotesEntries(d: Dict<int, Dict<int, seq<SchulzeVote>>>, runs: seq<seq<SchulzeVote>>)
    requires d.Valid() && NonEmptyRuns(runs)
    ensures GroupedVotes(d, runs).entries == GroupedEntries(d.entries, runs, VoterMapping)
  {
    if |runs| > 0 {
      var n := |runs| - 1;
      assert NonEmptyRuns(runs[..n]);
      GroupedVotesEntries(d, runs[..n]);
    }
  }

  /** When no later run belongs to the same voting, a run's voting maps to that run's voter mapping. */
  lemma {:induction false} GroupedEntriesRun<V>(m: map<int, V>, runs: seq<seq<SchulzeVote>>, f: seq<SchulzeVote> -> V, k: nat)
    requires NonEmptyRuns(runs) && k < |runs|
    requires forall j :: k < j < |runs| ==> VoteVotingId(runs[j][0]) != VoteVotingId(runs[k][0])
    ensures VoteVotingId(runs[k][0]) in GroupedEntries(m, runs, f)
    ensures GroupedEntries(m, runs, f)[VoteVotingId(runs[k][0])] == f(runs[k])
  {
    var n := |runs| - 1;
    var prefix := runs[..n];
    assert NonEmptyRuns(prefix);
    if k < n {
      assert prefix[k] == runs[k];
      assert forall j :: k < j < |prefix| ==> prefix[j] == runs[j];
      GroupedEntriesRun(m, prefix, f, k);
    }
  }

  /** A voting that no run belongs to keeps what it had. */
  lemma {:induction false} GroupedEntriesOther<V>(m: map<int, V>, runs: seq<seq<SchulzeVote>>, f: seq<SchulzeVote> -> V, id: int)
    requires NonEmptyRuns(runs)
    requires forall k :: 0 <= k < |runs| ==> VoteVotingId(runs[k][0]) != id
    ensures id in GroupedEntries(m, runs, f) <==> id in m
    ensures id in m ==> GroupedEntries(m, runs, f)[id] == m[id]
  {
    if |runs| > 0 {
      var n := |runs| - 1;
      assert NonEmptyRuns(runs[..n]);
      assert VoteVotingId(runs[n][0]) != id;
      GroupedEntriesOther(m, runs[..n], f, id);
    }
  }

  /**
    The grouping loop over votes sorted by voting id: a voting with votes
    maps to the voter mapping of exactly its votes, in query order; a voting
    without votes keeps what it had.
   */
  lemma GroupedVotesMeaning(d: Dict<int, Dict<int, seq<SchulzeVote>>>, votes: seq<SchulzeVote>, id: int)
    requires d.Valid() && VotingOrdered(votes)
    ensures Having(votes, VoteVotingId, id) != [] ==>
      id in GroupedVotes(d, GroupBy(votes, VoteVotingId)).entries &&
      GroupedVotes(d, GroupBy(votes, VoteVotingId)).entries[id] == VoterMapping(Having(votes, VoteVotingId, id))
    ensures Having(votes, VoteVotingId, id) == [] ==>
      (id in GroupedVotes(d, GroupBy(votes, VoteVotingId)).entries <==> id in d.entries) &&
      (id in d.entries ==> GroupedVotes(d, GroupBy(votes, VoteVotingId)).entries[id] == d.entries[id])
  {
    var runs := GroupBy(votes, VoteVotingId);
    GroupBySortedKeys(votes, VoteVotingId);
    GroupBySortedRuns(votes, VoteVotingId, id);
    GroupedVotesEntries(d, runs);
    if k :| 0 <= k < |runs| && VoteVotingId(runs[k][0]) == id {
      assert Having(votes, VoteVotingId, id) == runs[k];
      GroupedEntriesRun(d.entries, runs, VoterMapping, k);
    } else {
      GroupedEntriesOther(d.entries, runs, VoterMapping, id);
    }
  }

  // ----- the sanity checks, lines 41-79 -----

  /** Every description is a list of options, as `schulze_votings` builds them. */
  predicate SchulzeDescribed(desc: map<int, Description>) {
    forall id :: id in desc ==> desc[id].Options?
  }

  /** A voting is checked only when it exists and has a description. */
  predicate Checked(id: int, known: set<int>, desc: map<int, Description>) {
    id in known && id in desc
  }

  /**
    The warnings for one voter's ballot: one when its length differs from
    the number of options, otherwise one per mismatched position.
   */
  function VoterCheck(votingId: int, ballot: seq<SchulzeVote>, options: seq<SchulzeOption>): seq<Warning> {
    if |options| != |ballot| then [BallotLength(votingId, |options|, |ballot|)]
    else Mismatches(votingId, ballot, options, |ballot|)
  }

  /**
    A ballot passes without a warning exactly when it matches the options.
    A ballot of the wrong length gets exactly one warning; a ballot of the
    right length gets one warning per mismatched position.
   */
  lemma VoterCheckMeaning(votingId: int, ballot: seq<SchulzeVote>, options: seq<SchulzeOption>)
    ensures VoterCheck(votingId, ballot, options) == [] <==> Matches(ballot, options)
    ensures |options| != |ballot| ==> |VoterCheck(votingId, ballot, options)| == 1
    ensures |options| == |ballot| ==>
      |VoterCheck(votingId, ballot, options)| == |MismatchedPositions(ballot, options, |ballot|)|
  {
    if |options| == |ballot| {
      MismatchesMeaning(votingId, ballot, options, |ballot|);
      if !Matches(ballot, options) {
        var k :| 0 <= k < |ballot| && ballot[k].option.id != options[k].id;
        assert k in MismatchedPositions(ballot, options, |ballot|);
      }
    }
  }

  /**
    The mismatch branch as written: building the message reads
    `vote.option.name`, a field options do not have, so the first mismatched
    position raises AttributeError and the whole evaluation stops.
   */
  datatype EvaluationError = AttributeError(attribute: string)

  function VoterCheckAsWritten(votingId: int, ballot: seq<SchulzeVote>, options: seq<SchulzeOption>): Result<seq<Warning>, EvaluationError> {
    if |options| != |ballot| then Success([BallotLength(votingId, |options|, |ballot|)])
    else if Matches(ballot, options) then Success([])
    else Failure(AttributeError("name"))
  }

  /**
    The code as written agrees with the corrected check on every ballot
    except the ones the corrected check warns about position by position:
    those raise instead.
   */
  lemma AsWrittenRaisesOnMismatch(votingId: int, ballot: seq<SchulzeVote>, options: seq<SchulzeOption>)
    ensures VoterCheckAsWritten(votingId, ballot, options).Failure? <==> |options| == |ballot| && !Matches(ballot, options)
    ensures VoterCheckAsWritten(votingId, ballot, options).Success? ==>
      VoterCheckAsWritten(votingId, ballot, options).value == VoterCheck(votingId, ballot, options)
  {
    VoterCheckMeaning(votingId, ballot, options);
  }

  /** A one-option voting and a ballot that votes for another option: the code as written raises. */
  lemma MismatchRaisesExample()
    ensures var voting := SchulzeVoting(1, VotingGroup(1, 0), 0);
      var yes := SchulzeOption(10, 1, "yes", 0);
      var no := SchulzeOption(11, 1, "no", 1);
      var ballot := [SchulzeVote(100, 7, no, 1)];
      VoterCheckAsWritten(voting.id, ballot, [yes]) == Failure(AttributeError("name"))
      && VoterCheck(voting.id, ballot, [yes]) == [OptionMismatch(1, 11, 10)]
  {
    var yes := SchulzeOption(10, 1, "yes", 0);
    var no := SchulzeOption(11, 1, "no", 1);
    var ballot := [SchulzeVote(100, 7, no, 1)];
    assert !Matches(ballot, [yes]) by {
      assert ballot[0].option.id != [yes][0].id;
    }
  }

  /** The warnings of all voters of a voting, in iteration order. */
  function VoterChecks(votingId: int, items: seq<(int, seq<SchulzeVote>)>, options: seq<SchulzeOption>): seq<Warning> {
    if |items| == 0 then []
    else VoterChecks(votingId, items[..|items| - 1], options) + VoterCheck(votingId, items[|items| - 1].1, options)
  }

  /** `voters_to_remove`: the voters whose ballot does not match the options. */
  function InvalidVoters(mapping: Dict<int, seq<SchulzeVote>>, options: seq<SchulzeOption>): set<int> {
    set v | v in mapping.entries && !Matches(mapping.entries[v], options)
  }

  /** The voter mapping after the invalid voters are deleted. */
  function CheckedMapping(mapping: Dict<int, seq<SchulzeVote>>, options: seq<SchulzeOption>): (r: Dict<int, seq<SchulzeVote>>)
    ensures mapping.Valid() ==> r.Valid()
  {
    DeleteAll(mapping, InvalidVoters(mapping, options))
  }

  /**
    After the checks a voting keeps exactly its voters whose ballots match
    the options, each with its ballot unchanged.
   */
  lemma CheckedMappingMeaning(mapping: Dict<int, seq<SchulzeVote>>, options: seq<SchulzeOption>)
    ensures forall v :: v in CheckedMapping(mapping, options).entries <==> v in mapping.entries && Matches(mapping.entries[v], options)
    ensures forall v :: v in CheckedMapping(mapping, options).entries ==> CheckedMapping(mapping, options).entries[v] == mapping.entries[v]
  {
  }

  /** The voters among the first i items whose ballot does not match. */
  function InvalidAmong(items: seq<(int, seq<SchulzeVote>)>, options: seq<SchulzeOption>, i: nat): set<int>
    requires i <= |items|
  {
    set k | 0 <= k < i && !Matches(items[k].1, options) :: items[k].0
  }

  lemma InvalidAmongAll(mapping: Dict<int, seq<SchulzeVote>>, options: seq<SchulzeOption>)
    requires mapping.Valid()
    ensures InvalidAmong(mapping.Items(), options, |mapping.Items()|) == InvalidVoters(mapping, options)
  {
    var items := mapping.Items();
    forall v | v in InvalidVoters(mapping, options) ensures v in InvalidAmong(items, options, |items|) {
      var k :| 0 <= k < |mapping.keys| && mapping.keys[k] == v;
      assert items[k] == (v, mapping.entries[v]);
    }
  }

  /** The checks of one ballot, lines 54-75; the voter is added to `voters_to_remove` on every warning. */
  method CheckVoter(votingId: int, voterId: int, ballot: seq<SchulzeVote>, options: seq<SchulzeOption>, remove0: set<int>)
    returns (warnings: seq<Warning>, remove: set<int>)
    ensures warnings == VoterCheck(votingId, ballot, options)
    ensures remove == remove0 + if Matches(ballot, options) then {} else {voterId}
  {
    VoterCheckMeaning(votingId, ballot, options);
    warnings, remove := [], remove0;
    if |options| != |ballot| {
      warnings := warnings + [BallotLength(votingId, |options|, |ballot|)];
      remove := remove + {voterId};
    } else {
      for k := 0 to |ballot|
        invariant warnings == Mismatches(votingId, ballot, options, k)
        invariant remove == remove0 + if warnings == [] then {} else {voterId}
      {
        if ballot[k].option.id != options[k].id {
          warnings := warnings + [OptionMismatch(votingId, ballot[k].option.id, options[k].id)];
          remove := remove + {voterId};
        }
      }
    }
  }

  /** One more voter visited adds its own warnings and, when its ballot does not match, itself to the voters to remove. */
  lemma CheckVotersStep(votingId: int, items: seq<(int, seq<SchulzeVote>)>, options: seq<SchulzeOption>, i: nat)
    requires i < |items|
    ensures VoterChecks(votingId, items[..i + 1], options) == VoterChecks(votingId, items[..i], options) + VoterCheck(votingId, items[i].1, options)
    ensures InvalidAmong(items, options, i + 1) == InvalidAmong(items, options, i) + if Matches(items[i].1, options) then {} else {items[i].0}
  {
    assert items[..i + 1][..i] == items[..i];
  }

  /** The voter loop of one voting followed by the deletion of `voters_to_remove`. */
  method CheckVoters(votingId: int, mapping: Dict<int, seq<SchulzeVote>>, options: seq<SchulzeOption>)
    returns (checked: Dict<int, seq<SchulzeVote>>, warnings: seq<Warning>)
    requires mapping.Valid()
    ensures checked == CheckedMapping(mapping, options)
    ensures warnings == VoterChecks(votingId, mapping.Items(), options)
  {
    var items := mapping.Items();
    var remove: set<int> := {};
    warnings := [];
    for i := 0 to |items|
      invariant warnings == VoterChecks(votingId, items[..i], options)
      invariant remove == InvalidAmong(items, options, i)
    {
      var voterId, ballot := items[i].0, items[i].1;
      CheckVotersStep(votingId, items, options, i);
      var w;
      w, remove := CheckVoter(votingId, voterId, ballot, options, remove);
      warnings := warnings + w;
    }
    assert items[..|items|] == items;
    InvalidAmongAll(mapping, options);
    checked := DeleteKeys(mapping, remove);
  }

  /** `all_votings.votes` after the sanity loop has visited the items. */
  function CheckedVotes(d: Dict<int, Dict<int, seq<SchulzeVote>>>, items: seq<(int, Dict<int, seq<SchulzeVote>>)>, known: set<int>, desc: map<int, Description>): (r: Dict<int, Dict<int, seq<SchulzeVote>>>)
    requires d.Valid() && SchulzeDescribed(desc)
    ensures r.Valid() && r.keys == d.keys
  {
    if |items| == 0 then d
    else
      var c := CheckedVotes(d, items[..|items| - 1], known, desc);
      var id, mapping := items[|items| - 1].0, items[|items| - 1].1;
      if !Checked(id, known, desc) || id !in c.entries then c
      else Set(c, id, CheckedMapping(mapping, desc[id].options))
  }

  /** The warnings of the sanity loop over the items. */
  function SanityWarnings(items: seq<(int, Dict<int, seq<SchulzeVote>>)>, known: set<int>, desc: map<int, Description>): seq<Warning>
    requires SchulzeDescribed(desc) && ItemsAllValid(items)
  {
    if |items| == 0 then []
    else
      var id, mapping := items[|items| - 1].0, items[|items| - 1].1;
      SanityWarnings(items[..|items| - 1], known, desc) +
        if !Checked(id, known, desc) then [UnknownVoting(id)]
        else VoterChecks(id, mapping.Items(), desc[id].options)
  }

  lemma CheckedVotesLast(d: Dict<int, Dict<int, seq<SchulzeVote>>>, items: seq<(int, Dict<int, seq<SchulzeVote>>)>, known: set<int>, desc: map<int, Description>)
    requires d.Valid() && SchulzeDescribed(desc) && |items| > 0
    ensures var c := CheckedVotes(d, items[..|items| - 1], known, desc);
      var id := items[|items| - 1].0;
      id in c.entries <==> id in d.entries
    ensures var c := CheckedVotes(d, items[..|items| - 1], known, desc);
      var id, mapping := items[|items| - 1].0, items[|items| - 1].1;
      CheckedVotes(d, items, known, desc).entries ==
        if !Checked(id, known, desc) || id !in d.entries then c.entries
        else c.entries[id := CheckedMapping(mapping, desc[id].options)]
  {
  }

  /** The entries of the votes after the sanity loop, as a plain map: f checks the mapping of a voting in check. */
  function CheckedEntries<V>(m: map<int, V>, items: seq<(int, V)>, check: set<int>, f: (int, V) -> V): map<int, V> {
    if |items| == 0 then m
    else
      var c := CheckedEntries(m, items[..|items| - 1], check, f);
      var id, v := items[|items| - 1].0, items[|items| - 1].1;
      if id !in check || id !in m then c else c[id := f(id, v)]
  }

  /** The check applied to one voting's mapping. */
  function CheckEntry(desc: map<int, Description>, id: int, mapping: Dict<int, seq<SchulzeVote>>): Dict<int, seq<SchulzeVote>> {
    if id in desc && desc[id].Options? then CheckedMapping(mapping, desc[id].options) else mapping
  }

  lemma {:induction false} CheckedVotesEntries(d: Dict<int, Dict<int, seq<SchulzeVote>>>, items: seq<(int, Dict<int, seq<SchulzeVote>>)>, known: set<int>, desc: map<int, Description>)
    requires d.Valid() && SchulzeDescribed(desc)
    ensures CheckedVotes(d, items, known, desc).entries ==
      CheckedEntries(d.entries, items, known * desc.Keys, (id, mapping) => CheckEntry(desc, id, mapping))
  {
    if |items| > 0 {
      CheckedVotesLast(d, items, known, desc);
      CheckedVotesEntries(d, items[..|items| - 1], known, desc);
    }
  }

  /**
    After the first i items of a dictionary, each of their keys in check
    holds f of its value; every other key keeps its value.
   */
  lemma {:induction false} CheckedEntriesPrefix<V>(m: map<int, V>, ks: seq<int>, items: seq<(int, V)>, check: set<int>, f: (int, V) -> V, i: nat, id: int)
    requires |items| == |ks| && Distinct(ks)
    requires forall k :: 0 <= k < |ks| ==> ks[k] in m && items[k] == (ks[k], m[ks[k]])
    requires i <= |ks| && id in m
    ensures id in CheckedEntries(m, items[..i], check, f)
    ensures CheckedEntries(m, items[..i], check, f)[id] == if id in ks[..i] && id in check then f(id, m[id]) else m[id]
  {
    if i > 0 {
      CheckedEntriesPrefix(m, ks, items, check, f, i - 1, id);
      assert items[..i][..i - 1] == items[..i - 1];
      assert items[..i][i - 1] == (ks[i - 1], m[ks[i - 1]]);
      assert ks[..i] == ks[..i - 1] + [ks[i - 1]];
      if id == ks[i - 1] {
        assert id !in ks[..i - 1];
      }
    }
  }

  /** The sanity loop over all items: a voting that exists and is described holds its checked voter mapping; any other keeps its mapping. */
  lemma CheckedVotesEntry(d: Dict<int, Dict<int, seq<SchulzeVote>>>, known: set<int>, desc: map<int, Description>, id: int)
    requires d.Valid() && SchulzeDescribed(desc)
    ensures id in CheckedVotes(d, d.Items(), known, desc).entries <==> id in d.entries
    ensures id in d.entries ==>
      CheckedVotes(d, d.Items(), known, desc).entries[id] ==
        if Checked(id, known, desc) then CheckedMapping(d.entries[id], desc[id].options) else d.entries[id]
  {
    var items := d.Items();
    CheckedVotesEntries(d, items, known, desc);
    if id in d.entries {
      assert items[..|d.keys|] == items;
      assert d.keys[..|d.keys|] == d.keys;
      CheckedEntriesPrefix(d.entries, d.keys, items, known * desc.Keys, (id, mapping) => CheckEntry(desc, id, mapping), |d.keys|, id);
    }
  }

  ghost predicate ItemsAllValid(items: seq<(int, Dict<int, seq<SchulzeVote>>)>) {
    forall k :: 0 <= k < |items| ==> items[k].1.Valid()
  }

  lemma ItemsValid(d: Dict<int, Dict<int, seq<SchulzeVote>>>)
    requires d.Valid() && MappingsValid(d)
    ensures ItemsAllValid(d.Items())
  {
    var items := d.Items();
    forall k | 0 <= k < |items| ensures items[k].1.Valid() {
      var id := d.keys[k];
      assert id in d.keys;
      assert id in d.entries;
      assert d.entries[id].Valid();
      assert items[k].1 == d.entries[id];
    }
  }

  /** The sanity loop, lines 41-79, over the items of `all_votings.votes`. */
  method CheckVotings(res: GenericVotingResult<Dict<int, seq<SchulzeVote>>>)
    requires res.Valid() && MappingsValid(res.votes) && SchulzeDescribed(res.votingDescription)
    modifies res`votes, res`warnings
    ensures res.Valid()
    ensures res.votes == CheckedVotes(old(res.votes), old(res.votes).Items(), res.votings.entries.Keys, res.votingDescription)
    ensures ItemsAllValid(old(res.votes).Items())
    ensures res.warnings == old(res.warnings) + SanityWarnings(old(res.votes).Items(), res.votings.entries.Keys, res.votingDescription)
  {
    var items := res.votes.Items();
    var known := res.votings.entries.Keys;
    ItemsValid(res.votes);
    assert items[..0] == [];
    assert old(res.warnings) + [] == old(res.warnings);
    for i := 0 to |items|
      invariant res.Valid() && res.votings == old(res.votings) && res.votingDescription == old(res.votingDescription)
      invariant res.votes == CheckedVotes(old(res.votes), items[..i], known, res.votingDescription)
      invariant res.warnings == old(res.warnings) + SanityWarnings(items[..i], known, res.votingDescription)
    {
      SanityStep(old(res.votes), items, known, res.votingDescription, i);
      Assoc(old(res.warnings), SanityWarnings(items[..i], known, res.votingDescription),
        if !Checked(items[i].0, known, res.votingDescription) then [UnknownVoting(items[i].0)]
        else VoterChecks(items[i].0, items[i].1.Items(), res.votingDescription[items[i].0].options));
      CheckVoting(res, items[i].0, items[i].1, known);
    }
    assert items[..|items|] == items;
  }

  lemma SanityStep(d: Dict<int, Dict<int, seq<SchulzeVote>>>, items: seq<(int, Dict<int, seq<SchulzeVote>>)>, known: set<int>, desc: map<int, Description>, i: nat)
    requires d.Valid() && SchulzeDescribed(desc) && i < |items| && ItemsAllValid(items)
    ensures var c := CheckedVotes(d, items[..i], known, desc);
      var id, mapping := items[i].0, items[i].1;
      CheckedVotes(d, items[..i + 1], known, desc) ==
        if !Checked(id, known, desc) || id !in c.entries then c else Set(c, id, CheckedMapping(mapping, desc[id].options))
    ensures SanityWarnings(items[..i + 1], known, desc) == SanityWarnings(items[..i], known, desc) +
      if !Checked(items[i].0, known, desc) then [UnknownVoting(items[i].0)]
      else VoterChecks(items[i].0, items[i].1.Items(), desc[items[i].0].options)
  {
    assert items[..i + 1][..i] == items[..i];
  }

  /** One iteration of the sanity loop: an unknown voting gives one warning; a known one has its voters checked. */
  method CheckVoting(res: GenericVotingResult<Dict<int, seq<SchulzeVote>>>, votingId: int, mapping: Dict<int, seq<SchulzeVote>>, known: set<int>)
    requires res.Valid() && mapping.Valid() && SchulzeDescribed(res.votingDescription)
    modifies res`votes, res`warnings
    ensures res.Valid()
    ensures res.votes ==
      if !Checked(votingId, known, res.votingDescription) || votingId !in old(res.votes).entries then old(res.votes)
      else Set(old(res.votes), votingId, CheckedMapping(mapping, res.votingDescription[votingId].options))
    ensures res.warnings == old(res.warnings) +
      if !Checked(votingId, known, res.votingDescription) then [UnknownVoting(votingId)]
      else VoterChecks(votingId, mapping.Items(), res.votingDescription[votingId].options)
  {
    if votingId !in known || votingId !in res.votingDescription {
      res.warnings := res.warnings + [UnknownVoting(votingId)];
    } else {
      var options := res.votingDescription[votingId].options;
      var checked, warnings := CheckVoters(votingId, mapping, options);
      res.warnings := res.warnings + warnings;
      if votingId in res.votes.entries {
        res.votes := Set(res.votes, votingId, checked);
      }
    }
  }

  // ----- pruning, lines 82-87 -----

  /** `votings_to_remove`: the votings whose voter mapping is empty. */
  function EmptyVotings(d: Dict<int, Dict<int, seq<SchulzeVote>>>): set<int> {
    set id | id in d.entries && d.entries[id].Size() == 0
  }

  /** The votes with the empty voter mappings deleted. */
  function Pruned(d: Dict<int, Dict<int, seq<SchulzeVote>>>): (r: Dict<int, Dict<int, seq<SchulzeVote>>>)
    ensures d.Valid() ==> r.Valid()
  {
    DeleteAll(d, EmptyVotings(d))
  }

  /** After pruning no voting maps to an empty voter mapping, and every non-empty one is kept unchanged. */
  lemma PrunedMeaning(d: Dict<int, Dict<int, seq<SchulzeVote>>>)
    ensures forall id :: id in Pruned(d).entries ==> Pruned(d).entries[id].Size() > 0
    ensures forall id :: id in d.entries && d.entries[id].Size() > 0 ==>
      id in Pruned(d).entries && Pruned(d).entries[id] == d.entries[id]
  {
  }

  /** The pruning loop: collect the empty votings, then delete them. */
  method PruneEmpty(res: GenericVotingResult<Dict<int, seq<SchulzeVote>>>)
    requires res.Valid()
    modifies res`votes
    ensures res.Valid()
    ensures res.votes == Pruned(old(res.votes))
  {
    var items := res.votes.Items();
    var remove: set<int> := {};
    for i := 0 to |items|
      invariant remove == set k | 0 <= k < i && items[k].1.Size() == 0 :: items[k].0
    {
      if items[i].1.Size() == 0 {
        remove := remove + {items[i].0};
      }
    }
    assert remove == EmptyVotings(res.votes) by {
      forall id | id in EmptyVotings(res.votes) ensures id in remove {
        var k :| 0 <= k < |res.votes.keys| && res.votes.keys[k] == id;
        assert items[k] == (id, res.votes.entries[id]);
      }
    }
    res.votes := DeleteKeys(res.votes, remove);
  }

  // ----- the whole of lines 34-88 -----

  /** What `all_votings.votes` becomes. */
  function EvaluatedVotes(d: Dict<int, Dict<int, seq<SchulzeVote>>>, votes: seq<SchulzeVote>, known: set<int>, desc: map<int, Description>): (r: Dict<int, Dict<int, seq<SchulzeVote>>>)
    requires d.Valid() && SchulzeDescribed(desc)
  {
    var g := GroupedVotes(d, GroupBy(votes, VoteVotingId));
    Pruned(CheckedVotes(g, g.Items(), known, desc))
  }

  /**
    What the pass leaves for one voting, with the votes sorted by voting id
    as the query sorts them. No voting is left without voters. A voting with
    votes keeps exactly the voters of its own votes whose ballots match its
    options, or all of them when it was not validated because it is unknown
    or undescribed, and each kept ballot is the voter's votes for it in
    query order. A voting without votes comes from the dictionary before the
    pass.
   */
  lemma SchulzeEvaluatedMeaning(d: Dict<int, Dict<int, seq<SchulzeVote>>>, votes: seq<SchulzeVote>, known: set<int>, desc: map<int, Description>, id: int)
    requires d.Valid() && MappingsValid(d) && SchulzeDescribed(desc) && VotingOrdered(votes)
    ensures var r := EvaluatedVotes(d, votes, known, desc);
      id in r.entries ==> r.entries[id].Size() > 0
    ensures var r := EvaluatedVotes(d, votes, known, desc);
      var m := VoterMapping(Having(votes, VoteVotingId, id));
      Having(votes, VoteVotingId, id) != [] ==>
        forall v :: (id in r.entries && v in r.entries[id].entries) <==>
          (v in m.entries && (Checked(id, known, desc) ==> Matches(m.entries[v], desc[id].options)))
    ensures var r := EvaluatedVotes(d, votes, known, desc);
      var m := VoterMapping(Having(votes, VoteVotingId, id));
      Having(votes, VoteVotingId, id) != [] && id in r.entries ==>
        forall v :: v in r.entries[id].entries ==> r.entries[id].entries[v] == m.entries[v]
    ensures var r := EvaluatedVotes(d, votes, known, desc);
      Having(votes, VoteVotingId, id) != [] && id in r.entries && !Checked(id, known, desc) ==>
        r.entries[id] == VoterMapping(Having(votes, VoteVotingId, id))
    ensures var r := EvaluatedVotes(d, votes, known, desc);
      Having(votes, VoteVotingId, id) == [] && id in r.entries ==>
        id in d.entries && (!Checked(id, known, desc) ==> r.entries[id] == d.entries[id])
  {
    var g := GroupedVotes(d, GroupBy(votes, VoteVotingId));
    var c := CheckedVotes(g, g.Items(), known, desc);
    GroupedVotesMeaning(d, votes, id);
    CheckedVotesEntry(g, known, desc, id);
    if id in g.entries {
      assert g.entries[id].Valid();
      if Checked(id, known, desc) {
        CheckedMappingMeaning(g.entries[id], desc[id].options);
      }
      assert c.entries[id].Valid();
    }
  }

  /**
    `schulze_for_evaluation`, lines 34-88, on the result of
    `schulze_votings`: the votes are grouped, checked and pruned; `votings`
    and `voting_description` stay as they are and earlier warnings stay in
    front.
   */
  method SchulzeForEvaluation(res: GenericVotingResult<Dict<int, seq<SchulzeVote>>>, votes: seq<SchulzeVote>)
    requires res.Valid() && MappingsValid(res.votes) && SchulzeDescribed(res.votingDescription)
    modifies res`votes, res`warnings
    ensures res.Valid()
    ensures res.votes == EvaluatedVotes(old(res.votes), votes, res.votings.entries.Keys, res.votingDescription)
    ensures ItemsAllValid(GroupedVotes(old(res.votes), GroupBy(votes, VoteVotingId)).Items())
    ensures var g := GroupedVotes(old(res.votes), GroupBy(votes, VoteVotingId));
      res.warnings == old(res.warnings) + SanityWarnings(g.Items(), res.votings.entries.Keys, res.votingDescription)
  {
    var runs := GroupBy(votes, VoteVotingId);
    GroupVotes(res, runs);
    CheckVotings(res);
    PruneEmpty(res);
  }
}
