/**
  `schulze_votings`, `median_votes_for_voter` and `schulze_votes_for_voter`:
  the votings of a collection, their options grouped by voting, the votes of
  one voter, and the sanity checks on those votes. The database queries
  become input sequences, already in the order the queries ask for.
 */
module VoterResults {
  import opened OrderedDicts
  import opened Results

  /** The median voting rows as assignments `res.votings[voting.id] = voting`. */
  function MedianItems(vs: seq<MedianVoting>): (r: seq<(int, Voting)>)
    ensures |r| == |vs| && forall i :: 0 <= i < |vs| ==> r[i] == (vs[i].id, Median(vs[i]))
  {
    seq(|vs|, i requires 0 <= i < |vs| => (vs[i].id, Median(vs[i])))
  }

  /** The Schulze voting rows as assignments `res.votings[voting.id] = voting`. */
  function SchulzeItems(vs: seq<SchulzeVoting>): (r: seq<(int, Voting)>)
    ensures |r| == |vs| && forall i :: 0 <= i < |vs| ==> r[i] == (vs[i].id, Schulze(vs[i]))
  {
    seq(|vs|, i requires 0 <= i < |vs| => (vs[i].id, Schulze(vs[i])))
  }

  /** `res.voting_description[voting.id] = voting.value` for every median voting, in turn. */
  function MedianDescriptions(vs: seq<MedianVoting>): map<int, Description> {
    if |vs| == 0 then map[]
    else MedianDescriptions(vs[..|vs| - 1])[vs[|vs| - 1].id := MedianValue(vs[|vs| - 1].value)]
  }

  /**
    The descriptions agree with the votings: every median voting, and nothing
    else, is described, by the value of the voting stored under its id.
   */
  lemma {:induction false} MedianDescriptionsMatch(vs: seq<MedianVoting>)
    ensures forall id :: id in MedianDescriptions(vs) <==> id in FromPairs(MedianItems(vs)).entries
    ensures forall id :: id in MedianDescriptions(vs) ==>
      FromPairs(MedianItems(vs)).entries[id].Median? &&
      MedianDescriptions(vs)[id] == MedianValue(FromPairs(MedianItems(vs)).entries[id].median.value)
  {
    if |vs| > 0 {
      var init := vs[..|vs| - 1];
      MedianDescriptionsMatch(init);
      assert MedianItems(vs)[..|vs| - 1] == MedianItems(init);
    }
  }

  // ----- grouping rows by voting (results.py:255-268 and 330-344) -----

  function OptionVotingId(o: SchulzeOption): int {
    o.votingId
  }

  function VoteVotingId(v: SchulzeVote): int {
    v.option.votingId
  }

  function OptionStray(o: SchulzeOption): Warning {
    OptionWithoutVoting(o.id, o.votingId)
  }

  function VoteStray(v: SchulzeVote): Warning {
    VoteWithoutVoting(v.id, v.option.id, v.option.votingId)
  }

  /** The rows of one voting, in input order. */
  function RowsOf<T>(items: seq<T>, votingOf: T -> int, id: int): seq<T> {
    if |items| == 0 then []
    else
      var last := items[|items| - 1];
      RowsOf(items[..|items| - 1], votingOf, id) + if votingOf(last) == id then [last] else []
  }

  /**
    The grouping loop: a row of a known voting is appended to that voting's
    list (a new list on the voting's first row); a row of an unknown voting
    is skipped.
   */
  function Collect<T>(items: seq<T>, votingOf: T -> int, known: set<int>): (r: Dict<int, seq<T>>)
    ensures r.Valid()
  {
    if |items| == 0 then Empty()
    else
      var d := Collect(items[..|items| - 1], votingOf, known);
      var x := items[|items| - 1];
      var id := votingOf(x);
      if id !in known then d
      else if id in d.entries then Set(d, id, d.entries[id] + [x])
      else Set(d, id, [x])
  }

  /** The warnings of the grouping loop: one per row of an unknown voting, in order. */
  function Strays<T>(items: seq<T>, votingOf: T -> int, known: set<int>, warn: T -> Warning): seq<Warning> {
    if |items| == 0 then []
    else
      var x := items[|items| - 1];
      Strays(items[..|items| - 1], votingOf, known, warn) + if votingOf(x) !in known then [warn(x)] else []
  }

  /**
    After grouping, exactly the known votings that have rows have an entry,
    and each entry lists all rows of its voting, in input order.
   */
  lemma {:induction false} CollectMeaning<T>(items: seq<T>, votingOf: T -> int, known: set<int>)
    ensures forall id :: id in Collect(items, votingOf, known).entries <==> id in known && RowsOf(items, votingOf, id) != []
    ensures forall id :: id in Collect(items, votingOf, known).entries ==>
      Collect(items, votingOf, known).entries[id] == RowsOf(items, votingOf, id)
  {
    if |items| > 0 {
      CollectMeaning(items[..|items| - 1], votingOf, known);
    }
  }

  /** A voting's rows are the input rows that belong to it. */
  lemma {:induction false} RowsOfMembers<T>(items: seq<T>, votingOf: T -> int, id: int)
    ensures forall x :: x in RowsOf(items, votingOf, id) <==> x in items && votingOf(x) == id
  {
    if |items| > 0 {
      var init := items[..|items| - 1];
      RowsOfMembers(init, votingOf, id);
      assert items == init + [items[|items| - 1]];
    }
  }

  /** Every stray warning comes from a row of an unknown voting, and every such row gives one. */
  lemma {:induction false} StraysMeaning<T>(items: seq<T>, votingOf: T -> int, known: set<int>, warn: T -> Warning)
    ensures forall w :: w in Strays(items, votingOf, known, warn) <==>
      exists x :: x in items && votingOf(x) !in known && w == warn(x)
  {
    if |items| > 0 {
      var init, last := items[..|items| - 1], items[|items| - 1];
      StraysMeaning(init, votingOf, known, warn);
      assert items == init + [last];
      forall w | exists x :: x in items && votingOf(x) !in known && w == warn(x)
        ensures w in Strays(items, votingOf, known, warn)
      {
        var x :| x in items && votingOf(x) !in known && w == warn(x);
        if x != last {
          assert x in init;
        }
      }
    }
  }

  /** The grouping loop, proved against Collect and Strays. */
  method CollectByVoting<T>(items: seq<T>, votingOf: T -> int, known: set<int>, warn: T -> Warning)
    returns (groups: Dict<int, seq<T>>, warnings: seq<Warning>)
    ensures groups == Collect(items, votingOf, known)
    ensures warnings == Strays(items, votingOf, known, warn)
  {
    groups, warnings := Empty(), [];
    for i := 0 to |items|
      invariant groups == Collect(items[..i], votingOf, known)
      invariant warnings == Strays(items[..i], votingOf, known, warn)
    {
      var x := items[i];
      var id := votingOf(x);
      assert items[..i + 1][..i] == items[..i];
      if id !in known {
        warnings := warnings + [warn(x)];
      } else if id in groups.entries {
        groups := Set(groups, id, groups.entries[id] + [x]);
      } else {
        groups := Set(groups, id, [x]);
      }
    }
    assert items[..|items|] == items;
  }

  /** The option lists as voting descriptions. */
  function OptionDescriptions(groups: Dict<int, seq<SchulzeOption>>): (r: map<int, Description>)
    ensures forall id :: id in r <==> id in groups.entries
    ensures forall id :: id in r ==> r[id] == Options(groups.entries[id])
  {
    map id | id in groups.entries :: Options(groups.entries[id])
  }

  /**
    `schulze_votings(votings_qs=..., options_qs=...)`: the votings in order
    and, for each voting that has options, its options; an option of an
    unknown voting gives a warning.
   */
  method SchulzeVotings(votings: seq<SchulzeVoting>, options: seq<SchulzeOption>)
    returns (res: GenericVotingResult<seq<SchulzeVote>>)
    ensures fresh(res) && res.Valid()
    ensures res.votings == FromPairs(SchulzeItems(votings)) && res.votes == Empty()
    ensures res.votingDescription ==
      OptionDescriptions(Collect(options, OptionVotingId, FromPairs(SchulzeItems(votings)).entries.Keys))
    ensures res.warnings == Strays(options, OptionVotingId, FromPairs(SchulzeItems(votings)).entries.Keys, OptionStray)
  {
    var all := FromPairs(SchulzeItems(votings));
    var byVoting, strays := CollectByVoting(options, OptionVotingId, all.entries.Keys, OptionStray);
    res := new GenericVotingResult.Of(all, Empty(), strays, OptionDescriptions(byVoting));
  }

  // ----- median_votes_for_voter (results.py:289-293) -----

  /** The votes as assignments `res.votes[vote.voting.id] = vote`. */
  function VoteItems(votes: seq<MedianVote>): (r: seq<(int, MedianVote)>)
    ensures |r| == |votes| && forall i :: 0 <= i < |votes| ==> r[i] == (votes[i].voting.id, votes[i])
  {
    seq(|votes|, i requires 0 <= i < |votes| => (votes[i].voting.id, votes[i]))
  }

  /** One warning per vote above its voting's value, in order. */
  function AboveMaximum(votes: seq<MedianVote>): seq<Warning> {
    if |votes| == 0 then []
    else
      var v := votes[|votes| - 1];
      AboveMaximum(votes[..|votes| - 1]) + if v.value > v.voting.value then [ValueAboveMaximum(v.voting.id, v.value)] else []
  }

  /** The warnings are exactly those of the votes above their voting's value. */
  lemma {:induction false} AboveMaximumMeaning(votes: seq<MedianVote>)
    ensures forall w :: w in AboveMaximum(votes) <==>
      exists v :: v in votes && v.value > v.voting.value && w == ValueAboveMaximum(v.voting.id, v.value)
  {
    if |votes| > 0 {
      var init, last := votes[..|votes| - 1], votes[|votes| - 1];
      AboveMaximumMeaning(init);
      assert votes == init + [last];
      forall w | exists v :: v in votes && v.value > v.voting.value && w == ValueAboveMaximum(v.voting.id, v.value)
        ensures w in AboveMaximum(votes)
      {
        var v :| v in votes && v.value > v.voting.value && w == ValueAboveMaximum(v.voting.id, v.value);
        if v != last {
          assert v in init;
        }
      }
    }
  }

  /**
    A vote is kept under its voting whatever its value, even above the
    voting's value: the last vote of each voting is the one stored.
   */
  lemma VoterVoteKept(votes: seq<MedianVote>, i: nat)
    requires i < |votes|
    requires forall j :: i < j < |votes| ==> votes[j].voting.id != votes[i].voting.id
    ensures votes[i].voting.id in FromPairs(VoteItems(votes)).entries
    ensures FromPairs(VoteItems(votes)).entries[votes[i].voting.id] == votes[i]
  {
    FromPairsLast(VoteItems(votes), i);
  }

  /**
    `median_votes_for_voter(collection, voter)`: all median votings with
    their values as descriptions, and the voter's votes by voting, with a
    warning for each vote above its voting's value.
   */
  method MedianVotesForVoter(votings: seq<MedianVoting>, votes: seq<MedianVote>)
    returns (res: GenericVotingResult<MedianVote>)
    ensures fresh(res) && res.Valid()
    ensures res.votings == FromPairs(MedianItems(votings))
    ensures res.votingDescription == MedianDescriptions(votings)
    ensures res.votes == FromPairs(VoteItems(votes))
    ensures res.warnings == AboveMaximum(votes)
  {
    var items := VoteItems(votes);
    var byVoting: Dict<int, MedianVote> := Empty();
    var warnings: seq<Warning> := [];
    for i := 0 to |votes|
      invariant byVoting.Valid() && byVoting == FromPairs(items[..i])
      invariant warnings == AboveMaximum(votes[..i])
    {
      var vote := votes[i];
      assert items[..i + 1][..i] == items[..i];
      assert votes[..i + 1][..i] == votes[..i];
      byVoting := Set(byVoting, vote.voting.id, vote);
      if vote.value > vote.voting.value {
        warnings := warnings + [ValueAboveMaximum(vote.voting.id, vote.value)];
      }
    }
    assert items[..|votes|] == items && votes[..|votes|] == votes;
    res := new GenericVotingResult.Of(FromPairs(MedianItems(votings)), byVoting, warnings, MedianDescriptions(votings));
  }

  // ----- schulze_votes_for_voter (results.py:346-368) -----

  /** One warning per position where the ballot votes for another option than the one at that position. */
  function Mismatches(id: int, ballot: seq<SchulzeVote>, options: seq<SchulzeOption>, n: nat): seq<Warning>
    requires n <= |ballot| && n <= |options|
  {
    if n == 0 then []
    else
      Mismatches(id, ballot, options, n - 1) +
        if ballot[n - 1].option.id != options[n - 1].id
        then [OptionMismatch(id, ballot[n - 1].option.id, options[n - 1].id)] else []
  }

  /** The positions below n where ballot and options disagree. */
  function MismatchedPositions(ballot: seq<SchulzeVote>, options: seq<SchulzeOption>, n: nat): set<nat>
    requires n <= |ballot| && n <= |options|
  {
    set k: nat | k < n && ballot[k].option.id != options[k].id
  }

  /**
    Exactly one warning per mismatched position, naming the option voted for
    and the one expected there.
   */
  lemma MismatchesMeaning(id: int, ballot: seq<SchulzeVote>, options: seq<SchulzeOption>, n: nat)
    requires n <= |ballot| && n <= |options|
    ensures |Mismatches(id, ballot, options, n)| == |MismatchedPositions(ballot, options, n)|
    ensures forall w :: w in Mismatches(id, ballot, options, n) <==>
      exists k :: 0 <= k < n && ballot[k].option.id != options[k].id && w == OptionMismatch(id, ballot[k].option.id, options[k].id)
  {
    MismatchesCount(id, ballot, options, n);
    MismatchesMembers(id, ballot, options, n);
  }

  lemma {:induction false} MismatchesCount(id: int, ballot: seq<SchulzeVote>, options: seq<SchulzeOption>, n: nat)
    requires n <= |ballot| && n <= |options|
    ensures |Mismatches(id, ballot, options, n)| == |MismatchedPositions(ballot, options, n)|
  {
    if n > 0 {
      MismatchesCount(id, ballot, options, n - 1);
      var before := MismatchedPositions(ballot, options, n - 1);
      if ballot[n - 1].option.id != options[n - 1].id {
        assert MismatchedPositions(ballot, options, n) == before + {n - 1};
        assert n - 1 !in before;
      } else {
        assert MismatchedPositions(ballot, options, n) == before;
      }
    }
  }

  lemma {:induction false} MismatchesMembers(id: int, ballot: seq<SchulzeVote>, options: seq<SchulzeOption>, n: nat)
    requires n <= |ballot| && n <= |options|
    ensures forall w :: w in Mismatches(id, ballot, options, n) <==>
      exists k :: 0 <= k < n && ballot[k].option.id != options[k].id && w == OptionMismatch(id, ballot[k].option.id, options[k].id)
  {
    if n > 0 {
      MismatchesMembers(id, ballot, options, n - 1);
      var before := Mismatches(id, ballot, options, n - 1);
      var last := n - 1;
      forall w ensures w in Mismatches(id, ballot, options, n) <==>
        exists k :: 0 <= k < n && ballot[k].option.id != options[k].id && w == OptionMismatch(id, ballot[k].option.id, options[k].id)
      {
        if w in Mismatches(id, ballot, options, n) && w !in before {
          assert 0 <= last < n && ballot[last].option.id != options[last].id && w == OptionMismatch(id, ballot[last].option.id, options[last].id);
        }
      }
    }
  }

  /** A ballot matches its options: one vote per option, each for the option at its position. */
  predicate Matches(ballot: seq<SchulzeVote>, options: seq<SchulzeOption>) {
    |ballot| == |options| && forall k :: 0 <= k < |ballot| ==> ballot[k].option.id == options[k].id
  }

  /**
    The checks of one ballot: a missing description is one warning; a length
    different from the number of options is one warning and nothing more is
    checked; otherwise one warning per mismatched position.
   */
  function BallotCheck(id: int, ballot: seq<SchulzeVote>, desc: map<int, seq<SchulzeOption>>): seq<Warning> {
    if id !in desc then [NoDescription(id)]
    else if |ballot| != |desc[id]| then [BallotLength(id, |desc[id]|, |ballot|)]
    else Mismatches(id, ballot, desc[id], |ballot|)
  }

  /** A ballot passes without a warning exactly when its voting is described and the ballot matches. */
  lemma BallotCheckPasses(id: int, ballot: seq<SchulzeVote>, desc: map<int, seq<SchulzeOption>>)
    ensures BallotCheck(id, ballot, desc) == [] <==> id in desc && Matches(ballot, desc[id])
  {
    if id in desc && |ballot| == |desc[id]| {
      var options := desc[id];
      MismatchesMeaning(id, ballot, options, |ballot|);
      if !Matches(ballot, options) {
        var k :| 0 <= k < |ballot| && ballot[k].option.id != options[k].id;
        assert OptionMismatch(id, ballot[k].option.id, options[k].id) in Mismatches(id, ballot, options, |ballot|);
      }
    }
  }

  /** The checks of all ballots in the order of `res.votes.items()`. */
  function BallotChecks(items: seq<(int, seq<SchulzeVote>)>, desc: map<int, seq<SchulzeOption>>): seq<Warning> {
    if |items| == 0 then []
    else BallotChecks(items[..|items| - 1], desc) + BallotCheck(items[|items| - 1].0, items[|items| - 1].1, desc)
  }

  /** The sanity loop: warnings only; every ballot stays in `res.votes`. */
  method CheckBallots(res: GenericVotingResult<seq<SchulzeVote>>, desc: map<int, seq<SchulzeOption>>)
    requires res.Valid()
    modifies res`warnings
    ensures res.warnings == old(res.warnings) + BallotChecks(res.votes.Items(), desc)
  {
    var items := res.votes.Items();
    for i := 0 to |items|
      invariant res.warnings == old(res.warnings) + BallotChecks(items[..i], desc)
    {
      assert items[..i + 1][..i] == items[..i];
      CheckBallot(res, items[i].0, items[i].1, desc);
      Assoc(old(res.warnings), BallotChecks(items[..i], desc), BallotCheck(items[i].0, items[i].1, desc));
    }
    assert items[..|items|] == items;
  }

  /** The checks of one stored ballot, in the order the loop makes them. */
  method CheckBallot(res: GenericVotingResult<seq<SchulzeVote>>, id: int, ballot: seq<SchulzeVote>, desc: map<int, seq<SchulzeOption>>)
    modifies res`warnings
    ensures res.warnings == old(res.warnings) + BallotCheck(id, ballot, desc)
  {
    if id !in desc {
      res.warnings := res.warnings + [NoDescription(id)];
    } else {
      var options := desc[id];
      if |ballot| != |options| {
        res.warnings := res.warnings + [BallotLength(id, |options|, |ballot|)];
      } else {
        for k := 0 to |ballot|
          invariant res.warnings == old(res.warnings) + Mismatches(id, ballot, options, k)
        {
          if ballot[k].option.id != options[k].id {
            res.warnings := res.warnings + [OptionMismatch(id, ballot[k].option.id, options[k].id)];
          }
        }
      }
    }
  }

  /**
    `schulze_votes_for_voter(collection, voter)`: the Schulze votings with
    their options, the voter's votes grouped by voting, and the warnings of
    the grouping and of the sanity checks. No ballot is removed.
   */
  method SchulzeVotesForVoter(votings: seq<SchulzeVoting>, options: seq<SchulzeOption>, votes: seq<SchulzeVote>)
    returns (res: GenericVotingResult<seq<SchulzeVote>>)
    ensures fresh(res) && res.Valid()
    ensures var known := FromPairs(SchulzeItems(votings)).entries.Keys;
      var groups := Collect(options, OptionVotingId, known);
      && res.votings == FromPairs(SchulzeItems(votings))
      && res.votingDescription == OptionDescriptions(groups)
      && res.votes == Collect(votes, VoteVotingId, known)
      && res.warnings == Strays(options, OptionVotingId, known, OptionStray)
           + Strays(votes, VoteVotingId, known, VoteStray)
           + BallotChecks(Collect(votes, VoteVotingId, known).Items(), groups.entries)
  {
    var all := FromPairs(SchulzeItems(votings));
    var known := all.entries.Keys;
    var byVoting, optionStrays := CollectByVoting(options, OptionVotingId, known, OptionStray);
    var ballots, voteStrays := CollectByVoting(votes, VoteVotingId, known, VoteStray);
    res := new GenericVotingResult.Of(all, ballots, optionStrays + voteStrays, OptionDescriptions(byVoting));
    CheckBallots(res, byVoting.entries);
  }
}
