/**
  The handlers behind the single-voter entry form: `__handle_enter_median`
  and `__handle_enter_schulze` insert, update or delete the stored votes of
  one voter for one voting and append a warning to the form's result when
  they refuse to.

  The two vote tables are maps from primary key to row, kept in a
  `VoteStore` together with the next primary key `objects.create` hands out
  and the log of writes issued so far. `Tables` is the same state as a
  value: the specification functions `EnterMedian` and `EnterSchulze` say
  what one handler call does to it, the handler methods are proved to do
  exactly that, and the lemmas state what the handlers promise.
 */
module VoteEntry {
  import opened Wrappers
  import opened OrderedDicts
  import opened Results
  import Fields
  import SchulzeEvaluation

  /** A database write, in the order the handlers issue them. */
  datatype Write =
    | SaveValue(voteId: int)
    | CreateMedianVote(voteId: int)
    | DeleteMedianVote(voteId: int)
    | SaveSortingPosition(voteId: int)
    | CreateSchulzeVote(voteId: int)
    | DeleteSchulzeVote(voteId: int)

  /** Both vote tables by primary key, the next key to hand out, and the writes so far. */
  datatype Tables = Tables(median: map<int, MedianVote>, schulze: map<int, SchulzeVote>, nextId: int, log: seq<Write>)

  /** Every key in use lies below the next one `create` hands out. */
  predicate FreshKeys(t: Tables) {
    (forall id :: id in t.median ==> id < t.nextId) && (forall id :: id in t.schulze ==> id < t.nextId)
  }

  // ----- single rows -----

  /** `entry.value = value; entry.save(update_fields=['value'])`: only that column of that row is written. */
  function SaveValueRow(t: Tables, id: int, value: nat): Tables
    requires id in t.median
  {
    t.(median := t.median[id := t.median[id].(value := value)], log := t.log + [SaveValue(id)])
  }

  /** `MedianVote.objects.create(value=value, voter=voter, voting=voting)`. */
  function CreateMedianRow(t: Tables, voterId: int, voting: MedianVoting, value: nat): Tables {
    t.(median := t.median[t.nextId := MedianVote(t.nextId, voterId, voting, value)],
       nextId := t.nextId + 1, log := t.log + [CreateMedianVote(t.nextId)])
  }

  /** `vote.delete()` on a median vote. */
  function DeleteMedianRow(t: Tables, id: int): Tables {
    t.(median := t.median - {id}, log := t.log + [DeleteMedianVote(id)])
  }

  /** `vote.sorting_position = pos; vote.save(update_fields=['sorting_position'])`. */
  function SavePositionRow(t: Tables, id: int, pos: int): Tables
    requires id in t.schulze
  {
    t.(schulze := t.schulze[id := t.schulze[id].(sortingPosition := pos)], log := t.log + [SaveSortingPosition(id)])
  }

  /** `SchulzeVote.objects.create(sorting_position=pos, voter=voter, option=option)`. */
  function CreateSchulzeRow(t: Tables, voterId: int, option: SchulzeOption, pos: int): Tables {
    t.(schulze := t.schulze[t.nextId := SchulzeVote(t.nextId, voterId, option, pos)],
       nextId := t.nextId + 1, log := t.log + [CreateSchulzeVote(t.nextId)])
  }

  /** `vote.delete()` on a Schulze vote. */
  function DeleteSchulzeRow(t: Tables, id: int): Tables {
    t.(schulze := t.schulze - {id}, log := t.log + [DeleteSchulzeVote(id)])
  }

  // ----- whole ballots -----

  /** The primary keys of a ballot's rows. */
  function BallotIds(ballot: seq<SchulzeVote>): set<int> {
    set k | 0 <= k < |ballot| :: ballot[k].id
  }

  /** `for vote in votes: vote.delete()`. */
  function DeleteBallot(t: Tables, ballot: seq<SchulzeVote>): Tables
    decreases |ballot|
  {
    if |ballot| == 0 then t
    else DeleteSchulzeRow(DeleteBallot(t, ballot[..|ballot| - 1]), ballot[|ballot| - 1].id)
  }

  /** `for vote, new_pos in zip(current_votes, val)`: a save for each position that differs. */
  function Reposition(t: Tables, ballot: seq<SchulzeVote>, val: seq<nat>): (r: Tables)
    requires |ballot| == |val| && forall k :: 0 <= k < |ballot| ==> ballot[k].id in t.schulze
    ensures r.schulze.Keys == t.schulze.Keys && r.median == t.median && r.nextId == t.nextId
    decreases |ballot|
  {
    if |ballot| == 0 then t
    else
      var n := |ballot| - 1;
      var s := Reposition(t, ballot[..n], val[..n]);
      if ballot[n].sortingPosition != val[n] then SavePositionRow(s, ballot[n].id, val[n]) else s
  }

  /** `for option, ranking_pos in zip(voting_options, val)`: one new row per option. */
  function InsertBallot(t: Tables, voterId: int, options: seq<SchulzeOption>, val: seq<nat>): (r: Tables)
    requires |options| == |val|
    ensures r.nextId == t.nextId + |options| && r.median == t.median
    decreases |options|
  {
    if |options| == 0 then t
    else
      var n := |options| - 1;
      CreateSchulzeRow(InsertBallot(t, voterId, options[..n], val[..n]), voterId, options[n], val[n])
  }

  // ----- the sanity check of a stored ballot -----

  /** The first position at or after i where the stored ballot votes for another option than expected. */
  function MismatchFrom(current: seq<SchulzeVote>, options: seq<SchulzeOption>, i: nat): (r: Option<nat>)
    requires |current| == |options| && i <= |current|
    ensures r.Some? ==> i <= r.value < |current| && current[r.value].option.id != options[r.value].id
    ensures r.Some? ==> forall j :: i <= j < r.value ==> current[j].option.id == options[j].id
    ensures r.None? ==> forall j :: i <= j < |current| ==> current[j].option.id == options[j].id
    decreases |current| - i
  {
    if i == |current| then None
    else if current[i].option.id != options[i].id then Some(i)
    else MismatchFrom(current, options, i + 1)
  }

  /** `for vote, option in zip(current_votes, voting_options): if vote.option != option`. */
  function FirstMismatch(current: seq<SchulzeVote>, options: seq<SchulzeOption>): Option<nat>
    requires |current| == |options|
  {
    MismatchFrom(current, options, 0)
  }

  /**
    The warning after a stored ballot was deleted because its entry k is for
    the wrong option: the voting, the option voted for at k and the one
    expected there.
   */
  function MismatchWarning(vId: int, current: seq<SchulzeVote>, options: seq<SchulzeOption>, k: nat): Warning
    requires k < |current| && k < |options|
  {
    StoredBallotDeleted(vId, current[k].option.id, options[k].id)
  }

  /**
    The same warning as the source builds it: the inner
    `for vote in current_votes: vote.delete()` rebinds `vote`, so the option
    reported is that of the last stored entry, not of the mismatched one.
   */
  function MismatchWarningAsWritten(vId: int, current: seq<SchulzeVote>, options: seq<SchulzeOption>, k: nat): Warning
    requires k < |current| && k < |options|
  {
    StoredBallotDeleted(vId, current[|current| - 1].option.id, options[k].id)
  }

  /** The corrected warning always names two different options. */
  lemma MismatchWarningNamesMismatch(vId: int, current: seq<SchulzeVote>, options: seq<SchulzeOption>)
    requires |current| == |options| && FirstMismatch(current, options).Some?
    ensures var w := MismatchWarning(vId, current, options, FirstMismatch(current, options).value);
      w.votingId == vId && w.gotOption != w.expectedOption
  {
  }

  /**
    A ballot stored in swapped order: the first entry is wrong, and the
    warning as written claims option 10 was given instead of option 10.
   */
  lemma MismatchWarningAsWrittenExample()
    ensures var a := SchulzeOption(10, 1, "A", 0);
      var b := SchulzeOption(11, 1, "B", 1);
      var current := [SchulzeVote(20, 5, b, 1), SchulzeVote(21, 5, a, 0)];
      FirstMismatch(current, [a, b]) == Some(0) &&
      MismatchWarningAsWritten(1, current, [a, b], 0) == StoredBallotDeleted(1, 10, 10) &&
      MismatchWarning(1, current, [a, b], 0) == StoredBallotDeleted(1, 11, 10)
  {
    var a := SchulzeOption(10, 1, "A", 0);
    var b := SchulzeOption(11, 1, "B", 1);
    var current := [SchulzeVote(20, 5, b, 1), SchulzeVote(21, 5, a, 0)];
    assert current[0].option.id != [a, b][0].id;
  }

  // ----- the handlers as functions on values -----

  /** Every voting of the median result is a median voting. */
  predicate MedianOnly(votings: Dict<int, Voting>) {
    forall id :: id in votings.entries ==> votings.entries[id].Median?
  }

  /** The votes of the result are this voter's rows, as read from the table. */
  predicate MedianLoaded(t: Tables, votes: Dict<int, MedianVote>, voterId: int) {
    forall vid :: vid in votes.entries ==>
      votes.entries[vid].id in t.median && t.median[votes.entries[vid].id] == votes.entries[vid] &&
      votes.entries[vid].voterId == voterId
  }

  /** The ballots of the result are this voter's rows, as read from the table, each row once. */
  predicate SchulzeLoaded(t: Tables, votes: Dict<int, seq<SchulzeVote>>, voterId: int) {
    forall vid :: vid in votes.entries ==> BallotLoaded(t, votes.entries[vid], voterId)
  }

  predicate BallotLoaded(t: Tables, ballot: seq<SchulzeVote>, voterId: int) {
    BallotRows(t, ballot) && forall k :: 0 <= k < |ballot| ==> ballot[k].voterId == voterId
  }

  /** Each entry of the ballot is the stored row with its key, and no row occurs twice. */
  predicate BallotRows(t: Tables, ballot: seq<SchulzeVote>) {
    (forall k :: 0 <= k < |ballot| ==> ballot[k].id in t.schulze && t.schulze[ballot[k].id] == ballot[k]) &&
    (forall j, k :: 0 <= j < k < |ballot| ==> ballot[j].id != ballot[k].id)
  }

  /** `__handle_enter_median(result, v_id, val, voter)`: the new tables and the warnings appended. */
  function EnterMedian(t: Tables, votings: Dict<int, Voting>, votes: Dict<int, MedianVote>, vId: int, val: Option<Fields.Amount>, voterId: int): (Tables, seq<Warning>)
    requires MedianOnly(votings) && MedianLoaded(t, votes, voterId)
    requires val.Some? ==> val.value.value >= 0
  {
    if vId !in votings.entries then (t, [UnknownVoting(vId)])
    else match val
      case None => (if vId in votes.entries then DeleteMedianRow(t, votes.entries[vId].id) else t, [])
      case Some(amount) =>
        if vId in votes.entries then
          var entry := votes.entries[vId];
          (if entry.value != amount.value then SaveValueRow(t, entry.id, amount.value) else t, [])
        else (CreateMedianRow(t, voterId, votings.entries[vId].median, amount.value), [])
  }

  /** `__handle_enter_schulze(result, v_id, val, voter)`: the new tables and the warnings appended. */
  function EnterSchulze(t: Tables, votings: Dict<int, Voting>, votes: Dict<int, seq<SchulzeVote>>, desc: map<int, Description>,
                        vId: int, val: Option<seq<nat>>, voterId: int): (Tables, seq<Warning>)
    requires SchulzeEvaluation.SchulzeDescribed(desc) && SchulzeLoaded(t, votes, voterId)
  {
    if vId !in votings.entries then (t, [UnknownVoting(vId)])
    else if val.None? then (if vId in votes.entries then DeleteBallot(t, votes.entries[vId]) else t, [])
    else if vId !in desc then (t, [NoOptions(vId)])
    else
      var options := desc[vId].options;
      if |val.value| != |options| then (t, [InvalidRanking(vId)])
      else if vId in votes.entries then
        var current := votes.entries[vId];
        if |current| != |options| then (t, [BallotLength(vId, |options|, |current|)])
        else match FirstMismatch(current, options)
          case Some(k) => (DeleteBallot(t, current), [MismatchWarning(vId, current, options, k)])
          case None => (Reposition(t, current, val.value), [])
      else (InsertBallot(t, voterId, options, val.value), [])
  }

  // ----- what the ballot operations do -----

  /** Deleting a ballot removes exactly its rows, one delete per entry in order, and nothing else. */
  lemma {:induction false} DeleteBallotMeaning(t: Tables, ballot: seq<SchulzeVote>)
    ensures var r := DeleteBallot(t, ballot);
      r.schulze == t.schulze - BallotIds(ballot) && r.median == t.median && r.nextId == t.nextId &&
      |r.log| == |t.log| + |ballot| && r.log[..|t.log|] == t.log &&
      forall k :: 0 <= k < |ballot| ==> r.log[|t.log| + k] == DeleteSchulzeVote(ballot[k].id)
    decreases |ballot|
  {
    if |ballot| > 0 {
      var n := |ballot| - 1;
      DeleteBallotMeaning(t, ballot[..n]);
      var s := DeleteBallot(t, ballot[..n]);
      assert BallotIds(ballot) == BallotIds(ballot[..n]) + {ballot[n].id} by {
        forall x | x in BallotIds(ballot) ensures x in BallotIds(ballot[..n]) + {ballot[n].id} {
          var k :| 0 <= k < |ballot| && ballot[k].id == x;
          if k < n {
            assert ballot[..n][k].id == x;
          }
        }
        forall x | x in BallotIds(ballot[..n]) ensures x in BallotIds(ballot) {
          var k :| 0 <= k < n && ballot[..n][k].id == x;
          assert ballot[k].id == x;
        }
      }
      forall k | 0 <= k < |ballot| ensures DeleteBallot(t, ballot).log[|t.log| + k] == DeleteSchulzeVote(ballot[k].id) {
        if k < n {
          assert ballot[..n][k] == ballot[k];
        }
      }
    }
  }

  /**
    Repositioning a loaded ballot of distinct rows gives each of its rows
    the new position and changes no other row; a position is saved exactly
    when it differs from the stored one.
   */
  lemma {:induction false} RepositionMeaning(t: Tables, ballot: seq<SchulzeVote>, val: seq<nat>)
    requires |ballot| == |val| && BallotRows(t, ballot)
    ensures var r := Reposition(t, ballot, val);
      (forall k :: 0 <= k < |ballot| ==> r.schulze[ballot[k].id] == ballot[k].(sortingPosition := val[k])) &&
      (forall id :: id in t.schulze && id !in BallotIds(ballot) ==> r.schulze[id] == t.schulze[id]) &&
      |t.log| <= |r.log| && r.log[..|t.log|] == t.log &&
      (forall k :: 0 <= k < |ballot| ==> (SaveSortingPosition(ballot[k].id) in r.log[|t.log|..] <==> ballot[k].sortingPosition != val[k])) &&
      (forall w :: w in r.log[|t.log|..] ==> w.SaveSortingPosition? && w.voteId in BallotIds(ballot))
    decreases |ballot|
  {
    if |ballot| > 0 {
      var n := |ballot| - 1;
      var front, fval := ballot[..n], val[..n];
      assert BallotRows(t, front) by {
        forall j, k | 0 <= j < k < n ensures front[j].id != front[k].id {
          assert front[j] == ballot[j] && front[k] == ballot[k];
        }
      }
      RepositionMeaning(t, front, fval);
      var s := Reposition(t, front, fval);
      var r := Reposition(t, ballot, val);
      forall j | 0 <= j < n ensures front[j].id != ballot[n].id {
        assert front[j] == ballot[j];
      }
      assert ballot[n].id !in BallotIds(front);
      assert s.schulze[ballot[n].id] == ballot[n];
      RepositionStep(t, s, r, ballot, val, n);
    }
  }

  /** The last step of the induction above. */
  lemma RepositionStep(t: Tables, s: Tables, r: Tables, ballot: seq<SchulzeVote>, val: seq<nat>, n: nat)
    requires |ballot| == |val| == n + 1 && forall k :: 0 <= k <= n ==> ballot[k].id in t.schulze
    requires s.schulze.Keys == t.schulze.Keys
    requires r == (if ballot[n].sortingPosition != val[n] then SavePositionRow(s, ballot[n].id, val[n]) else s)
    requires r.schulze.Keys == t.schulze.Keys
    requires s.schulze[ballot[n].id] == ballot[n] && ballot[n].id !in BallotIds(ballot[..n])
    requires forall k :: 0 <= k < n ==> s.schulze[ballot[..n][k].id] == ballot[..n][k].(sortingPosition := val[..n][k])
    requires forall id :: id in t.schulze && id !in BallotIds(ballot[..n]) ==> s.schulze[id] == t.schulze[id]
    requires |t.log| <= |s.log| && s.log[..|t.log|] == t.log
    requires forall k :: 0 <= k < n ==> (SaveSortingPosition(ballot[..n][k].id) in s.log[|t.log|..] <==> ballot[..n][k].sortingPosition != val[..n][k])
    requires forall w :: w in s.log[|t.log|..] ==> w.SaveSortingPosition? && w.voteId in BallotIds(ballot[..n])
    ensures forall k :: 0 <= k < |ballot| ==> r.schulze[ballot[k].id] == ballot[k].(sortingPosition := val[k])
    ensures forall id :: id in t.schulze && id !in BallotIds(ballot) ==> r.schulze[id] == t.schulze[id]
    ensures |t.log| <= |r.log| && r.log[..|t.log|] == t.log
    ensures forall k :: 0 <= k < |ballot| ==> (SaveSortingPosition(ballot[k].id) in r.log[|t.log|..] <==> ballot[k].sortingPosition != val[k])
    ensures forall w :: w in r.log[|t.log|..] ==> w.SaveSortingPosition? && w.voteId in BallotIds(ballot)
  {
    BallotIdsPrefix(ballot, n);
    RepositionRowsStep(t, s, r, ballot, val, n);
    RepositionLogStep(t, s, r, ballot, val, n);
  }

  lemma BallotIdsPrefix(ballot: seq<SchulzeVote>, n: nat)
    requires n <= |ballot|
    ensures BallotIds(ballot[..n]) <= BallotIds(ballot)
    ensures forall k :: 0 <= k < n ==> ballot[..n][k] == ballot[k]
  {
    var front := ballot[..n];
    forall x | x in BallotIds(front) ensures x in BallotIds(ballot) {
      var k :| 0 <= k < n && front[k].id == x;
      assert ballot[k].id == x;
    }
  }

  /**
    One turn of the repositioning loop: r is s after the turn for ballot
    entry n, and the first n entries are a prefix of the ballot.
   */
  ghost predicate RepositionTurn(t: Tables, s: Tables, r: Tables, ballot: seq<SchulzeVote>, val: seq<nat>, n: nat) {
    && |ballot| == |val| == n + 1 && (forall k :: 0 <= k <= n ==> ballot[k].id in t.schulze)
    && s.schulze.Keys == t.schulze.Keys
    && r == (if ballot[n].sortingPosition != val[n] then SavePositionRow(s, ballot[n].id, val[n]) else s)
    && BallotIds(ballot[..n]) <= BallotIds(ballot)
    && (forall k :: 0 <= k < n ==> ballot[..n][k] == ballot[k])
  }

  lemma RepositionRowsStep(t: Tables, s: Tables, r: Tables, ballot: seq<SchulzeVote>, val: seq<nat>, n: nat)
    requires RepositionTurn(t, s, r, ballot, val, n)
    requires r.schulze.Keys == t.schulze.Keys
    requires s.schulze[ballot[n].id] == ballot[n] && ballot[n].id !in BallotIds(ballot[..n])
    requires forall k :: 0 <= k < n ==> s.schulze[ballot[..n][k].id] == ballot[..n][k].(sortingPosition := val[..n][k])
    requires forall id :: id in t.schulze && id !in BallotIds(ballot[..n]) ==> s.schulze[id] == t.schulze[id]
    ensures forall k :: 0 <= k < |ballot| ==> r.schulze[ballot[k].id] == ballot[k].(sortingPosition := val[k])
    ensures forall id :: id in t.schulze && id !in BallotIds(ballot) ==> r.schulze[id] == t.schulze[id]
  {
    var front := ballot[..n];
    assert forall k :: 0 <= k < n ==> val[..n][k] == val[k];
    assert forall k :: 0 <= k < n ==> front[k].id in BallotIds(front);
  }

  lemma RepositionLogStep(t: Tables, s: Tables, r: Tables, ballot: seq<SchulzeVote>, val: seq<nat>, n: nat)
    requires RepositionTurn(t, s, r, ballot, val, n)
    requires ballot[n].id !in BallotIds(ballot[..n])
    requires |t.log| <= |s.log| && s.log[..|t.log|] == t.log
    requires forall k :: 0 <= k < n ==> (SaveSortingPosition(ballot[..n][k].id) in s.log[|t.log|..] <==> ballot[..n][k].sortingPosition != val[..n][k])
    requires forall w :: w in s.log[|t.log|..] ==> w.SaveSortingPosition? && w.voteId in BallotIds(ballot[..n])
    ensures |t.log| <= |r.log| && r.log[..|t.log|] == t.log
    ensures forall k :: 0 <= k < |ballot| ==> (SaveSortingPosition(ballot[k].id) in r.log[|t.log|..] <==> ballot[k].sortingPosition != val[k])
    ensures forall w :: w in r.log[|t.log|..] ==> w.SaveSortingPosition? && w.voteId in BallotIds(ballot)
  {
    assert forall k :: 0 <= k < n ==> val[..n][k] == val[k];
    var added := r.log[|t.log|..];
    if ballot[n].sortingPosition != val[n] {
      assert added == s.log[|t.log|..] + [SaveSortingPosition(ballot[n].id)];
    } else {
      assert added == s.log[|t.log|..];
      assert SaveSortingPosition(ballot[n].id) !in added;
    }
  }


  /** Inserting a ballot adds one fresh row per option, in order, and changes no other row. */
  lemma {:induction false} InsertBallotMeaning(t: Tables, voterId: int, options: seq<SchulzeOption>, val: seq<nat>)
    requires |options| == |val| && FreshKeys(t)
    ensures var r := InsertBallot(t, voterId, options, val);
      FreshKeys(r) &&
      (forall k :: 0 <= k < |options| ==> t.nextId + k in r.schulze && r.schulze[t.nextId + k] == SchulzeVote(t.nextId + k, voterId, options[k], val[k])) &&
      (forall id :: id in r.schulze <==> id in t.schulze || t.nextId <= id < t.nextId + |options|) &&
      (forall id :: id in t.schulze ==> r.schulze[id] == t.schulze[id])
    decreases |options|
  {
    if |options| > 0 {
      var n := |options| - 1;
      InsertBallotMeaning(t, voterId, options[..n], val[..n]);
      var s := InsertBallot(t, voterId, options[..n], val[..n]);
      var r := CreateSchulzeRow(s, voterId, options[n], val[n]);
      assert s.nextId == t.nextId + n;
      forall k | 0 <= k < |options|
        ensures t.nextId + k in r.schulze && r.schulze[t.nextId + k] == SchulzeVote(t.nextId + k, voterId, options[k], val[k])
      {
        if k < n {
          assert options[..n][k] == options[k] && val[..n][k] == val[k];
        }
      }
    }
  }

  // ----- what the handlers promise -----

  /** The rows of the voter's ballot for vId after an accepted ranking: the stored ones, or the n rows `create` adds. */
  predicate BallotKey(t: Tables, votes: Dict<int, seq<SchulzeVote>>, vId: int, n: nat, id: int) {
    if vId in votes.entries then id in BallotIds(votes.entries[vId]) else t.nextId <= id < t.nextId + n
  }

  /** The row the median handler writes for voting vId: the stored vote's, or the one `create` adds. */
  function MedianTarget(t: Tables, votes: Dict<int, MedianVote>, vId: int): int {
    if vId in votes.entries then votes.entries[vId].id else t.nextId
  }

  /** Rows other than `except` are kept as they were, and no row appears besides `except`. */
  predicate RowsKept<R(==)>(before: map<int, R>, after: map<int, R>, except: int) {
    (forall id :: id in before && id != except ==> id in after && after[id] == before[id]) &&
    (forall id :: id in after && id != except ==> id in before)
  }

  /**
    An unknown voting gives one warning and no change; otherwise no warning.
    A missing value removes the voter's vote; a value is stored in the
    voter's row for the voting, created when there is none. No other row
    changes, and nothing is written exactly when the voting is unknown, or
    there is nothing to delete, or the stored value is already the new one.
   */
  lemma EnterMedianMeaning(t: Tables, votings: Dict<int, Voting>, votes: Dict<int, MedianVote>, vId: int, val: Option<Fields.Amount>, voterId: int)
    requires MedianOnly(votings) && MedianLoaded(t, votes, voterId) && FreshKeys(t)
    requires val.Some? ==> val.value.value >= 0
    ensures var (r, warnings) := EnterMedian(t, votings, votes, vId, val, voterId);
      var target := MedianTarget(t, votes, vId);
      && (vId !in votings.entries ==> r == t && warnings == [UnknownVoting(vId)])
      && (vId in votings.entries ==> warnings == [] && RowsKept(t.median, r.median, target) && r.schulze == t.schulze)
      && (vId in votings.entries && val.None? ==> target !in r.median)
      && (vId in votings.entries && val.Some? ==>
            target in r.median && r.median[target].value == val.value.value && r.median[target].voterId == voterId)
      && (r.log == t.log <==>
            vId !in votings.entries || (val.None? && vId !in votes.entries) ||
            (val.Some? && vId in votes.entries && votes.entries[vId].value == val.value.value))
      && FreshKeys(r)
  {
  }

  /**
    The Schulze handler refuses, with exactly one warning and no change to
    the tables, an unknown voting, a voting without options, a ranking of
    the wrong length and a stored ballot of the wrong length.
   */
  lemma EnterSchulzeRefusals(t: Tables, votings: Dict<int, Voting>, votes: Dict<int, seq<SchulzeVote>>, desc: map<int, Description>,
                             vId: int, val: Option<seq<nat>>, voterId: int)
    requires SchulzeEvaluation.SchulzeDescribed(desc) && SchulzeLoaded(t, votes, voterId)
    ensures var (r, warnings) := EnterSchulze(t, votings, votes, desc, vId, val, voterId);
      && (vId !in votings.entries ==> r == t && warnings == [UnknownVoting(vId)])
      && (vId in votings.entries && val.Some? && vId !in desc ==> r == t && warnings == [NoOptions(vId)])
      && (vId in votings.entries && val.Some? && vId in desc && |val.value| != |desc[vId].options| ==>
            r == t && warnings == [InvalidRanking(vId)])
      && (vId in votings.entries && val.Some? && vId in desc && |val.value| == |desc[vId].options| &&
          vId in votes.entries && |votes.entries[vId]| != |desc[vId].options| ==>
            r == t && warnings == [BallotLength(vId, |desc[vId].options|, |votes.entries[vId]|)])
  {
  }

  /**
    A missing ranking deletes every stored entry of the voting, and a stored
    ballot with an entry for the wrong option is deleted whole with exactly
    one warning naming the first wrong entry; no other row changes.
   */
  lemma EnterSchulzeDeletes(t: Tables, votings: Dict<int, Voting>, votes: Dict<int, seq<SchulzeVote>>, desc: map<int, Description>,
                            vId: int, val: Option<seq<nat>>, voterId: int)
    requires SchulzeEvaluation.SchulzeDescribed(desc) && SchulzeLoaded(t, votes, voterId)
    requires vId in votings.entries && vId in votes.entries
    requires val.None? || (vId in desc && |val.value| == |desc[vId].options| == |votes.entries[vId]| &&
                           FirstMismatch(votes.entries[vId], desc[vId].options).Some?)
    ensures var (r, warnings) := EnterSchulze(t, votings, votes, desc, vId, val, voterId);
      && r.schulze == t.schulze - BallotIds(votes.entries[vId]) && r.median == t.median
      && (val.None? ==> warnings == [])
      && (val.Some? ==>
            |warnings| == 1 && warnings[0].StoredBallotDeleted? &&
            (exists k :: 0 <= k < |votes.entries[vId]| && warnings[0] == MismatchWarning(vId, votes.entries[vId], desc[vId].options, k)) &&
            warnings[0].gotOption != warnings[0].expectedOption)
  {
    DeleteBallotMeaning(t, votes.entries[vId]);
    if val.Some? {
      var options := desc[vId].options;
      var k := FirstMismatch(votes.entries[vId], options).value;
      MismatchWarningNamesMismatch(vId, votes.entries[vId], options);
      assert EnterSchulze(t, votings, votes, desc, vId, val, voterId).1[0] == MismatchWarning(vId, votes.entries[vId], options, k);
    }
  }

  /**
    Entry k of the voter's ballot for vId, updated in place or newly
    created, holds option k with position vals[k] for that voter; rows of
    other ballots are kept, and nothing else is added or removed.
   */
  ghost predicate BallotStored(t: Tables, r: Tables, votes: Dict<int, seq<SchulzeVote>>, vId: int,
                               options: seq<SchulzeOption>, vals: seq<nat>, voterId: int)
    requires |vals| == |options|
    requires vId in votes.entries ==> |votes.entries[vId]| == |options|
  {
    && (forall id :: id in r.schulze && !BallotKey(t, votes, vId, |options|, id) ==> id in t.schulze && r.schulze[id] == t.schulze[id])
    && (forall id :: id in t.schulze && !BallotKey(t, votes, vId, |options|, id) ==> id in r.schulze)
    && forall k :: 0 <= k < |options| ==>
         var id := if vId in votes.entries then votes.entries[vId][k].id else t.nextId + k;
         id in r.schulze && r.schulze[id].option.id == options[k].id &&
         r.schulze[id].sortingPosition == vals[k] && r.schulze[id].voterId == voterId
  }

  /**
    An accepted ranking is stored in option order: entry k of the voter's
    ballot, updated in place or newly created, holds option k with position
    val[k]. Rows of other ballots do not change.
   */
  lemma EnterSchulzeStores(t: Tables, votings: Dict<int, Voting>, votes: Dict<int, seq<SchulzeVote>>, desc: map<int, Description>,
                           vId: int, val: Option<seq<nat>>, voterId: int)
    requires SchulzeEvaluation.SchulzeDescribed(desc) && SchulzeLoaded(t, votes, voterId) && FreshKeys(t)
    requires vId in votings.entries && val.Some? && vId in desc && |val.value| == |desc[vId].options|
    requires vId in votes.entries ==>
      |votes.entries[vId]| == |desc[vId].options| && FirstMismatch(votes.entries[vId], desc[vId].options).None?
    ensures var (r, warnings) := EnterSchulze(t, votings, votes, desc, vId, val, voterId);
      && warnings == [] && r.median == t.median && FreshKeys(r)
      && BallotStored(t, r, votes, vId, desc[vId].options, val.value, voterId)
  {
    var options := desc[vId].options;
    if vId in votes.entries {
      BallotUpdated(t, votes, vId, options, val.value, voterId);
    } else {
      BallotInserted(t, votes, vId, options, val.value, voterId);
    }
  }

  lemma BallotUpdated(t: Tables, votes: Dict<int, seq<SchulzeVote>>, vId: int, options: seq<SchulzeOption>, vals: seq<nat>, voterId: int)
    requires SchulzeLoaded(t, votes, voterId) && FreshKeys(t) && |vals| == |options|
    requires vId in votes.entries && |votes.entries[vId]| == |options| && FirstMismatch(votes.entries[vId], options).None?
    ensures var r := Reposition(t, votes.entries[vId], vals);
      r.median == t.median && FreshKeys(r) && BallotStored(t, r, votes, vId, options, vals, voterId)
  {
    var current := votes.entries[vId];
    RepositionMeaning(t, current, vals);
    var r := Reposition(t, current, vals);
    forall k | 0 <= k < |options| ensures r.schulze[current[k].id].option.id == options[k].id {
      assert current[k].option.id == options[k].id;
    }
    assert FreshKeys(r) by {
      assert r.schulze.Keys == t.schulze.Keys;
    }
  }

  lemma BallotInserted(t: Tables, votes: Dict<int, seq<SchulzeVote>>, vId: int, options: seq<SchulzeOption>, vals: seq<nat>, voterId: int)
    requires FreshKeys(t) && |vals| == |options| && vId !in votes.entries
    ensures var r := InsertBallot(t, voterId, options, vals);
      r.median == t.median && FreshKeys(r) && BallotStored(t, r, votes, vId, options, vals, voterId)
  {
    InsertBallotMeaning(t, voterId, options, vals);
  }

  // ----- the store and the handlers -----

  /** The vote tables, changed row by row as the ORM calls of the handlers do. */
  class VoteStore {
    var median: map<int, MedianVote>
    var schulze: map<int, SchulzeVote>
    var nextId: int
    var log: seq<Write>

    function State(): Tables
      reads this
    {
      Tables(median, schulze, nextId, log)
    }

    constructor (t: Tables)
      ensures State() == t
    {
      median, schulze, nextId, log := t.median, t.schulze, t.nextId, t.log;
    }

    method UpdateValue(id: int, value: nat)
      requires id in median
      modifies this
      ensures State() == SaveValueRow(old(State()), id, value)
    {
      median := median[id := median[id].(value := value)];
      log := log + [SaveValue(id)];
    }

    method CreateMedian(voterId: int, voting: MedianVoting, value: nat)
      modifies this
      ensures State() == CreateMedianRow(old(State()), voterId, voting, value)
    {
      median := median[nextId := MedianVote(nextId, voterId, voting, value)];
      log := log + [CreateMedianVote(nextId)];
      nextId := nextId + 1;
    }

    method DeleteMedian(id: int)
      modifies this
      ensures State() == DeleteMedianRow(old(State()), id)
    {
      median := median - {id};
      log := log + [DeleteMedianVote(id)];
    }

    method UpdatePosition(id: int, pos: int)
      requires id in schulze
      modifies this
      ensures State() == SavePositionRow(old(State()), id, pos)
    {
      schulze := schulze[id := schulze[id].(sortingPosition := pos)];
      log := log + [SaveSortingPosition(id)];
    }

    method CreateSchulze(voterId: int, option: SchulzeOption, pos: int)
      modifies this
      ensures State() == CreateSchulzeRow(old(State()), voterId, option, pos)
    {
      schulze := schulze[nextId := SchulzeVote(nextId, voterId, option, pos)];
      log := log + [CreateSchulzeVote(nextId)];
      nextId := nextId + 1;
    }

    method DeleteSchulze(id: int)
      modifies this
      ensures State() == DeleteSchulzeRow(old(State()), id)
    {
      schulze := schulze - {id};
      log := log + [DeleteSchulzeVote(id)];
    }

    /** `for vote in votes: vote.delete()`. */
    method DeleteAll(ballot: seq<SchulzeVote>)
      modifies this
      ensures State() == DeleteBallot(old(State()), ballot)
    {
      for i := 0 to |ballot|
        invariant State() == DeleteBallot(old(State()), ballot[..i])
      {
        assert ballot[..i + 1][..i] == ballot[..i];
        DeleteSchulze(ballot[i].id);
      }
      assert ballot[..|ballot|] == ballot;
    }

    /** The update loop: save each position that differs from the stored one. */
    method SavePositions(ballot: seq<SchulzeVote>, val: seq<nat>)
      requires |ballot| == |val| && forall k :: 0 <= k < |ballot| ==> ballot[k].id in schulze
      modifies this
      ensures State() == Reposition(old(State()), ballot, val)
    {
      for i := 0 to |ballot|
        invariant State() == Reposition(old(State()), ballot[..i], val[..i])
      {
        assert ballot[..i + 1][..i] == ballot[..i] && val[..i + 1][..i] == val[..i];
        if ballot[i].sortingPosition != val[i] {
          UpdatePosition(ballot[i].id, val[i]);
        }
      }
      assert ballot[..|ballot|] == ballot && val[..|val|] == val;
    }

    /** The insert loop: one new row per option. */
    method InsertAll(voterId: int, options: seq<SchulzeOption>, val: seq<nat>)
      requires |options| == |val|
      modifies this
      ensures State() == InsertBallot(old(State()), voterId, options, val)
    {
      for i := 0 to |options|
        invariant State() == InsertBallot(old(State()), voterId, options[..i], val[..i])
      {
        assert options[..i + 1][..i] == options[..i] && val[..i + 1][..i] == val[..i];
        CreateSchulze(voterId, options[i], val[i]);
      }
      assert options[..|options|] == options && val[..|val|] == val;
    }
  }

  /** The sanity loop over a stored ballot: the first entry for the wrong option, if any. */
  method FindMismatch(current: seq<SchulzeVote>, options: seq<SchulzeOption>) returns (r: Option<nat>)
    requires |current| == |options|
    ensures r == FirstMismatch(current, options)
  {
    var i := 0;
    while i < |current|
      invariant i <= |current| && MismatchFrom(current, options, i) == FirstMismatch(current, options)
    {
      if current[i].option.id != options[i].id {
        return Some(i);
      }
      i := i + 1;
    }
    return None;
  }

  /** `__handle_enter_median(result, v_id, val, voter)`. */
  method HandleEnterMedian(result: GenericVotingResult<MedianVote>, store: VoteStore, vId: int, val: Option<Fields.Amount>, voterId: int)
    requires MedianOnly(result.votings) && MedianLoaded(store.State(), result.votes, voterId)
    requires val.Some? ==> val.value.value >= 0
    modifies result, store
    ensures unchanged(result`votings, result`votes, result`votingDescription)
    ensures store.State() == EnterMedian(old(store.State()), result.votings, result.votes, vId, val, voterId).0
    ensures result.warnings == old(result.warnings) + EnterMedian(old(store.State()), result.votings, result.votes, vId, val, voterId).1
  {
    if vId !in result.votings.entries {
      result.warnings := result.warnings + [UnknownVoting(vId)];
      return;
    }
    var voting := result.votings.entries[vId];
    if val.None? {
      if vId in result.votes.entries {
        store.DeleteMedian(result.votes.entries[vId].id);
      }
    } else if vId in result.votes.entries {
      var entry := result.votes.entries[vId];
      if entry.value != val.value.value {
        store.UpdateValue(entry.id, val.value.value);
      }
    } else {
      store.CreateMedian(voterId, voting.median, val.value.value);
    }
  }

  /** `__handle_enter_schulze(result, v_id, val, voter)`. */
  method HandleEnterSchulze(result: GenericVotingResult<seq<SchulzeVote>>, store: VoteStore, vId: int, val: Option<seq<nat>>, voterId: int)
    requires SchulzeEvaluation.SchulzeDescribed(result.votingDescription) && SchulzeLoaded(store.State(), result.votes, voterId)
    modifies result, store
    ensures unchanged(result`votings, result`votes, result`votingDescription)
    ensures store.State() == EnterSchulze(old(store.State()), result.votings, result.votes, result.votingDescription, vId, val, voterId).0
    ensures result.warnings == old(result.warnings) +
      EnterSchulze(old(store.State()), result.votings, result.votes, result.votingDescription, vId, val, voterId).1
  {
    if vId !in result.votings.entries {
      result.warnings := result.warnings + [UnknownVoting(vId)];
      return;
    }
    if val.None? {
      if vId in result.votes.entries {
        store.DeleteAll(result.votes.entries[vId]);
      }
      return;
    }
    if vId !in result.votingDescription {
      result.warnings := result.warnings + [NoOptions(vId)];
      return;
    }
    var options := result.votingDescription[vId].options;
    if |val.value| != |options| {
      result.warnings := result.warnings + [InvalidRanking(vId)];
      return;
    }
    if vId in result.votes.entries {
      var current := result.votes.entries[vId];
      if |current| != |options| {
        result.warnings := result.warnings + [BallotLength(vId, |options|, |current|)];
        return;
      }
      var k := FindMismatch(current, options);
      if k.Some? {
        store.DeleteAll(current);
        result.warnings := result.warnings + [MismatchWarning(vId, current, options, k.value)];
        return;
      }
      store.SavePositions(current, val.value);
    } else {
      store.InsertAll(voterId, options, val.value);
    }
  }
}
