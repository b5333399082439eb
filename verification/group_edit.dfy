/**
  The two places where the views assign voting numbers: the reorder loop of
  `edit_group_view`, which writes the positions of a cleaned group order
  into the votings of a group, and `_get_max_voting_num`, from which a newly
  created voting takes the next free number.
 */
module GroupEdit {
  import opened Wrappers
  import opened Results
  import Fields

  // ----- the reorder loop -----

  /** A voting row's identity: its table and its primary key. */
  datatype VotingKey = MedianKey(id: int) | SchulzeKey(id: int)

  function KeyOf(v: Voting): VotingKey {
    match v
    case Median(m) => MedianKey(m.id)
    case Schulze(s) => SchulzeKey(s.id)
  }

  /** The `voting_num` column of both voting tables, and the rows saved so far, in order. */
  datatype NumberTable = NumberTable(numbers: map<VotingKey, nat>, saves: seq<VotingKey>)

  /** `voting.voting_num = new_pos; voting.save(update_fields=['voting_num'])`. */
  function SaveNumber(t: NumberTable, key: VotingKey, pos: nat): NumberTable
    requires key in t.numbers
  {
    NumberTable(t.numbers[key := pos], t.saves + [key])
  }

  /** `for voting, new_pos in zip(votings, new_order)`: a save for each voting whose number differs. */
  function Renumber(t: NumberTable, votings: seq<Voting>, order: seq<nat>): (r: NumberTable)
    requires |votings| == |order| && forall i :: 0 <= i < |votings| ==> KeyOf(votings[i]) in t.numbers
    ensures r.numbers.Keys == t.numbers.Keys
    decreases |votings|
  {
    if |votings| == 0 then t
    else
      var n := |votings| - 1;
      var s := Renumber(t, votings[..n], order[..n]);
      if votings[n].VotingNum() != order[n] then SaveNumber(s, KeyOf(votings[n]), order[n]) else s
  }

  /** What a valid POST of the group form does: nothing for a blank or empty order, otherwise renumber. */
  function EditOrder(t: NumberTable, votings: seq<Voting>, newOrder: Fields.GroupOrderValue): NumberTable
    requires forall i :: 0 <= i < |votings| ==> KeyOf(votings[i]) in t.numbers
    requires newOrder.Order? && newOrder.positions != [] ==> |newOrder.positions| == |votings|
  {
    match newOrder
    case EmptyString => t
    case Order(positions) => if positions == [] then t else Renumber(t, votings, positions)
  }

  /** The votings are the stored rows with their numbers as read, and no row occurs twice. */
  predicate Loaded(t: NumberTable, votings: seq<Voting>) {
    (forall i :: 0 <= i < |votings| ==> KeyOf(votings[i]) in t.numbers && t.numbers[KeyOf(votings[i])] == votings[i].VotingNum()) &&
    (forall i, j :: 0 <= i < j < |votings| ==> KeyOf(votings[i]) != KeyOf(votings[j]))
  }

  /** Some voting of the list has this key. */
  predicate Listed(votings: seq<Voting>, key: VotingKey) {
    exists i :: 0 <= i < |votings| && KeyOf(votings[i]) == key
  }

  /**
    Renumbering gives voting i the number order[i] and leaves every other
    row alone; a row is saved exactly when its number changes, and only
    listed rows are saved.
   */
  lemma {:induction false} RenumberMeaning(t: NumberTable, votings: seq<Voting>, order: seq<nat>)
    requires |votings| == |order| && Loaded(t, votings)
    ensures var r := Renumber(t, votings, order);
      (forall i :: 0 <= i < |votings| ==> r.numbers[KeyOf(votings[i])] == order[i]) &&
      (forall key :: key in t.numbers && !Listed(votings, key) ==> r.numbers[key] == t.numbers[key]) &&
      |t.saves| <= |r.saves| && r.saves[..|t.saves|] == t.saves &&
      (forall i :: 0 <= i < |votings| ==> (KeyOf(votings[i]) in r.saves[|t.saves|..] <==> votings[i].VotingNum() != order[i])) &&
      (forall key :: key in r.saves[|t.saves|..] ==> Listed(votings, key))
    decreases |votings|
  {
    if |votings| > 0 {
      var n := |votings| - 1;
      var front, fOrder := votings[..n], order[..n];
      assert forall i :: 0 <= i < n ==> front[i] == votings[i] && fOrder[i] == order[i];
      RenumberMeaning(t, front, fOrder);
      var s := Renumber(t, front, fOrder);
      forall i | 0 <= i < n ensures KeyOf(front[i]) != KeyOf(votings[n]) {
        assert front[i] == votings[i];
      }
      assert !Listed(front, KeyOf(votings[n]));
      RenumberNumbersStep(t, s, Renumber(t, votings, order), votings, order, n);
      RenumberSavesStep(t, s, Renumber(t, votings, order), votings, order, n);
    }
  }

  /**
    The state before and after the loop's turn for voting n: the first n
    votings hold their new numbers, every unlisted key its old number, and r
    is s after the turn.
   */
  ghost predicate RenumberStepReady(t: NumberTable, s: NumberTable, r: NumberTable, votings: seq<Voting>, order: seq<nat>, n: nat) {
    && |votings| == |order| == n + 1 && (forall i :: 0 <= i <= n ==> KeyOf(votings[i]) in t.numbers)
    && s.numbers.Keys == t.numbers.Keys
    && r == (if votings[n].VotingNum() != order[n] then SaveNumber(s, KeyOf(votings[n]), order[n]) else s)
    && r.numbers.Keys == t.numbers.Keys
    && s.numbers[KeyOf(votings[n])] == votings[n].VotingNum() && !Listed(votings[..n], KeyOf(votings[n]))
    && (forall i :: 0 <= i < n ==> s.numbers[KeyOf(votings[..n][i])] == order[..n][i])
    && (forall key :: key in t.numbers && !Listed(votings[..n], key) ==> s.numbers[key] == t.numbers[key])
  }

  /** The last step of the induction above, for the numbers. */
  lemma RenumberNumbersStep(t: NumberTable, s: NumberTable, r: NumberTable, votings: seq<Voting>, order: seq<nat>, n: nat)
    requires RenumberStepReady(t, s, r, votings, order, n)
    ensures forall i :: 0 <= i < |votings| ==> r.numbers[KeyOf(votings[i])] == order[i]
    ensures forall key :: key in t.numbers && !Listed(votings, key) ==> r.numbers[key] == t.numbers[key]
  {
    ListedPrefix(votings, n);
    RenumberListedStep(t, s, r, votings, order, n);
    RenumberUnlistedStep(t, s, r, votings, order, n);
  }

  lemma RenumberListedStep(t: NumberTable, s: NumberTable, r: NumberTable, votings: seq<Voting>, order: seq<nat>, n: nat)
    requires RenumberStepReady(t, s, r, votings, order, n)
    requires forall i :: 0 <= i < n ==> votings[..n][i] == votings[i]
    ensures forall i :: 0 <= i < |votings| ==> r.numbers[KeyOf(votings[i])] == order[i]
  {
    assert forall i :: 0 <= i < n ==> order[..n][i] == order[i];
  }

  lemma RenumberUnlistedStep(t: NumberTable, s: NumberTable, r: NumberTable, votings: seq<Voting>, order: seq<nat>, n: nat)
    requires RenumberStepReady(t, s, r, votings, order, n)
    requires forall key :: Listed(votings[..n], key) ==> Listed(votings, key)
    ensures forall key :: key in t.numbers && !Listed(votings, key) ==> r.numbers[key] == t.numbers[key]
  {
    assert Listed(votings, KeyOf(votings[n]));
  }

  lemma ListedPrefix(votings: seq<Voting>, n: nat)
    requires n <= |votings|
    ensures forall i :: 0 <= i < n ==> votings[..n][i] == votings[i]
    ensures forall key :: Listed(votings[..n], key) ==> Listed(votings, key)
  {
    var front := votings[..n];
    forall key | Listed(front, key) ensures Listed(votings, key) {
      var i :| 0 <= i < n && KeyOf(front[i]) == key;
      assert KeyOf(votings[i]) == key;
    }
  }

  /** The last step of the induction above, for the saves. */
  lemma RenumberSavesStep(t: NumberTable, s: NumberTable, r: NumberTable, votings: seq<Voting>, order: seq<nat>, n: nat)
    requires |votings| == |order| == n + 1 && KeyOf(votings[n]) in s.numbers
    requires r == (if votings[n].VotingNum() != order[n] then SaveNumber(s, KeyOf(votings[n]), order[n]) else s)
    requires !Listed(votings[..n], KeyOf(votings[n]))
    requires |t.saves| <= |s.saves| && s.saves[..|t.saves|] == t.saves
    requires forall i :: 0 <= i < n ==> (KeyOf(votings[..n][i]) in s.saves[|t.saves|..] <==> votings[..n][i].VotingNum() != order[..n][i])
    requires forall key :: key in s.saves[|t.saves|..] ==> Listed(votings[..n], key)
    ensures |t.saves| <= |r.saves| && r.saves[..|t.saves|] == t.saves
    ensures forall i :: 0 <= i < |votings| ==> (KeyOf(votings[i]) in r.saves[|t.saves|..] <==> votings[i].VotingNum() != order[i])
    ensures forall key :: key in r.saves[|t.saves|..] ==> Listed(votings, key)
  {
    var front := votings[..n];
    assert forall i :: 0 <= i < n ==> front[i] == votings[i] && order[..n][i] == order[i];
    forall key | Listed(front, key) ensures Listed(votings, key) {
      var i :| 0 <= i < n && KeyOf(front[i]) == key;
      assert KeyOf(votings[i]) == key;
    }
    forall i | 0 <= i < n ensures KeyOf(votings[i]) != KeyOf(votings[n]) {
      assert Listed(front, KeyOf(votings[i]));
    }
    var added := r.saves[|t.saves|..];
    if votings[n].VotingNum() != order[n] {
      assert added == s.saves[|t.saves|..] + [KeyOf(votings[n])];
      assert Listed(votings, KeyOf(votings[n]));
    } else {
      assert added == s.saves[|t.saves|..];
      assert KeyOf(votings[n]) !in added;
    }
  }

  /**
    After the edit, a nonempty order has been written into the votings:
    voting i carries position i of the order, so the numbers are pairwise
    distinct when the order's positions are (as the group order field
    demands). Rows not in the list do not change, and a blank or empty
    order changes nothing.
   */
  lemma EditOrderMeaning(t: NumberTable, votings: seq<Voting>, newOrder: Fields.GroupOrderValue)
    requires Loaded(t, votings)
    requires newOrder.Order? && newOrder.positions != [] ==> |newOrder.positions| == |votings|
    ensures var r := EditOrder(t, votings, newOrder);
      && (newOrder.EmptyString? || newOrder.positions == [] ==> r == t)
      && (newOrder.Order? && newOrder.positions != [] ==>
            (forall i :: 0 <= i < |votings| ==> r.numbers[KeyOf(votings[i])] == newOrder.positions[i]) &&
            (Fields.Distinct(newOrder.positions) ==>
               forall i, j :: 0 <= i < j < |votings| ==> r.numbers[KeyOf(votings[i])] != r.numbers[KeyOf(votings[j])]))
      && r.numbers.Keys == t.numbers.Keys
      && (forall key :: key in t.numbers && !Listed(votings, key) ==> r.numbers[key] == t.numbers[key])
  {
    if newOrder.Order? && newOrder.positions != [] {
      RenumberMeaning(t, votings, newOrder.positions);
    }
  }

  /** The `voting_num` columns, written row by row. */
  class VotingNumbers {
    var numbers: map<VotingKey, nat>
    var saves: seq<VotingKey>

    function State(): NumberTable
      reads this
    {
      NumberTable(numbers, saves)
    }

    constructor (t: NumberTable)
      ensures State() == t
    {
      numbers, saves := t.numbers, t.saves;
    }

    method Save(key: VotingKey, pos: nat)
      requires key in numbers
      modifies this
      ensures State() == SaveNumber(old(State()), key, pos)
    {
      numbers := numbers[key := pos];
      saves := saves + [key];
    }

    /** The POST branch of `edit_group_view` after the form validated. */
    method EditGroupOrder(votings: seq<Voting>, newOrder: Fields.GroupOrderValue)
      requires forall i :: 0 <= i < |votings| ==> KeyOf(votings[i]) in numbers
      requires newOrder.Order? && newOrder.positions != [] ==> |newOrder.positions| == |votings|
      modifies this
      ensures State() == EditOrder(old(State()), votings, newOrder)
    {
      if newOrder.EmptyString? || newOrder.positions == [] {
        return;
      }
      var order := newOrder.positions;
      for i := 0 to |votings|
        invariant State() == Renumber(old(State()), votings[..i], order[..i])
      {
        assert votings[..i + 1][..i] == votings[..i] && order[..i + 1][..i] == order[..i];
        if votings[i].VotingNum() != order[i] {
          Save(KeyOf(votings[i]), order[i]);
        }
      }
      assert votings[..|votings|] == votings && order[..|order|] == order;
    }
  }

  // ----- _get_max_voting_num -----

  /** `aggregate(Max('voting_num'))['voting_num__max']`: None for no rows. */
  function ColumnMax(numbers: seq<nat>): (r: Option<nat>)
    ensures r.None? <==> numbers == []
    ensures r.Some? ==> r.value in numbers && forall x :: x in numbers ==> x <= r.value
  {
    if numbers == [] then None
    else
      assert numbers == [numbers[0]] + numbers[1..];
      match ColumnMax(numbers[1..])
      case None => Some(numbers[0])
      case Some(m) => Some(if numbers[0] < m then m else numbers[0])
  }

  /** The voting numbers of the median votings of one group, `MedianVoting.objects.filter(group=group)`. */
  function MedianNumbers(votings: seq<MedianVoting>, groupId: int): seq<nat> {
    if votings == [] then []
    else (if votings[0].group.id == groupId then [votings[0].votingNum] else []) + MedianNumbers(votings[1..], groupId)
  }

  /** The voting numbers of the Schulze votings of one group. */
  function SchulzeNumbers(votings: seq<SchulzeVoting>, groupId: int): seq<nat> {
    if votings == [] then []
    else (if votings[0].group.id == groupId then [votings[0].votingNum] else []) + SchulzeNumbers(votings[1..], groupId)
  }

  /** `_get_max_voting_num(group)`. */
  function MaxVotingNum(median: seq<MedianVoting>, schulze: seq<SchulzeVoting>, groupId: int): int {
    var fromMedian := match ColumnMax(MedianNumbers(median, groupId)) case None => -1 case Some(m) => m;
    match ColumnMax(SchulzeNumbers(schulze, groupId))
    case None => fromMedian
    case Some(s) => if fromMedian < s then s else fromMedian
  }

  lemma {:induction false} MedianNumbersMeaning(votings: seq<MedianVoting>, groupId: int)
    ensures forall x :: x in MedianNumbers(votings, groupId) <==>
      exists i :: 0 <= i < |votings| && votings[i].group.id == groupId && votings[i].votingNum == x
  {
    if votings != [] {
      MedianNumbersMeaning(votings[1..], groupId);
      assert forall i :: 0 < i < |votings| ==> votings[i] == votings[1..][i - 1];
      forall x | x in MedianNumbers(votings[1..], groupId)
        ensures exists i :: 0 <= i < |votings| && votings[i].group.id == groupId && votings[i].votingNum == x
      {
        var i :| 0 <= i < |votings[1..]| && votings[1..][i].group.id == groupId && votings[1..][i].votingNum == x;
        assert votings[i + 1] == votings[1..][i];
      }
    }
  }

  lemma {:induction false} SchulzeNumbersMeaning(votings: seq<SchulzeVoting>, groupId: int)
    ensures forall x :: x in SchulzeNumbers(votings, groupId) <==>
      exists i :: 0 <= i < |votings| && votings[i].group.id == groupId && votings[i].votingNum == x
  {
    if votings != [] {
      SchulzeNumbersMeaning(votings[1..], groupId);
      assert forall i :: 0 < i < |votings| ==> votings[i] == votings[1..][i - 1];
      forall x | x in SchulzeNumbers(votings[1..], groupId)
        ensures exists i :: 0 <= i < |votings| && votings[i].group.id == groupId && votings[i].votingNum == x
      {
        var i :| 0 <= i < |votings[1..]| && votings[1..][i].group.id == groupId && votings[1..][i].votingNum == x;
        assert votings[i + 1] == votings[1..][i];
      }
    }
  }

  /**
    The result is -1 exactly when the group has no voting of either kind,
    and otherwise the number of one of its votings. The number a new voting
    receives, the result plus one, is therefore at least 0 and larger than
    the number of every voting of the group.
   */
  lemma MaxVotingNumMeaning(median: seq<MedianVoting>, schulze: seq<SchulzeVoting>, groupId: int)
    ensures var r := MaxVotingNum(median, schulze, groupId);
      && r + 1 >= 0
      && (forall i :: 0 <= i < |median| && median[i].group.id == groupId ==> median[i].votingNum < r + 1)
      && (forall i :: 0 <= i < |schulze| && schulze[i].group.id == groupId ==> schulze[i].votingNum < r + 1)
      && (r == -1 <==>
            (forall i :: 0 <= i < |median| ==> median[i].group.id != groupId) &&
            (forall i :: 0 <= i < |schulze| ==> schulze[i].group.id != groupId))
      && (r != -1 ==>
            (exists i :: 0 <= i < |median| && median[i].group.id == groupId && median[i].votingNum == r) ||
            (exists i :: 0 <= i < |schulze| && schulze[i].group.id == groupId && schulze[i].votingNum == r))
  {
    MedianNumbersMeaning(median, groupId);
    SchulzeNumbersMeaning(schulze, groupId);
    var r := MaxVotingNum(median, schulze, groupId);
    forall i | 0 <= i < |median| && median[i].group.id == groupId ensures median[i].votingNum < r + 1 {
      assert median[i].votingNum in MedianNumbers(median, groupId);
    }
    forall i | 0 <= i < |schulze| && schulze[i].group.id == groupId ensures schulze[i].votingNum < r + 1 {
      assert schulze[i].votingNum in SchulzeNumbers(schulze, groupId);
    }
  }
}
