/**
  The records the result code works on and `GenericVotingResult`: the
  votings of a collection in (group number, voting number) order, the votes
  per voting, the warnings collected on the way and the description of each
  voting (its value for a median voting, its options for a Schulze voting).
  Database rows become values; two rows are the same object exactly when
  their ids agree, as for Django model instances.
 */
module Results {
  import opened Wrappers
  import opened Text
  import opened OrderedDicts
  import opened Grouping

  datatype VotingGroup = VotingGroup(id: int, groupNum: nat)

  datatype MedianVoting = MedianVoting(id: int, group: VotingGroup, votingNum: nat, value: nat)

  datatype SchulzeVoting = SchulzeVoting(id: int, group: VotingGroup, votingNum: nat)

  /** A voting of either kind, as it is stored in `votings`. */
  datatype Voting = Median(median: MedianVoting) | Schulze(schulze: SchulzeVoting) {
    function Id(): int {
      match this
      case Median(m) => m.id
      case Schulze(s) => s.id
    }

    function Group(): VotingGroup {
      match this
      case Median(m) => m.group
      case Schulze(s) => s.group
    }

    function VotingNum(): nat {
      match this
      case Median(m) => m.votingNum
      case Schulze(s) => s.votingNum
    }
  }

  datatype SchulzeOption = SchulzeOption(id: int, votingId: int, option: string, optionNum: nat)

  datatype MedianVote = MedianVote(id: int, voterId: int, voting: MedianVoting, value: nat)

  datatype SchulzeVote = SchulzeVote(id: int, voterId: int, option: SchulzeOption, sortingPosition: int)

  /** An entry of `voting_description`: the value of a median voting or the options of a Schulze voting. */
  datatype Description = MedianValue(value: nat) | Options(options: seq<SchulzeOption>)

  /**
    The entries appended to `warnings`, one constructor per situation. The
    source appends `QueryWarning(...)` (which evaluates to None),
    `MedianWarning`, `SchulzeWarning` or a plain message; the model keeps the
    situation and the ids involved instead of the text.
   */
  datatype Warning =
    | NoOptions(votingId: int)
    | DuplicateVotings
    | OptionWithoutVoting(optionId: int, votingId: int)
    | VoteWithoutVoting(voteId: int, optionId: int, votingId: int)
    | NoDescription(votingId: int)
    | BallotLength(votingId: int, options: nat, votes: nat)
    | OptionMismatch(votingId: int, gotOption: int, expectedOption: int)
    | ValueAboveMaximum(votingId: int, got: int)
    | UnknownVoting(votingId: int)
    | VoteTooHigh(votingId: int, voterId: int, got: int)
    | InvalidRanking(votingId: int)
    | StoredBallotDeleted(votingId: int, gotOption: int, expectedOption: int)

  datatype VotingKind = MedianKind | SchulzeKind

  /** The ValueError that `int()` raises on the part of a key after its prefix. */
  datatype KeyError = ValueError(suffix: string)

  /** The TypeError of iterating a median value as if it were a list of options. */
  datatype OverviewError = NotIterable(votingId: int)

  class GenericVotingResult<V> {
    /** All votings, in (group number, voting number) order. */
    var votings: Dict<int, Voting>
    /** Voting id to the votes of that voting. */
    var votes: Dict<int, V>
    var warnings: seq<Warning>
    /** Voting id to its value (median) or its options (Schulze). */
    var votingDescription: map<int, Description>

    ghost predicate Valid()
      reads this
    {
      votings.Valid() && votes.Valid()
    }

    /** `GenericVotingResult()`: everything empty. */
    constructor ()
      ensures Valid()
      ensures votings == Empty() && votes == Empty() && warnings == [] && votingDescription == map[]
    {
      votings := Empty();
      votes := Empty();
      warnings := [];
      votingDescription := map[];
    }

    /** A result holding the given parts. */
    constructor Of(votings: Dict<int, Voting>, votes: Dict<int, V>, warnings: seq<Warning>, votingDescription: map<int, Description>)
      requires votings.Valid() && votes.Valid()
      ensures Valid()
      ensures this.votings == votings && this.votes == votes
      ensures this.warnings == warnings && this.votingDescription == votingDescription
    {
      this.votings := votings;
      this.votes := votes;
      this.warnings := warnings;
      this.votingDescription := votingDescription;
    }

    /**
      `for_overview_template()`: the votings grouped by group, and the option
      texts of every Schulze voting. A Schulze voting without a description
      gets no options and one warning; one whose description is a median
      value (possible after a merge in which ids collide) makes the option
      comprehension fail with a TypeError, after the warnings found so far
      have been appended.
     */
    method ForOverviewTemplate() returns (r: Result<(seq<(VotingGroup, seq<Voting>)>, map<int, seq<string>>), OverviewError>)
      requires Valid()
      modifies this`warnings
      ensures Valid()
      ensures warnings == old(warnings) + OverviewScan(votings.Values(), votingDescription).warnings
      ensures r.Failure? <==> OverviewScan(votings.Values(), votingDescription).failed.Some?
      ensures r.Failure? ==> r.error == NotIterable(OverviewScan(votings.Values(), votingDescription).failed.value)
      ensures r.Success? ==> r.value == (ByGroup(votings.Values()), OverviewScan(votings.Values(), votingDescription).optionMap)
    {
      var all := votings.Values();
      var groups := ByGroup(all);
      ByGroupFlatten(all);
      var optionMap, failed := ScanGroups(groups, all);
      if failed.Some? {
        r := Failure(NotIterable(failed.value));
      } else {
        r := Success((groups, optionMap));
      }
    }

    /** The outer loop of `for_overview_template`, over the groups. */
    method ScanGroups(groups: seq<(VotingGroup, seq<Voting>)>, ghost all: seq<Voting>)
      returns (optionMap: map<int, seq<string>>, failed: Option<int>)
      requires Flatten(GroupLists(groups)) == all
      modifies this`warnings
      ensures warnings == old(warnings) + OverviewScan(all, votingDescription).warnings
      ensures failed == OverviewScan(all, votingDescription).failed
      ensures failed.None? ==> optionMap == OverviewScan(all, votingDescription).optionMap
    {
      ghost var runs := GroupLists(groups);
      optionMap := map[];
      ghost var done: seq<Voting> := [];
      for i := 0 to |groups|
        invariant done + Flatten(runs[i..]) == Flatten(runs)
        invariant warnings == old(warnings) + OverviewScan(done, votingDescription).warnings
        invariant optionMap == OverviewScan(done, votingDescription).optionMap
        invariant OverviewScan(done, votingDescription).failed == None
      {
        var vs := groups[i].1;
        FlattenAt(done, runs, i);
        optionMap, failed := ScanGroup(vs, done, old(warnings), optionMap);
        if failed.Some? {
          OverviewScanFailedPrefix(done, vs, Flatten(runs[i + 1..]), all, votingDescription);
          return;
        }
        done := done + vs;
      }
      FlattenDone(done, runs);
      failed := None;
    }

    /** The inner loop of `for_overview_template` over the votings of one group. */
    method ScanGroup(vs: seq<Voting>, ghost done: seq<Voting>, ghost base: seq<Warning>, optionMap0: map<int, seq<string>>)
      returns (optionMap: map<int, seq<string>>, failed: Option<int>)
      requires OverviewScan(done, votingDescription).failed == None
      requires optionMap0 == OverviewScan(done, votingDescription).optionMap
      requires warnings == base + OverviewScan(done, votingDescription).warnings
      modifies this`warnings
      ensures warnings == base + OverviewScan(done + vs, votingDescription).warnings
      ensures failed == OverviewScan(done + vs, votingDescription).failed
      ensures failed.None? ==> optionMap == OverviewScan(done + vs, votingDescription).optionMap
    {
      optionMap, failed := optionMap0, None;
      ghost var prefix := done;
      for j := 0 to |vs|
        invariant prefix == done + vs[..j]
        invariant warnings == base + OverviewScan(prefix, votingDescription).warnings
        invariant optionMap == OverviewScan(prefix, votingDescription).optionMap
        invariant OverviewScan(prefix, votingDescription).failed == None && failed == None
      {
        optionMap, failed := ScanVoting(vs[j], prefix, base, optionMap);
        PrefixSnoc(done, vs, j);
        prefix := prefix + [vs[j]];
        if failed.Some? {
          OverviewScanStops(prefix, vs[j + 1..], votingDescription);
          return;
        }
      }
      assert vs[..|vs|] == vs;
    }

    /** One voting of the inner loop: options for a Schulze voting, a warning when it has none. */
    method ScanVoting(v: Voting, ghost prefix: seq<Voting>, ghost base: seq<Warning>, optionMap0: map<int, seq<string>>)
      returns (optionMap: map<int, seq<string>>, failed: Option<int>)
      requires OverviewScan(prefix, votingDescription).failed == None
      requires optionMap0 == OverviewScan(prefix, votingDescription).optionMap
      requires warnings == base + OverviewScan(prefix, votingDescription).warnings
      modifies this`warnings
      ensures warnings == base + OverviewScan(prefix + [v], votingDescription).warnings
      ensures failed == OverviewScan(prefix + [v], votingDescription).failed
      ensures failed.None? ==> optionMap == OverviewScan(prefix + [v], votingDescription).optionMap
    {
      assert (prefix + [v])[..|prefix|] == prefix;
      optionMap, failed := optionMap0, None;
      match v {
        case Median(_) =>
        case Schulze(sv) =>
          if sv.id !in votingDescription {
            warnings := warnings + [NoOptions(sv.id)];
            optionMap := optionMap[sv.id := []];
          } else {
            match votingDescription[sv.id] {
              case Options(os) =>
                optionMap := optionMap[sv.id := OptionTexts(os)];
              case MedianValue(_) =>
                failed := Some(sv.id);
            }
          }
      }
    }
  }

  const MedianPrefix: string := "median_"
  const SchulzePrefix: string := "schulze_"

  /** `median_key(id)`. */
  function MedianKey(id: int): string {
    MedianPrefix + IntToString(id)
  }

  /** `schulze_key(id)`. */
  function SchulzeKey(id: int): string {
    SchulzePrefix + IntToString(id)
  }

  /** `s[n:]`: slicing past the end gives the empty string. */
  function Drop(s: string, n: nat): string {
    if n <= |s| then s[n..] else []
  }

  predicate StartsWith(s: string, prefix: string) {
    |prefix| <= |s| && s[..|prefix|] == prefix
  }

  /** `parse_median_key(s)`: `int()` of everything after the median prefix (None is ValueError). */
  function ParseMedianKey(s: string): Option<int> {
    PyInt(Drop(s, |MedianPrefix|))
  }

  /** `parse_schulze_key(s)`. */
  function ParseSchulzeKey(s: string): Option<int> {
    PyInt(Drop(s, |SchulzePrefix|))
  }

  /**
    `parse_key(s)`: the kind and id of a median or Schulze key, None for any
    other text, and ValueError when the text after a known prefix is not an
    integer.
   */
  function ParseKey(s: string): (r: Result<Option<(VotingKind, int)>, KeyError>)
    ensures r == Success(None) <==> !StartsWith(s, MedianPrefix) && !StartsWith(s, SchulzePrefix)
    ensures r.Failure? ==> StartsWith(s, MedianPrefix) || StartsWith(s, SchulzePrefix)
    ensures r.Success? && r.value.Some? ==>
      (r.value.value.0 == MedianKind <==> StartsWith(s, MedianPrefix))
  {
    if StartsWith(s, MedianPrefix) then
      match ParseMedianKey(s)
      case None => Failure(ValueError(Drop(s, |MedianPrefix|)))
      case Some(id) => Success(Some((MedianKind, id)))
    else if StartsWith(s, SchulzePrefix) then
      match ParseSchulzeKey(s)
      case None => Failure(ValueError(Drop(s, |SchulzePrefix|)))
      case Some(id) => Success(Some((SchulzeKind, id)))
    else Success(None)
  }

  /** Keys decode to what they encode, for every id. */
  lemma KeyRoundTrip(id: int)
    ensures ParseKey(MedianKey(id)) == Success(Some((MedianKind, id)))
    ensures ParseKey(SchulzeKey(id)) == Success(Some((SchulzeKind, id)))
  {
    var t := IntToString(id);
    IntRoundTrip(id);
    PrefixParts(MedianPrefix, t);
    PrefixParts(SchulzePrefix, t);
    SchulzeNotMedian(t);
  }

  /** Text made of a prefix and a rest starts with the prefix, and dropping it leaves the rest. */
  lemma PrefixParts(p: string, x: string)
    ensures StartsWith(p + x, p) && Drop(p + x, |p|) == x
  {
    assert (p + x)[..|p|] == p;
  }

  /** A Schulze key never passes for a median key. */
  lemma SchulzeNotMedian(x: string)
    ensures !StartsWith(SchulzePrefix + x, MedianPrefix)
  {
    var s := SchulzePrefix + x;
    assert s[..|MedianPrefix|] != MedianPrefix by {
      assert s[..|MedianPrefix|][0] == 's';
    }
  }

  /** A known prefix followed by something that is not an integer raises ValueError. */
  lemma KeyNotANumber(suffix: string)
    requires PyInt(suffix) == None
    ensures ParseKey(MedianPrefix + suffix) == Failure(ValueError(suffix))
    ensures ParseKey(SchulzePrefix + suffix) == Failure(ValueError(suffix))
  {
    PrefixParts(MedianPrefix, suffix);
    PrefixParts(SchulzePrefix, suffix);
    SchulzeNotMedian(suffix);
  }

  /** The key of `groupby` in `by_group`: the voting's group, compared by id. */
  function GroupIdOf(v: Voting): int {
    v.Group().id
  }

  /** `by_group()`: each run of consecutive votings of one group, under that group. */
  function ByGroup(vs: seq<Voting>): seq<(VotingGroup, seq<Voting>)> {
    var runs := GroupBy(vs, GroupIdOf);
    seq(|runs|, i requires 0 <= i < |runs| => (runs[i][0].Group(), runs[i]))
  }

  function GroupLists(r: seq<(VotingGroup, seq<Voting>)>): (lists: seq<seq<Voting>>)
    ensures |lists| == |r| && forall i :: 0 <= i < |r| ==> lists[i] == r[i].1
  {
    seq(|r|, i requires 0 <= i < |r| => r[i].1)
  }

  /** Peeling the i-th run off the runs from i on. */
  lemma FlattenAt<T>(done: seq<T>, runs: seq<seq<T>>, i: nat)
    requires i < |runs| && done + Flatten(runs[i..]) == Flatten(runs)
    ensures (done + runs[i]) + Flatten(runs[i + 1..]) == Flatten(runs)
  {
    assert runs[i..][1..] == runs[i + 1..];
    assert Flatten(runs[i..]) == runs[i] + Flatten(runs[i + 1..]);
  }

  /** Growing a prefix of vs by one element. */
  lemma PrefixSnoc<T>(done: seq<T>, vs: seq<T>, j: nat)
    requires j < |vs|
    ensures done + vs[..j + 1] == (done + vs[..j]) + [vs[j]]
    ensures (done + vs[..j + 1]) + vs[j + 1..] == done + vs
  {
    assert vs[..j + 1] == vs[..j] + [vs[j]];
    assert vs[..j + 1] + vs[j + 1..] == vs;
  }

  lemma ByGroupFlatten(vs: seq<Voting>)
    ensures Flatten(GroupLists(ByGroup(vs))) == vs
  {
    assert GroupLists(ByGroup(vs)) == GroupBy(vs, GroupIdOf);
    GroupByFlatten(vs, GroupIdOf);
  }

  /**
    The groups of `by_group` put back together are the votings in order; no
    group is empty; every voting of a group belongs to it; and neighbouring
    groups are different groups.
   */
  lemma ByGroupProperties(vs: seq<Voting>)
    ensures Flatten(GroupLists(ByGroup(vs))) == vs
    ensures forall i :: 0 <= i < |ByGroup(vs)| ==> |ByGroup(vs)[i].1| > 0
    ensures forall i, j :: 0 <= i < |ByGroup(vs)| && 0 <= j < |ByGroup(vs)[i].1| ==>
      ByGroup(vs)[i].1[j].Group().id == ByGroup(vs)[i].0.id
    ensures forall i :: 0 <= i < |ByGroup(vs)| - 1 ==> ByGroup(vs)[i].0.id != ByGroup(vs)[i + 1].0.id
  {
    var r := ByGroup(vs);
    var runs := GroupBy(vs, GroupIdOf);
    assert GroupLists(r) == runs;
    ByGroupFlatten(vs);
    GroupByAdjacentDiffer(vs, GroupIdOf);
    forall i, j | 0 <= i < |r| && 0 <= j < |r[i].1| ensures r[i].1[j].Group().id == r[i].0.id {
      assert GroupIdOf(runs[i][j]) == GroupIdOf(runs[i][0]);
    }
  }

  function OptionTexts(os: seq<SchulzeOption>): (r: seq<string>)
    ensures |r| == |os| && forall i :: 0 <= i < |os| ==> r[i] == os[i].option
  {
    seq(|os|, i requires 0 <= i < |os| => os[i].option)
  }

  /** The option map, the added warnings and the voting that raised, if one did. */
  datatype Overview = Overview(optionMap: map<int, seq<string>>, warnings: seq<Warning>, failed: Option<int>)

  /** What the loop of `for_overview_template` has produced after the votings `vs`. */
  function OverviewScan(vs: seq<Voting>, desc: map<int, Description>): Overview {
    if |vs| == 0 then Overview(map[], [], None)
    else
      var s := OverviewScan(vs[..|vs| - 1], desc);
      var v := vs[|vs| - 1];
      if s.failed.Some? || v.Median? then s
      else if v.schulze.id !in desc then
        Overview(s.optionMap[v.schulze.id := []], s.warnings + [NoOptions(v.schulze.id)], None)
      else match desc[v.schulze.id]
        case Options(os) => Overview(s.optionMap[v.schulze.id := OptionTexts(os)], s.warnings, None)
        case MedianValue(_) => Overview(s.optionMap, s.warnings, Some(v.schulze.id))
  }

  lemma OverviewScanFailedPrefix(done: seq<Voting>, vs: seq<Voting>, rest: seq<Voting>, all: seq<Voting>, desc: map<int, Description>)
    requires done + (vs + rest) == all && OverviewScan(done + vs, desc).failed.Some?
    ensures OverviewScan(all, desc) == OverviewScan(done + vs, desc)
  {
    OverviewScanStops(done + vs, rest, desc);
    assert (done + vs) + rest == all;
  }

  lemma FlattenDone<T>(done: seq<T>, runs: seq<seq<T>>)
    requires done + Flatten(runs[|runs|..]) == Flatten(runs)
    ensures done == Flatten(runs)
  {
    assert runs[|runs|..] == [];
    assert done + [] == done;
  }

  /** Once the loop has raised, later votings change nothing. */
  lemma {:induction false} OverviewScanStops(p: seq<Voting>, q: seq<Voting>, desc: map<int, Description>)
    requires OverviewScan(p, desc).failed.Some?
    ensures OverviewScan(p + q, desc) == OverviewScan(p, desc)
  {
    if |q| > 0 {
      OverviewScanStops(p, q[..|q| - 1], desc);
      assert (p + q)[..|p + q| - 1] == p + q[..|q| - 1];
    } else {
      assert p + q == p;
    }
  }

  predicate IsSchulzeWith(v: Voting, id: int) {
    v.Schulze? && v.schulze.id == id
  }

  /**
    Without a failure, `option_map` has an entry for exactly the Schulze
    votings: the texts of the options when the voting has a description,
    `[]` when it has none. Median votings add nothing. The loop raises
    exactly when some Schulze voting is described by a median value.
   */
  lemma OverviewOptionMap(vs: seq<Voting>, desc: map<int, Description>)
    ensures OverviewScan(vs, desc).failed.Some? <==>
      exists i :: 0 <= i < |vs| && vs[i].Schulze? && vs[i].schulze.id in desc && desc[vs[i].schulze.id].MedianValue?
    ensures OverviewScan(vs, desc).failed.None? ==>
      forall id :: id in OverviewScan(vs, desc).optionMap <==> exists i :: 0 <= i < |vs| && IsSchulzeWith(vs[i], id)
    ensures OverviewScan(vs, desc).failed.None? ==>
      forall id :: id in OverviewScan(vs, desc).optionMap ==>
        if id in desc then desc[id].Options? && OverviewScan(vs, desc).optionMap[id] == OptionTexts(desc[id].options)
        else OverviewScan(vs, desc).optionMap[id] == []
  {
    OverviewFails(vs, desc);
    if OverviewScan(vs, desc).failed.None? {
      OverviewKeys(vs, desc);
      OverviewValues(vs, desc);
    }
  }

  lemma {:induction false} OverviewFails(vs: seq<Voting>, desc: map<int, Description>)
    ensures OverviewScan(vs, desc).failed.Some? <==>
      exists i :: 0 <= i < |vs| && vs[i].Schulze? && vs[i].schulze.id in desc && desc[vs[i].schulze.id].MedianValue?
  {
    if |vs| > 0 {
      var init, v := vs[..|vs| - 1], vs[|vs| - 1];
      OverviewFails(init, desc);
      var s := OverviewScan(init, desc);
      if s.failed.Some? {
        var i :| 0 <= i < |init| && init[i].Schulze? && init[i].schulze.id in desc && desc[init[i].schulze.id].MedianValue?;
        assert vs[i] == init[i];
      } else if v.Schulze? && v.schulze.id in desc && desc[v.schulze.id].MedianValue? {
        assert vs[|vs| - 1] == v;
      } else {
        forall i | 0 <= i < |vs|
          ensures !(vs[i].Schulze? && vs[i].schulze.id in desc && desc[vs[i].schulze.id].MedianValue?)
        {
          if i < |init| {
            assert vs[i] == init[i];
          }
        }
      }
    }
  }

  lemma {:induction false} OverviewKeys(vs: seq<Voting>, desc: map<int, Description>)
    requires OverviewScan(vs, desc).failed.None?
    ensures forall id :: id in OverviewScan(vs, desc).optionMap <==> exists i :: 0 <= i < |vs| && IsSchulzeWith(vs[i], id)
  {
    if |vs| > 0 {
      var init, v := vs[..|vs| - 1], vs[|vs| - 1];
      var s, r := OverviewScan(init, desc), OverviewScan(vs, desc);
      assert s.failed.None?;
      OverviewKeys(init, desc);
      forall id ensures id in r.optionMap <==> exists i :: 0 <= i < |vs| && IsSchulzeWith(vs[i], id) {
        if id in s.optionMap {
          var i :| 0 <= i < |init| && IsSchulzeWith(init[i], id);
          assert vs[i] == init[i];
        } else if IsSchulzeWith(v, id) {
          assert IsSchulzeWith(vs[|vs| - 1], id);
        } else {
          assert id !in r.optionMap;
          forall i | 0 <= i < |vs| ensures !IsSchulzeWith(vs[i], id) {
            if i < |init| {
              assert vs[i] == init[i];
            }
          }
        }
      }
    }
  }

  lemma {:induction false} OverviewValues(vs: seq<Voting>, desc: map<int, Description>)
    requires OverviewScan(vs, desc).failed.None?
    ensures forall id :: id in OverviewScan(vs, desc).optionMap ==>
      if id in desc then desc[id].Options? && OverviewScan(vs, desc).optionMap[id] == OptionTexts(desc[id].options)
      else OverviewScan(vs, desc).optionMap[id] == []
  {
    if |vs| > 0 {
      assert OverviewScan(vs[..|vs| - 1], desc).failed.None?;
      OverviewValues(vs[..|vs| - 1], desc);
    }
  }


  /** The ids of the Schulze votings among `vs` that have no description, in order. */
  function MissingIds(vs: seq<Voting>, desc: map<int, Description>): seq<int> {
    if |vs| == 0 then []
    else
      var v := vs[|vs| - 1];
      MissingIds(vs[..|vs| - 1], desc) + if v.Schulze? && v.schulze.id !in desc then [v.schulze.id] else []
  }

  /** Without a failure, the loop adds exactly one NoOptions warning per Schulze voting without a description, in order. */
  lemma {:induction false} OverviewWarnings(vs: seq<Voting>, desc: map<int, Description>)
    requires OverviewScan(vs, desc).failed.None?
    ensures |OverviewScan(vs, desc).warnings| == |MissingIds(vs, desc)|
    ensures forall k :: 0 <= k < |MissingIds(vs, desc)| ==>
      OverviewScan(vs, desc).warnings[k] == NoOptions(MissingIds(vs, desc)[k])
  {
    if |vs| > 0 {
      OverviewWarnings(vs[..|vs| - 1], desc);
    }
  }
}
