/**
  Updating the voters of a revision (`__update_voters` in views.py). The
  stored voters and the submitted roster are both turned into dictionaries
  keyed by name; every submitted voter is then inserted or, when its weight
  differs, updated, in submitted order, and afterwards every stored voter
  the roster no longer names is deleted. Each write adds one line to the
  summary that is shown to the user.
 */
module RevisionUpdate {
  import opened OrderedDicts

  /** A voter as the roster parser yields it, or a stored voter row: a name and a weight. */
  datatype WeightedVoter = WeightedVoter(name: string, weight: int)

  /** One line of the update summary (the model keeps the facts, not the text). */
  datatype SummaryEntry =
    | WeightChanged(name: string, oldWeight: int, newWeight: int)
    | Inserted(name: string, weight: int)
    | Deleted(name: string)
  {
    function Name(): string {
      match this
      case WeightChanged(n, _, _) => n
      case Inserted(n, _) => n
      case Deleted(n) => n
    }
  }

  /** A write to the voter table: `save(update_fields=['weight'])`, `objects.create`, `delete`. */
  datatype VoterWrite = SaveWeight(name: string, weight: int) | CreateVoter(name: string, weight: int) | DeleteVoter(name: string)

  /** The voter rows of one revision, keyed by name, and the writes made to them so far. */
  class Revision {
    var voters: map<string, int>
    var writes: seq<VoterWrite>

    constructor (voters: map<string, int>)
      ensures this.voters == voters && writes == []
    {
      this.voters := voters;
      writes := [];
    }
  }

  function Pairs(vs: seq<WeightedVoter>): (r: seq<(string, int)>)
    ensures |r| == |vs| && forall i :: 0 <= i < |vs| ==> r[i] == (vs[i].name, vs[i].weight)
  {
    seq(|vs|, i requires 0 <= i < |vs| => (vs[i].name, vs[i].weight))
  }

  /** `for v in vs: d[v.name] = v`: the weight of each name, names in order of first appearance. */
  function ByName(vs: seq<WeightedVoter>): Dict<string, int> {
    FromPairs(Pairs(vs))
  }

  /** The summary line of one submitted voter, if its name is new or its weight changed. */
  function Upsert(item: (string, int), before: map<string, int>): seq<SummaryEntry> {
    var (name, w) := item;
    if name !in before then [Inserted(name, w)]
    else if w != before[name] then [WeightChanged(name, before[name], w)]
    else []
  }

  /** The lines of the first loop, over the submitted voters in order. */
  function Upserts(items: seq<(string, int)>, before: map<string, int>): seq<SummaryEntry> {
    if |items| == 0 then []
    else Upserts(items[..|items| - 1], before) + Upsert(items[|items| - 1], before)
  }

  /** The lines of the second loop, over the stored names in order. */
  function Deletions(names: seq<string>, after: map<string, int>): seq<SummaryEntry> {
    if |names| == 0 then []
    else
      var name := names[|names| - 1];
      Deletions(names[..|names| - 1], after) + (if name in after then [] else [Deleted(name)])
  }

  /** The summary `__update_voters` returns. */
  function Summary(stored: seq<WeightedVoter>, submitted: seq<WeightedVoter>): seq<SummaryEntry> {
    var before, after := ByName(stored), ByName(submitted);
    Upserts(after.Items(), before.entries) + Deletions(before.keys, after.entries)
  }

  /** The write that goes with a summary line. */
  function WriteOf(e: SummaryEntry): VoterWrite {
    match e
    case WeightChanged(n, _, w) => SaveWeight(n, w)
    case Inserted(n, w) => CreateVoter(n, w)
    case Deleted(n) => DeleteVoter(n)
  }

  /** The writes that go with the lines of `s`, in order. */
  function Writes(s: seq<SummaryEntry>): seq<VoterWrite> {
    if |s| == 0 then [] else Writes(s[..|s| - 1]) + [WriteOf(s[|s| - 1])]
  }

  /** The names the lines of `s` are about, in order. */
  function Names(s: seq<SummaryEntry>): seq<string> {
    if |s| == 0 then [] else Names(s[..|s| - 1]) + [s[|s| - 1].Name()]
  }

  /**
    `__update_voters(old_voters, new_voters, revision)`: afterwards the
    revision holds exactly the submitted names with their submitted weights,
    and the table received one write per summary line, in summary order.
   */
  method UpdateVoters(rev: Revision, stored: seq<WeightedVoter>, submitted: seq<WeightedVoter>) returns (summary: seq<SummaryEntry>)
    modifies rev
    requires rev.voters == ByName(stored).entries
    ensures summary == Summary(stored, submitted)
    ensures rev.voters == ByName(submitted).entries
    ensures rev.writes == old(rev.writes) + Writes(summary)
  {
    var before, after := ByName(stored), ByName(submitted);
    ghost var written := rev.writes;
    var upserts := ApplySubmitted(rev, before, after);
    FromItems(after);
    var deletions := DeleteMissing(rev, before, after);
    summary := upserts + deletions;
    WritesAppend(upserts, deletions);
    Assoc(written, Writes(upserts), Writes(deletions));
  }

  /** The first loop: insert new names and save changed weights, in submitted order. */
  method ApplySubmitted(rev: Revision, before: Dict<string, int>, after: Dict<string, int>) returns (summary: seq<SummaryEntry>)
    modifies rev
    requires after.Valid()
    requires rev.voters == before.entries
    ensures summary == Upserts(after.Items(), before.entries)
    ensures rev.voters == before.entries + FromPairs(after.Items()).entries
    ensures rev.writes == old(rev.writes) + Writes(summary)
  {
    summary := [];
    var i := 0;
    ApplyStart(before.entries, after, rev.writes);
    while i < |after.keys|
      invariant 0 <= i <= |after.keys|
      invariant summary == Upserts(after.Items()[..i], before.entries)
      invariant rev.voters == before.entries + FromPairs(after.Items()[..i]).entries
      invariant rev.writes == old(rev.writes) + Writes(summary)
    {
      summary := ApplyItem(rev, before.entries, after, i, summary, old(rev.writes));
      i := i + 1;
    }
    ApplyEnd(after);
  }


  /** The pass of the first loop for the `i`-th submitted name, with the loop's invariant before and after. */
  method ApplyItem(rev: Revision, before: map<string, int>, after: Dict<string, int>, i: nat, summary: seq<SummaryEntry>, ghost log: seq<VoterWrite>)
    returns (summary': seq<SummaryEntry>)
    modifies rev
    requires after.Valid() && i < |after.keys|
    requires summary == Upserts(after.Items()[..i], before)
    requires rev.voters == before + FromPairs(after.Items()[..i]).entries
    requires rev.writes == log + Writes(summary)
    ensures summary' == Upserts(after.Items()[..i + 1], before)
    ensures rev.voters == before + FromPairs(after.Items()[..i + 1]).entries
    ensures rev.writes == log + Writes(summary')
  {
    var name, w := after.keys[i], after.entries[after.keys[i]];
    ApplyStep(before, after, i);
    var line := ApplyOne(rev, name, w, before);
    LogStep(log, summary, line);
    summary' := summary + line;
  }

  lemma ApplyStart(before: map<string, int>, after: Dict<string, int>, log: seq<VoterWrite>)
    requires after.Valid()
    ensures Upserts(after.Items()[..0], before) == []
    ensures before + FromPairs(after.Items()[..0]).entries == before
    ensures log + Writes([]) == log
  {
    assert after.Items()[..0] == [];
  }

  lemma ApplyEnd(after: Dict<string, int>)
    requires after.Valid()
    ensures after.Items()[..|after.keys|] == after.Items()
  {
  }


  /** How one pass of the first loop moves the loop's summary and map forward. */
  lemma ApplyStep(before: map<string, int>, after: Dict<string, int>, i: nat)
    requires after.Valid() && i < |after.keys|
    ensures var items := after.Items();
      && Upserts(items[..i + 1], before) == Upserts(items[..i], before) + Upsert(items[i], before)
      && items[i].0 !in FromPairs(items[..i]).entries
      && before + FromPairs(items[..i + 1]).entries == (before + FromPairs(items[..i]).entries)[items[i].0 := items[i].1]
  {
    var items := after.Items();
    UpsertStep(items, i, before);
    ItemsKeys(after);
    PairKeysPrefix(items, i);
    assert items[i].0 == after.keys[i] && after.keys[i] !in after.keys[..i];
    MergeAssign(before, FromPairs(items[..i]).entries, items[i].0, items[i].1);
  }

  /** Appending one line's writes to the log keeps it equal to the writes of the summary so far. */
  lemma LogStep(log: seq<VoterWrite>, summary: seq<SummaryEntry>, line: seq<SummaryEntry>)
    ensures (log + Writes(summary)) + Writes(line) == log + Writes(summary + line)
  {
    WritesAppend(summary, line);
  }


  /** The second loop: delete the stored names the roster lacks, in stored order. */
  method DeleteMissing(rev: Revision, before: Dict<string, int>, after: Dict<string, int>) returns (summary: seq<SummaryEntry>)
    modifies rev
    requires before.Valid() && after.Valid()
    requires rev.voters == before.entries + after.entries
    ensures summary == Deletions(before.keys, after.entries)
    ensures rev.voters == after.entries
    ensures rev.writes == old(rev.writes) + Writes(summary)
  {
    var names := before.keys;
    summary := [];
    var j := 0;
    assert names[..0] == [];
    assert Gone([], after.entries) == {};
    WritesAppend([], []);
    while j < |names|
      invariant 0 <= j <= |names|
      invariant summary == Deletions(names[..j], after.entries)
      invariant rev.voters == (before.entries + after.entries) - Gone(names[..j], after.entries)
      invariant rev.writes == old(rev.writes) + Writes(summary)
    {
      summary := DeleteItem(rev, before.entries + after.entries, names, j, after.entries, summary, old(rev.writes));
      j := j + 1;
    }
    assert names[..j] == names;
    GoneAll(before, after);
  }

  /** The pass of the second loop for the `j`-th stored name, with the loop's invariant before and after. */
  method DeleteItem(rev: Revision, both: map<string, int>, names: seq<string>, j: nat, after: map<string, int>, summary: seq<SummaryEntry>, ghost log: seq<VoterWrite>)
    returns (summary': seq<SummaryEntry>)
    modifies rev
    requires j < |names|
    requires summary == Deletions(names[..j], after)
    requires rev.voters == both - Gone(names[..j], after)
    requires rev.writes == log + Writes(summary)
    ensures summary' == Deletions(names[..j + 1], after)
    ensures rev.voters == both - Gone(names[..j + 1], after)
    ensures rev.writes == log + Writes(summary')
  {
    var name := names[j];
    DeleteStep(names, j, after);
    assert both - Gone(names[..j], after) - (if name in after then {} else {name}) ==
      both - (Gone(names[..j], after) + if name in after then {} else {name});
    var line := DeleteIfMissing(rev, name, after);
    LogStep(log, summary, line);
    summary' := summary + line;
  }

  /** One pass of the first loop: insert a new name, save a changed weight, or do nothing. */
  method ApplyOne(rev: Revision, name: string, w: int, before: map<string, int>) returns (line: seq<SummaryEntry>)
    modifies rev
    requires name in rev.voters <==> name in before
    requires name in before ==> rev.voters[name] == before[name]
    ensures line == Upsert((name, w), before)
    ensures rev.voters == old(rev.voters)[name := w]
    ensures rev.writes == old(rev.writes) + Writes(line)
  {
    if name in before {
      if w != before[name] {
        line := [WeightChanged(name, before[name], w)];
        rev.voters := rev.voters[name := w];
        rev.writes := rev.writes + [SaveWeight(name, w)];
      } else {
        line := [];
        assert rev.voters == rev.voters[name := w];
      }
    } else {
      line := [Inserted(name, w)];
      rev.voters := rev.voters[name := w];
      rev.writes := rev.writes + [CreateVoter(name, w)];
    }
  }

  /** One pass of the second loop: delete the name when the roster lacks it. */
  method DeleteIfMissing(rev: Revision, name: string, after: map<string, int>) returns (line: seq<SummaryEntry>)
    modifies rev
    ensures line == if name in after then [] else [Deleted(name)]
    ensures rev.voters == old(rev.voters) - (if name in after then {} else {name})
    ensures rev.writes == old(rev.writes) + Writes(line)
  {
    if name !in after {
      line := [Deleted(name)];
      rev.voters := rev.voters - {name};
      rev.writes := rev.writes + [DeleteVoter(name)];
    } else {
      line := [];
      assert rev.voters == rev.voters - {};
    }
  }

  /** The stored names the submitted roster lacks. */
  function Gone(names: seq<string>, after: map<string, int>): set<string> {
    set n | n in names && n !in after
  }

  lemma {:induction false} WritesAppend(a: seq<SummaryEntry>, b: seq<SummaryEntry>)
    ensures Writes(a + b) == Writes(a) + Writes(b)
  {
    if |b| > 0 {
      var init := b[..|b| - 1];
      assert (a + b)[..|a + b| - 1] == a + init;
      WritesAppend(a, init);
    } else {
      assert a + b == a;
    }
  }

  lemma DeleteStep(names: seq<string>, j: nat, after: map<string, int>)
    requires j < |names|
    ensures Deletions(names[..j + 1], after) == Deletions(names[..j], after) + (if names[j] in after then [] else [Deleted(names[j])])
    ensures Gone(names[..j + 1], after) == Gone(names[..j], after) + (if names[j] in after then {} else {names[j]})
  {
    assert names[..j + 1][..j] == names[..j];
    assert names[..j + 1] == names[..j] + [names[j]];
  }

  /** Removing every stored name the roster lacks leaves exactly the roster. */
  lemma GoneAll(before: Dict<string, int>, after: Dict<string, int>)
    requires before.Valid()
    ensures (before.entries + after.entries) - Gone(before.keys, after.entries) == after.entries
  {
  }

  lemma UpsertStep(items: seq<(string, int)>, i: nat, before: map<string, int>)
    requires i < |items|
    ensures Upserts(items[..i + 1], before) == Upserts(items[..i], before) + Upsert(items[i], before)
    ensures FromPairs(items[..i + 1]).entries == FromPairs(items[..i]).entries[items[i].0 := items[i].1]
  {
    assert items[..i + 1][..i] == items[..i];
  }

  // Properties of the summary

  /**
    The summary reports exactly the weight changes, the insertions and the
    deletions: a changed weight with its old and new value, a new name with
    its weight, and a stored name the roster lacks.
   */
  lemma SummaryMeaning(stored: seq<WeightedVoter>, submitted: seq<WeightedVoter>)
    ensures var s, before, after := Summary(stored, submitted), ByName(stored).entries, ByName(submitted).entries;
      forall n, a, b :: WeightChanged(n, a, b) in s <==> n in before && n in after && a == before[n] && b == after[n] && a != b
    ensures var s, before, after := Summary(stored, submitted), ByName(stored).entries, ByName(submitted).entries;
      forall n, w :: Inserted(n, w) in s <==> n !in before && n in after && w == after[n]
    ensures var s, before, after := Summary(stored, submitted), ByName(stored).entries, ByName(submitted).entries;
      forall n :: Deleted(n) in s <==> n in before && n !in after
  {
    var before, after := ByName(stored), ByName(submitted);
    var u, d := Upserts(after.Items(), before.entries), Deletions(before.keys, after.entries);
    UpsertsMembers(after.Items(), before.entries);
    DeletionsMembers(before.keys, after.entries);
    ItemsMember(after);
  }

  /** Changes and insertions come first, deletions after them. */
  lemma SummaryOrder(stored: seq<WeightedVoter>, submitted: seq<WeightedVoter>)
    ensures var s := Summary(stored, submitted);
      forall i, j :: 0 <= i < j < |s| && s[i].Deleted? ==> s[j].Deleted?
  {
    var before, after := ByName(stored), ByName(submitted);
    UpsertsMembers(after.Items(), before.entries);
    DeletionsMembers(before.keys, after.entries);
    DeletionsLast(Upserts(after.Items(), before.entries), Deletions(before.keys, after.entries));
  }

  lemma DeletionsLast(u: seq<SummaryEntry>, d: seq<SummaryEntry>)
    requires forall e :: e in u ==> !e.Deleted?
    requires forall e :: e in d ==> e.Deleted?
    ensures forall i, j :: 0 <= i < j < |u + d| && (u + d)[i].Deleted? ==> (u + d)[j].Deleted?
  {
    var s := u + d;
    forall k | 0 <= k < |u| ensures !s[k].Deleted? {
      assert s[k] == u[k] && u[k] in u;
    }
    forall k | |u| <= k < |s| ensures s[k].Deleted? {
      assert s[k] == d[k - |u|] && d[k - |u|] in d;
    }
  }


  /**
    Every name gets at most one line; the changes and insertions follow the
    order in which the roster first names each voter, and the deletions the
    order of the stored voters.
   */
  lemma SummaryNames(stored: seq<WeightedVoter>, submitted: seq<WeightedVoter>)
    ensures Distinct(Names(Summary(stored, submitted)))
    ensures var before, after := ByName(stored), ByName(submitted);
      Subsequence(Names(Upserts(after.Items(), before.entries)), after.keys)
    ensures var before, after := ByName(stored), ByName(submitted);
      Subsequence(Names(Deletions(before.keys, after.entries)), before.keys)
  {
    var before, after := ByName(stored), ByName(submitted);
    UpsertNamesOrdered(before.entries, after);
    DeletionsInOrder(before.keys, after.entries);
    DistinctNames(before, after);
  }

  lemma UpsertNamesOrdered(before: map<string, int>, after: Dict<string, int>)
    requires after.Valid()
    ensures Subsequence(Names(Upserts(after.Items(), before)), after.keys)
  {
    UpsertsInOrder(after.Items(), before);
    ItemsKeys(after);
  }

  lemma DistinctNames(before: Dict<string, int>, after: Dict<string, int>)
    requires before.Valid() && after.Valid()
    requires Subsequence(Names(Upserts(after.Items(), before.entries)), after.keys)
    requires Subsequence(Names(Deletions(before.keys, after.entries)), before.keys)
    ensures Distinct(Names(Upserts(after.Items(), before.entries) + Deletions(before.keys, after.entries)))
  {
    var u, d := Upserts(after.Items(), before.entries), Deletions(before.keys, after.entries);
    var nu, nd := Names(u), Names(d);
    SubsequenceDistinct(nu, after.keys);
    SubsequenceDistinct(nd, before.keys);
    NamesAppend(u, d);
    SubsequenceMembers(nu, after.keys);
    DeletionsNames(before.keys, after.entries);
    DistinctAppend(nu, nd);
  }

  /** A voter whose weight stays the same gets no summary line and no write. */
  lemma UnchangedUntouched(stored: seq<WeightedVoter>, submitted: seq<WeightedVoter>, n: string)
    requires n in ByName(stored).entries && n in ByName(submitted).entries
    requires ByName(stored).entries[n] == ByName(submitted).entries[n]
    ensures n !in Names(Summary(stored, submitted))
    ensures forall w :: w in Writes(Summary(stored, submitted)) ==> w.name != n
  {
    var s := Summary(stored, submitted);
    UnchangedNoLine(stored, submitted, n);
    NamesMember(s, n);
    WritesNames(s);
  }

  lemma UnchangedNoLine(stored: seq<WeightedVoter>, submitted: seq<WeightedVoter>, n: string)
    requires n in ByName(stored).entries && n in ByName(submitted).entries
    requires ByName(stored).entries[n] == ByName(submitted).entries[n]
    ensures forall e :: e in Summary(stored, submitted) ==> e.Name() != n
  {
    var s := Summary(stored, submitted);
    SummaryMeaning(stored, submitted);
    forall e | e in s ensures e.Name() != n {
      match e
      case WeightChanged(m, a, b) =>
      case Inserted(m, w) =>
      case Deleted(m) =>
    }
  }

  /**
    The revision ends up with exactly the names the roster spells, and a name
    given twice keeps the weight of its last occurrence.
   */
  lemma RosterMeaning(submitted: seq<WeightedVoter>)
    ensures forall n :: n in ByName(submitted).entries <==> exists i :: 0 <= i < |submitted| && submitted[i].name == n
    ensures forall i :: 0 <= i < |submitted| && (forall j :: i < j < |submitted| ==> submitted[j].name != submitted[i].name) ==>
      ByName(submitted).entries[submitted[i].name] == submitted[i].weight
  {
    var pairs := Pairs(submitted);
    forall n ensures n in ByName(submitted).entries <==> exists i :: 0 <= i < |submitted| && submitted[i].name == n {
      if n in ByName(submitted).entries {
        assert n in PairKeys(pairs);
        var i :| 0 <= i < |pairs| && PairKeys(pairs)[i] == n;
        assert submitted[i].name == n;
      }
      if exists i :: 0 <= i < |submitted| && submitted[i].name == n {
        var i :| 0 <= i < |submitted| && submitted[i].name == n;
        assert PairKeys(pairs)[i] == n;
      }
    }
    forall i | 0 <= i < |submitted| && (forall j :: i < j < |submitted| ==> submitted[j].name != submitted[i].name)
      ensures ByName(submitted).entries[submitted[i].name] == submitted[i].weight
    {
      FromPairsLast(pairs, i);
    }
  }

  // Helpers

  /** `a` is `b` with some elements left out, the rest in the same order. */
  predicate Subsequence<T(==)>(a: seq<T>, b: seq<T>)
    decreases |b|
  {
    if |a| == 0 then true
    else if |b| == 0 then false
    else if a[|a| - 1] == b[|b| - 1] then Subsequence(a[..|a| - 1], b[..|b| - 1])
    else Subsequence(a, b[..|b| - 1])
  }

  lemma {:induction false} SubsequenceDropLast<T>(a: seq<T>, b: seq<T>)
    requires |a| > 0 && Subsequence(a, b)
    ensures Subsequence(a[..|a| - 1], b)
    decreases |b|
  {
    var a', b' := a[..|a| - 1], b[..|b| - 1];
    if |a'| > 0 {
      if a[|a| - 1] == b[|b| - 1] {
        if a'[|a'| - 1] == b[|b| - 1] {
          SubsequenceDropLast(a', b');
        }
      } else {
        SubsequenceDropLast(a, b');
        if a'[|a'| - 1] == b[|b| - 1] {
          SubsequenceDropLast(a', b');
        }
      }
    }
  }

  lemma {:induction false} SubsequenceMembers<T>(a: seq<T>, b: seq<T>)
    requires Subsequence(a, b)
    ensures forall x :: x in a ==> x in b
    decreases |b|
  {
    if |a| > 0 {
      var a', b' := a[..|a| - 1], b[..|b| - 1];
      if a[|a| - 1] == b[|b| - 1] {
        SubsequenceMembers(a', b');
        assert a == a' + [a[|a| - 1]];
        assert b == b' + [b[|b| - 1]];
      } else {
        SubsequenceMembers(a, b');
        assert b == b' + [b[|b| - 1]];
      }
    }
  }

  lemma {:induction false} SubsequenceDistinct<T>(a: seq<T>, b: seq<T>)
    requires Subsequence(a, b) && Distinct(b)
    ensures Distinct(a)
    decreases |b|
  {
    if |a| > 0 {
      var a', b' := a[..|a| - 1], b[..|b| - 1];
      assert Distinct(b') by {
        forall i, j | 0 <= i < j < |b'| ensures b'[i] != b'[j] {
          assert b'[i] == b[i] && b'[j] == b[j];
        }
      }
      if a[|a| - 1] == b[|b| - 1] {
        SubsequenceDistinct(a', b');
        SubsequenceMembers(a', b');
        forall i, j | 0 <= i < j < |a| ensures a[i] != a[j] {
          if j < |a| - 1 {
            assert a[i] == a'[i] && a[j] == a'[j];
          } else {
            assert a[i] == a'[i];
            assert a'[i] in b';
            var k :| 0 <= k < |b'| && b'[k] == a'[i];
            assert b[k] == b'[k];
          }
        }
      } else {
        SubsequenceDistinct(a, b');
      }
    }
  }

  lemma DistinctAppend<T>(a: seq<T>, b: seq<T>)
    requires Distinct(a) && Distinct(b)
    requires forall x :: x in a ==> x !in b
    ensures Distinct(a + b)
  {
    var s := a + b;
    forall i, j | 0 <= i < j < |s| ensures s[i] != s[j] {
      if j < |a| {
        assert s[i] == a[i] && s[j] == a[j];
      } else if i >= |a| {
        assert s[i] == b[i - |a|] && s[j] == b[j - |a|];
      } else {
        assert s[i] == a[i] && s[j] == b[j - |a|];
        assert a[i] in a;
      }
    }
  }

  lemma {:induction false} NamesAppend(a: seq<SummaryEntry>, b: seq<SummaryEntry>)
    ensures Names(a + b) == Names(a) + Names(b)
  {
    if |b| > 0 {
      var init := b[..|b| - 1];
      assert (a + b)[..|a + b| - 1] == a + init;
      NamesAppend(a, init);
    } else {
      assert a + b == a;
    }
  }

  lemma {:induction false} NamesMember(s: seq<SummaryEntry>, n: string)
    ensures n in Names(s) <==> exists e :: e in s && e.Name() == n
  {
    if |s| > 0 {
      var init := s[..|s| - 1];
      NamesMember(init, n);
      assert s == init + [s[|s| - 1]];
    }
  }

  lemma {:induction false} WritesNames(s: seq<SummaryEntry>)
    ensures forall w :: w in Writes(s) ==> exists e :: e in s && e.Name() == w.name
  {
    if |s| > 0 {
      var init, last := s[..|s| - 1], s[|s| - 1];
      WritesNames(init);
      assert s == init + [last];
      forall w | w in Writes(s) ensures exists e :: e in s && e.Name() == w.name {
        if w in Writes(init) {
          var e :| e in init && e.Name() == w.name;
          assert e in s;
        } else {
          assert w == WriteOf(last);
          assert last in s;
        }
      }
    }
  }

  lemma {:induction false} UpsertsMembers(items: seq<(string, int)>, before: map<string, int>)
    ensures forall n, a, b :: WeightChanged(n, a, b) in Upserts(items, before) <==> n in before && a == before[n] && a != b && (n, b) in items
    ensures forall n, w :: Inserted(n, w) in Upserts(items, before) <==> n !in before && (n, w) in items
    ensures forall e :: e in Upserts(items, before) ==> !e.Deleted?
  {
    if |items| > 0 {
      var init, last := items[..|items| - 1], items[|items| - 1];
      UpsertsMembers(init, before);
      assert items == init + [last];
      var u, line := Upserts(init, before), Upsert(last, before);
      assert Upserts(items, before) == u + line;
      forall n, a, b ensures WeightChanged(n, a, b) in u + line <==> n in before && a == before[n] && a != b && (n, b) in items {
        assert (n, b) in items <==> (n, b) in init || (n, b) == last;
      }
      forall n, w ensures Inserted(n, w) in u + line <==> n !in before && (n, w) in items {
        assert (n, w) in items <==> (n, w) in init || (n, w) == last;
      }
    }
  }

  lemma {:induction false} DeletionsMembers(names: seq<string>, after: map<string, int>)
    ensures forall e :: e in Deletions(names, after) <==> e.Deleted? && e.name in names && e.name !in after
  {
    if |names| > 0 {
      var init := names[..|names| - 1];
      DeletionsMembers(init, after);
      assert names == init + [names[|names| - 1]];
    }
  }

  lemma DeletionsNames(names: seq<string>, after: map<string, int>)
    ensures forall x :: x in Names(Deletions(names, after)) ==> x !in after
  {
    var d := Deletions(names, after);
    DeletionsMembers(names, after);
    forall x | x in Names(d) ensures x !in after {
      NamesMember(d, x);
    }
  }

  lemma {:induction false} UpsertsInOrder(items: seq<(string, int)>, before: map<string, int>)
    ensures Subsequence(Names(Upserts(items, before)), PairKeys(items))
  {
    if |items| > 0 {
      var init, last := items[..|items| - 1], items[|items| - 1];
      UpsertsInOrder(init, before);
      var u, line := Upserts(init, before), Upsert(last, before);
      assert Upserts(items, before) == u + line;
      NamesAppend(u, line);
      PairKeysSnoc(items);
      UpsertNames(last, before);
      if |line| == 1 {
        SubsequenceSnoc(Names(u), PairKeys(init), last.0);
      } else {
        assert Names(u) + Names(line) == Names(u);
        SubsequenceExtend(Names(u), PairKeys(init), last.0);
      }
    }
  }

  /** The line of one item names that item, or there is no line. */
  lemma UpsertNames(item: (string, int), before: map<string, int>)
    ensures |Upsert(item, before)| <= 1
    ensures |Upsert(item, before)| == 1 ==> Names(Upsert(item, before)) == [item.0]
    ensures |Upsert(item, before)| == 0 ==> Names(Upsert(item, before)) == []
  {
    var line := Upsert(item, before);
    if |line| == 1 {
      assert line == [line[0]];
      NamesSingle(line[0]);
    }
  }

  lemma {:induction false} DeletionsInOrder(names: seq<string>, after: map<string, int>)
    ensures Subsequence(Names(Deletions(names, after)), names)
  {
    if |names| > 0 {
      var init, last := names[..|names| - 1], names[|names| - 1];
      DeletionsInOrder(init, after);
      var d := Deletions(init, after);
      var line: seq<SummaryEntry> := if last in after then [] else [Deleted(last)];
      NamesAppend(d, line);
      assert names == init + [last];
      if last !in after {
        assert Names(line) == [last];
        SubsequenceSnoc(Names(d), init, last);
      } else {
        assert Names(d) + Names(line) == Names(d);
        SubsequenceExtend(Names(d), init, last);
      }
    }
  }

  lemma NamesSingle(e: SummaryEntry)
    ensures Names([e]) == [e.Name()]
  {
    assert [e][..0] == [];
  }

  lemma SubsequenceSnoc<T>(a: seq<T>, b: seq<T>, x: T)
    requires Subsequence(a, b)
    ensures Subsequence(a + [x], b + [x])
  {
    assert (a + [x])[..|a|] == a;
    assert (b + [x])[..|b|] == b;
  }

  lemma SubsequenceExtend<T>(a: seq<T>, b: seq<T>, x: T)
    requires Subsequence(a, b)
    ensures Subsequence(a, b + [x])
  {
    assert (b + [x])[..|b|] == b;
    if |a| > 0 && a[|a| - 1] == x {
      SubsequenceDropLast(a, b);
    }
  }
}
