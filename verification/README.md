# StuRa voting: a verified model of the vote-handling core

This project models, in Dafny, the core of a Django application that a
student council (StuRa) uses to run its votings. A *voting collection*
holds *voting groups*; each group holds median votings (a sum of money,
where every voter names an amount) and Schulze votings (every voter ranks
the options). A *revision* holds the voters with their weights. The model
covers these parts:

- exact fractions (`Fraction`) and the majority threshold computed from them;
- the text fields that clean a Schulze ranking, a group order and a currency amount;
- `GenericVotingResult`:
  - its keys and its grouping of votings by group;
  - the overview of Schulze options;
  - the merge of a median result with a Schulze result;
  - the per-voter queries and their sanity checks;
- the evaluation passes: `median_for_evaluation`, which keeps one vote per voter and rejects votes above the voting's value, and `schulze_for_evaluation`, which groups ballots, removes invalid ones and prunes empty votings;
- the view handlers:
  - the handler that replaces a revision's voters;
  - the handlers that store one voter's median or Schulze vote;
  - the loop that renumbers the votings of a group;
  - the helper that picks the number of a new voting.

Database rows become values. A query becomes an input sequence already in
the order the query asks for. Python's dicts and `OrderedDict` become
`OrderedDicts.Dict`: keys in insertion order plus a map. An object whose
fields the source changes in place becomes a class with those fields:
`GenericVotingResult`, `Revision`, `VoteStore`, `VotingNumbers`. A loop
becomes a method with invariants, proved against a specification
function. The lemmas beside it state what the source promises.

Modules, one per file:

- `Wrappers`: Option and Result.
- `Text`: Python's `strip`, `split`, `' '.join`, `int()` and `str()`.
- `OrderedDicts`: insertion-ordered dictionaries.
- `Grouping`: `itertools.groupby`.
- `Fractions`: `fraction.py`.
- `Majority`: `compute_majority` in `utils.py`.
- `Fields`: `fields.py`.
- `Results`: the records and `GenericVotingResult` in `results.py`.
- `ResultMerge`: `merge_voting_results`.
- `VoterResults`: `schulze_votings`, `median_votes_for_voter` and `schulze_votes_for_voter`.
- `MedianEvaluation`: `median.py`.
- `SchulzeEvaluation`: `schulze.py`.
- `RevisionUpdate`: `__update_voters`.
- `VoteEntry`: `__handle_enter_median` and `__handle_enter_schulze`.
- `GroupEdit`: the reorder loop and `_get_max_voting_num`.

## Model

| member | source | states |
|---|---|---|
| Fractions.New | stura_voting/votings/fraction.py:34-38 | a fraction is refused (ZeroDivisionError) exactly when the denominator is 0; otherwise both parts are stored as given and it is worth numerator/denominator |
| Fractions.FromInt | stura_voting/votings/fraction.py:34-38 | `Fraction(n)` is worth exactly n |
| Fractions.Add | stura_voting/votings/fraction.py:49-51 | the unreduced sum is worth exactly the sum of the values, with the product of the denominators as denominator |
| Fractions.Sub | stura_voting/votings/fraction.py:53-55 | the unreduced difference is worth exactly the difference of the values |
| Fractions.Mul | stura_voting/votings/fraction.py:57-59 | the unreduced product is worth exactly the product of the values |
| Fractions.Div | stura_voting/votings/fraction.py:61-63 | the division fails exactly when the divisor's numerator is 0, and is otherwise worth exactly the quotient |
| Fractions.IsZero | stura_voting/votings/fraction.py:95-101 | true exactly when the value is 0, which is exactly when the numerator is 0 |
| Fractions.Normalize | stura_voting/votings/fraction.py:65-73 | the value is kept; numerator and denominator become coprime; the denominator keeps its sign; zero becomes 0/±1 |
| Fractions.NormalizeIdempotent | stura_voting/votings/fraction.py:65-73 | normalizing twice is the same as normalizing once |
| Fractions.NormalizeExample | stura_voting/votings/fraction.py:65-73 | 50/100 normalizes to 1/2 |
| Fractions.FloorDiv | stura_voting/votings/fraction.py:87 | Python's `//`: the quotient rounded toward minus infinity, for either sign of the divisor |
| Fractions.Split | stura_voting/votings/fraction.py:81-93 | integer part plus rest equals the value; the integer part is the floor; the rest lies in [0, 1) and keeps the denominator, also for negative fractions and denominators |
| Fractions.SplitMonotone | stura_voting/votings/fraction.py:81-93 | a larger value never has a smaller integer part |
| Fractions.SplitExample | stura_voting/votings/fraction.py:81-93 | 10/3 splits into 3 and 1/3 |
| Majority.MajorityFraction | stura_voting/votings/utils.py:299-305 | a given Fraction is used as is; "50" means 1/2 and "2/3" means 2/3; every other description is refused |
| Majority.ComputeMajority | stura_voting/votings/utils.py:277-308 | fails exactly when the description is unknown, with ValueError; otherwise returns the floor of the exact product majority × votes_sum |
| Majority.MoreThanThreshold | stura_voting/votings/utils.py:288-292 | having more votes than the threshold is the same as having more than majority × votes_sum votes |
| Majority.FiftyOfFiftyOne | stura_voting/votings/utils.py:288 | the documented example: 51 voters with majority 1/2 give 25, both as "50" and as a Fraction |
| Majority.FiftyOfTen | stura_voting/votings/utils.py:299-308 | with 10 voters and a simple majority the threshold is 5, so 5 votes fail and 6 pass |
| Majority.TwoThirdsOfThirty | stura_voting/votings/utils.py:299-308 | with 30 voters and two thirds the threshold is 20 |
| Majority.UnknownDescription | stura_voting/votings/utils.py:304-305 | any other description raises ValueError naming it |
| Majority.ThresholdBounds | stura_voting/votings/utils.py:278-292 | for a majority in [0, 1] and votes_sum ≥ 0 the threshold lies in [0, votes_sum] |
| Majority.ThresholdMonotone | stura_voting/votings/utils.py:306-308 | for a non-negative majority, more votes never lower the threshold |
| Fields.ReadPiece | stura_voting/votings/fields.py:89-98 | a blank piece is skipped; otherwise it is read as a non-negative integer whose `int()` is the value, or it is refused |
| Fields.ParseTokens | stura_voting/votings/fields.py:88-98 | the token loop shared by both fields computes the token specification |
| Fields.ParsePiecesMeaning | stura_voting/votings/fields.py:88-98 | the loop succeeds exactly when every non-blank stripped piece is a non-negative integer, and then yields their values in token order |
| Fields.FailureIsFinal | stura_voting/votings/fields.py:92-98 | after the first refused token, the remaining pieces cannot change the error |
| Fields.CleanSchulzeVote | stura_voting/votings/fields.py:81-101 | `SchulzeVoteField.clean` computes the ranking specification |
| Fields.SchulzeVoteMeaning | stura_voting/votings/fields.py:81-101 | blank text gives None; otherwise the ranking is accepted exactly when all tokens are non-negative integers and there are `num_options` of them, and it holds their values in order |
| Fields.SchulzeVoteMixedSeparators | stura_voting/votings/fields.py:70-91 | "a, b;c" gives [a, b, c] for any three numbers: comma, space and semicolon all separate, and the empty piece is skipped |
| Fields.SchulzeVoteRoundTrip | stura_voting/votings/forms.py:136-137 | cleaning the space-joined text of a non-empty ranking of non-negative positions gives that ranking back |
| Fields.CleanGroupOrder | stura_voting/votings/fields.py:109-131 | `GroupOrderField.clean` computes the group-order specification |
| Fields.GroupOrderMeaning | stura_voting/votings/fields.py:109-131 | blank text gives the empty string; otherwise the order is accepted exactly when there are `num_votings` non-negative integer tokens with distinct values, and it holds them in order |
| Fields.DistinctBySize | stura_voting/votings/fields.py:129-130 | `len(order) == len(set(order))` holds exactly when the positions are pairwise distinct |
| Fields.GroupOrderRepeatedPosition | stura_voting/votings/fields.py:127-130 | a rendered order with a repeated position is refused as not unique even when its length is right |
| Fields.GroupOrderRoundTrip | stura_voting/votings/forms.py:170-171 | cleaning `' '.join(map(str, order))` gives the order back when its positions are distinct |
| Fields.CleanCurrency | stura_voting/votings/fields.py:53-67 | blank text gives None; otherwise the result is accepted exactly when the parse gave an amount in [0, max_value], and it is that amount; the errors are "no valid currency" and "out of range" |
| Results.GenericVotingResult.constructor | stura_voting/votings/results.py:123-132 | a new result has empty votings, votes, warnings and descriptions |
| Results.ParseKey | stura_voting/votings/results.py:114-120 | None exactly when the text has neither prefix; ValueError only after a known prefix; the kind is median exactly when the median prefix matches |
| Results.KeyRoundTrip | stura_voting/votings/results.py:93-120 | parsing the median or Schulze key of any id gives back its kind and id |
| Results.KeyNotANumber | stura_voting/votings/results.py:103-110 | a known prefix followed by something that is not an integer raises ValueError |
| Results.ByGroupProperties | stura_voting/votings/results.py:134-136 | the groups put together give the votings back in order; no group is empty; each voting belongs to its group; neighbouring groups differ |
| Results.GenericVotingResult.ForOverviewTemplate | stura_voting/votings/results.py:138-170 | returns the groups of `by_group` and the option map; raises exactly when a Schulze voting is described by a median value; the warnings of the scan are appended in every case |
| Results.GenericVotingResult.ScanGroups | stura_voting/votings/results.py:151-169 | the outer loop over the groups computes the scan of all votings |
| Results.GenericVotingResult.ScanGroup | stura_voting/votings/results.py:152-168 | the inner loop over one group's votings extends the scan by exactly those votings and stops at the first failure |
| Results.GenericVotingResult.ScanVoting | stura_voting/votings/results.py:153-168 | one voting extends the scan by exactly that voting |
| Results.OverviewOptionMap | stura_voting/votings/results.py:151-170 | the option map has an entry for exactly the Schulze votings: their option texts, or `[]` when undescribed; median votings add nothing |
| Results.OverviewWarnings | stura_voting/votings/results.py:158-163 | exactly one warning per undescribed Schulze voting, in voting order |
| Results.OverviewScanStops | stura_voting/votings/results.py:165-166 | once the option comprehension has raised, later votings change nothing |
| Grouping.GroupByFlatten | stura_voting/votings/results.py:135 | the runs of `groupby`, concatenated, give the input back |
| Grouping.GroupByAdjacentDiffer | stura_voting/votings/results.py:135 | neighbouring runs have different keys, so every run is maximal |
| Grouping.GroupByKeepsOrder | stura_voting/votings/median.py:38 | an order between earlier and later input elements holds inside every run |
| Grouping.GroupBySortedKeys | stura_voting/votings/schulze.py:34-36 | with the keys sorted, the runs have strictly increasing keys, so every key has a single run |
| ResultMerge.MergePermutation | stura_voting/votings/results.py:180 | `heapq.merge` returns a permutation of its two inputs together |
| ResultMerge.MergeSorted | stura_voting/votings/results.py:176-180 | merging two inputs sorted by (group number, voting number) gives a sorted result |
| ResultMerge.MergeTies | stura_voting/votings/results.py:180 | on equal keys the median voting comes first: a Schulze voting before a median voting has a strictly smaller key |
| ResultMerge.MergeDistinctKeys | stura_voting/votings/results.py:180-181 | the merged ids are distinct exactly when each input's are and no id is in both |
| ResultMerge.DuplicateWarningCondition | stura_voting/votings/results.py:181-184 | the merged dictionary is smaller than the two inputs together exactly when some id occurs in both results |
| ResultMerge.MergedVotingsOrder | stura_voting/votings/results.py:176-181 | without shared ids, every voting of both results is kept, sorted by (group number, voting number), with median votings first on ties |
| ResultMerge.MergedWarningsShape | stura_voting/votings/results.py:182-188 | one duplicate warning first exactly when an id is shared, then the median warnings, then the Schulze warnings |
| ResultMerge.MergeOverrides | stura_voting/votings/results.py:185-190 | on a shared id the Schulze votes win, and the median description wins |
| ResultMerge.MergeVotingResults | stura_voting/votings/results.py:173-191 | the new result is built from the merged votings and warnings, the updated votes and the combined descriptions |
| ResultMerge.MergeVotings | stura_voting/votings/results.py:180-188 | the votings part of the merge computes the merged dictionary and warnings |
| ResultMerge.MergeVotes | stura_voting/votings/results.py:185-186 | two `update` calls on an empty dictionary equal one update of the median votes by the Schulze votes |
| VoterResults.CollectByVoting | stura_voting/votings/results.py:255-268 | the grouping loop computes the grouped rows and the stray warnings |
| VoterResults.CollectMeaning | stura_voting/votings/results.py:255-268 | exactly the known votings that have rows get an entry, and the entry lists all of that voting's rows in input order |
| VoterResults.RowsOfMembers | stura_voting/votings/results.py:255-268 | the rows collected for a voting are exactly the input rows that belong to it |
| VoterResults.StraysMeaning | stura_voting/votings/results.py:258-264 | a warning is given for exactly the rows of unknown votings |
| VoterResults.SchulzeVotings | stura_voting/votings/results.py:250-269 | the result holds the votings, each known voting's options as its description, and one warning per stray option |
| VoterResults.MedianDescriptionsMatch | stura_voting/votings/results.py:283-286 | exactly the median votings are described, each by the value of the voting stored under its id |
| VoterResults.MedianVotesForVoter | stura_voting/votings/results.py:281-294 | the votings with their values as descriptions; the voter's votes by voting; one warning per vote above its voting's value |
| VoterResults.AboveMaximumMeaning | stura_voting/votings/results.py:289-293 | warnings are given for exactly the votes above their voting's value |
| VoterResults.VoterVoteKept | stura_voting/votings/results.py:289-290 | every vote is stored under its voting, even one above the maximum; the last vote of a voting wins |
| VoterResults.MismatchesMeaning | stura_voting/votings/results.py:360-368 | exactly one warning per mismatched position, naming the option voted for and the one expected |
| VoterResults.MismatchesCount | stura_voting/votings/results.py:360-368 | the number of mismatch warnings is the number of mismatched positions |
| VoterResults.BallotCheckPasses | stura_voting/votings/results.py:346-368 | a ballot passes without a warning exactly when its voting is described and the ballot matches the options position by position |
| VoterResults.CheckBallot | stura_voting/votings/results.py:347-368 | one ballot gets a single warning for a missing description or a wrong length, otherwise one warning per mismatch |
| VoterResults.CheckBallots | stura_voting/votings/results.py:346-368 | the sanity loop only appends the checks of all ballots; no ballot is removed |
| VoterResults.SchulzeVotesForVoter | stura_voting/votings/results.py:297-369 | the Schulze votings with their options; the voter's ballots grouped by voting; the warnings of grouping and checks, in that order |
| MedianEvaluation.MapRun | stura_voting/votings/median.py:39-58 | the inner loop computes the voter mapping and the warnings of one run |
| MedianEvaluation.RunMappingFiltered | stura_voting/votings/median.py:40-58 | the voter mapping is the dictionary of the accepted votes by voter id |
| MedianEvaluation.AcceptedPairsMembers | stura_voting/votings/median.py:41-58 | a vote is stored exactly when its voting exists and its value is at most the voting's value |
| MedianEvaluation.RunWarningsCount | stura_voting/votings/median.py:41-56 | every vote of a run is either stored or warned about, never both; the warnings are exactly the rejections |
| MedianEvaluation.MedianForEvaluation | stura_voting/votings/median.py:38-60 | only votes and warnings change; earlier warnings stay in front |
| MedianEvaluation.StoreRuns | stura_voting/votings/median.py:38-59 | the outer loop stores each run's mapping under its voting and appends the run's warnings |
| MedianEvaluation.StoreRun | stura_voting/votings/median.py:38-59 | one pass of the outer loop keeps the loop invariant |
| MedianEvaluation.MapAndStore | stura_voting/votings/median.py:39-59 | the run's mapping is stored under its voting id and its warnings are appended |
| MedianEvaluation.VotesAfterRun | stura_voting/votings/median.py:59 | a voting keeps the mapping of its last run |
| MedianEvaluation.MedianVotesDomain | stura_voting/votings/median.py:38-59 | exactly the votings with at least one vote get an entry, possibly empty |
| MedianEvaluation.MedianWarningsCount | stura_voting/votings/median.py:38-58 | added warnings plus stored votes equal the number of votes: one warning per rejected vote |
| MedianEvaluation.MedianMappingsAscending | stura_voting/votings/median.py:38-58 | with votes ordered by (voting, value) and at most one vote per voter and voting, every stored mapping lists its voters in non-decreasing value order |
| SchulzeEvaluation.BuildVoterMapping | stura_voting/votings/schulze.py:35-38 | the inner grouping loop computes the voter mapping of one voting |
| SchulzeEvaluation.VoterMappingFlatten | stura_voting/votings/schulze.py:36-38 | with votes ordered by voter, the ballots read one after the other give the votes back in order, so each ballot keeps option order |
| SchulzeEvaluation.VoterMappingVoters | stura_voting/votings/schulze.py:36-38 | every voter who voted has a ballot |
| SchulzeEvaluation.VoterMappingOwnVotes | stura_voting/votings/schulze.py:36-38 | a voter's ballot holds only that voter's votes |
| SchulzeEvaluation.GroupVotes | stura_voting/votings/schulze.py:34-39 | the outer grouping loop stores each voting's voter mapping |
| SchulzeEvaluation.StoreRun | stura_voting/votings/schulze.py:35-39 | one pass stores one voting's mapping under its id |
| SchulzeEvaluation.GroupedVotesMeaning | stura_voting/votings/schulze.py:24-39 | with the votes sorted by voting id, as the query sorts them, a voting with votes maps to the voter mapping of exactly its own votes, in query order; a voting without votes keeps what the dictionary held before |
| Grouping.GroupBySortedRuns | stura_voting/votings/schulze.py:24-35 | with the input sorted by key, every run of `groupby` holds exactly the input elements with its key, in order, and a key without a run has no elements |
| SchulzeEvaluation.VoterCheckMeaning | stura_voting/votings/schulze.py:54-75 | a ballot gets no warning exactly when it matches the options; exactly one warning for a wrong length; one per mismatched position otherwise |
| SchulzeEvaluation.CheckVoter | stura_voting/votings/schulze.py:54-75 | one ballot's warnings, and its voter is marked for removal exactly when the ballot does not match |
| SchulzeEvaluation.CheckVoters | stura_voting/votings/schulze.py:53-79 | the voter loop plus deletion keeps exactly the matching ballots and gives the warnings in voter order |
| SchulzeEvaluation.CheckedMappingMeaning | stura_voting/votings/schulze.py:53-79 | after the checks a voting keeps exactly the voters whose ballots match, each ballot unchanged |
| SchulzeEvaluation.CheckVotings | stura_voting/votings/schulze.py:41-79 | the sanity loop over all votings computes the checked votes and appends the warnings |
| SchulzeEvaluation.CheckVoting | stura_voting/votings/schulze.py:44-79 | a voting without a voting row or description gets one warning and is not validated; otherwise its voters are checked |
| SchulzeEvaluation.CheckedVotesEntry | stura_voting/votings/schulze.py:41-79 | after the sanity loop, a voting that exists and is described holds its checked voter mapping; an unknown or undescribed voting keeps its mapping unvalidated; no voting is added or removed |
| SchulzeEvaluation.PrunedMeaning | stura_voting/votings/schulze.py:82-87 | no voting is left with an empty mapping, and every non-empty one is kept unchanged |
| SchulzeEvaluation.PruneEmpty | stura_voting/votings/schulze.py:82-87 | the pruning loop deletes exactly the empty mappings |
| SchulzeEvaluation.SchulzeForEvaluation | stura_voting/votings/schulze.py:34-88 | votes are grouped, checked and pruned; votings and descriptions are unchanged; earlier warnings stay in front |
| SchulzeEvaluation.SchulzeEvaluatedMeaning | stura_voting/votings/schulze.py:24-88 | after the whole pass no voting is left without voters. A voting with votes keeps exactly those voters of its own votes whose ballots match its options position by position; when it is unknown or undescribed it keeps all of them. Every kept ballot is that voter's votes for the voting, in query order |
| SchulzeEvaluation.VoterCheckAsWritten | stura_voting/votings/schulze.py:65-71 | the mismatch branch as written, which raises AttributeError |
| SchulzeEvaluation.AsWrittenRaisesOnMismatch | stura_voting/votings/schulze.py:65-71 | the code as written raises exactly on ballots of the right length that do not match, and elsewhere agrees with the corrected check |
| SchulzeEvaluation.MismatchRaisesExample | stura_voting/votings/schulze.py:65-71 | a one-option voting with a ballot for another option raises, where the corrected check gives one warning |
| RevisionUpdate.Revision.constructor | stura_voting/votings/views.py:539-548 | the revision starts with the stored voters and no writes |
| RevisionUpdate.UpdateVoters | stura_voting/votings/views.py:539-586 | afterwards the revision holds exactly the submitted names with their submitted weights, with one write per summary line, in order |
| RevisionUpdate.ApplySubmitted | stura_voting/votings/views.py:551-573 | the first loop inserts new names and saves changed weights, in submitted order |
| RevisionUpdate.ApplyOne | stura_voting/votings/views.py:552-573 | one submitted voter is inserted, gets a weight save, or nothing is written |
| RevisionUpdate.DeleteMissing | stura_voting/votings/views.py:579-585 | the second loop deletes the stored names the roster lacks, in stored order, leaving exactly the roster |
| RevisionUpdate.DeleteIfMissing | stura_voting/votings/views.py:580-585 | one stored name is deleted exactly when the roster lacks it |
| RevisionUpdate.SummaryMeaning | stura_voting/votings/views.py:551-585 | the summary reports exactly the weight changes with old and new weight, the insertions with their weight, and the deletions |
| RevisionUpdate.SummaryOrder | stura_voting/votings/views.py:551-585 | changes and insertions come before all deletions |
| RevisionUpdate.SummaryNames | stura_voting/votings/views.py:545-585 | every name gets at most one line; changes and insertions follow the roster's order, deletions the stored order |
| RevisionUpdate.UnchangedUntouched | stura_voting/votings/views.py:552-564 | a voter whose weight stays the same gets no summary line and no write |
| RevisionUpdate.RosterMeaning | stura_voting/votings/views.py:547-548 | the roster's names are exactly the submitted ones, and a repeated name keeps its last weight |
| VoteEntry.HandleEnterMedian | stura_voting/votings/views.py:296-326 | the median handler computes the median-entry specification on the store and the warnings, and leaves the result's other fields alone |
| VoteEntry.EnterMedianMeaning | stura_voting/votings/views.py:301-326 | an unknown voting gives one warning and no change; no value deletes the voter's row; a value is stored in the voter's row, created if needed; no other row changes; nothing is written exactly when there is nothing to do |
| VoteEntry.HandleEnterSchulze | stura_voting/votings/views.py:329-414 | the Schulze handler computes the Schulze-entry specification on the store and the warnings |
| VoteEntry.EnterSchulzeRefusals | stura_voting/votings/views.py:336-385 | an unknown voting, missing options, a ranking of the wrong length or a stored ballot of the wrong length each give exactly one warning and no change |
| VoteEntry.EnterSchulzeDeletes | stura_voting/votings/views.py:345-401 | no ranking deletes the stored ballot; a stored entry for the wrong option deletes the ballot with one warning naming two different options |
| VoteEntry.EnterSchulzeStores | stura_voting/votings/views.py:402-414 | an accepted ranking is stored in option order, updated in place or inserted; other ballots do not change |
| VoteEntry.DeleteBallotMeaning | stura_voting/votings/views.py:348-350 | deleting a ballot removes exactly its rows, with one delete per entry in order |
| VoteEntry.RepositionMeaning | stura_voting/votings/views.py:405-408 | each entry gets its new position and no other row changes; a position is saved exactly when it differs |
| VoteEntry.InsertBallotMeaning | stura_voting/votings/views.py:409-414 | one fresh row per option, in order, and no other row changes |
| VoteEntry.VoteStore.DeleteAll | stura_voting/votings/views.py:349-350 | the delete loop computes the ballot deletion |
| VoteEntry.VoteStore.SavePositions | stura_voting/votings/views.py:405-408 | the update loop computes the repositioning |
| VoteEntry.VoteStore.InsertAll | stura_voting/votings/views.py:411-414 | the insert loop computes the insertion |
| VoteEntry.FindMismatch | stura_voting/votings/views.py:387-388 | the sanity loop finds the first entry whose option differs from the expected one |
| VoteEntry.MismatchWarningNamesMismatch | stura_voting/votings/views.py:387-398 | the corrected warning names two different options |
| VoteEntry.MismatchWarningAsWrittenExample | stura_voting/votings/views.py:391-398 | for a ballot stored in swapped order, the message as written names the same option twice; `QueryWarning` then discards it |
| GroupEdit.RenumberMeaning | stura_voting/votings/views.py:97-100 | voting i gets number order[i] and no other row changes; a row is saved exactly when its number changes |
| GroupEdit.EditOrderMeaning | stura_voting/votings/views.py:93-100 | a blank or empty order changes nothing; otherwise voting i gets position i, and distinct positions give distinct numbers |
| GroupEdit.VotingNumbers.EditGroupOrder | stura_voting/votings/views.py:93-100 | the reorder branch computes the edit specification on the number columns |
| GroupEdit.ColumnMax | stura_voting/votings/views.py:808-818 | the `Max` aggregate is None exactly for no rows, otherwise a largest element |
| GroupEdit.MedianNumbersMeaning | stura_voting/votings/views.py:807-810 | the median numbers aggregated are exactly the numbers of the group's median votings |
| GroupEdit.SchulzeNumbersMeaning | stura_voting/votings/views.py:814-817 | the Schulze numbers aggregated are exactly the numbers of the group's Schulze votings |
| GroupEdit.MaxVotingNumMeaning | stura_voting/votings/views.py:806-821 | -1 exactly when the group has no voting; otherwise the number of one of its votings; so the next number is ≥ 0 and above every existing one |

## Left out

- The Django ORM is not modelled: queries, `select_for_update`, transactions, rendering, permissions and redirects. Queries are input sequences in the order the query asks for. Saved rows are maps in `VoteStore`, `Revision` and `VotingNumbers`. The primary keys `create` hands out come from a counter.
- External code is not modelled, because its source is not part of this model:
  - the Schulze and median tallies;
  - `CombinedVotingResult` and `combined_votings`;
  - `single_median_statistics`, `single_schulze_instance` and `fill_missing_voters`.
- The roster and collection parsers of `stura_voting_utils` are left out, and with them `VotersRevisionField`, `VotingCollectionField` and `add_votings`. `__update_voters` receives the parsed voters as input.
- The currency parse is left out. `CleanCurrency` receives its outcome as an input.
- `forms.py` is left out. Its `' '.join` serialisation appears only in the round-trip lemmas.
- The semester and session-date helpers of `utils.py` are left out: they depend on clocks and settings.
- The floating-point percentage of `__votes_before_no` is left out.
- Message text and `gettext` are not modelled. `QueryWarning` evaluates to None, so warnings are structured `Warning` values: the situation plus the ids involved.
- `Text.PyInt` accepts an optional sign and ASCII digits only. It rejects the `_` separators and non-ASCII digits that Python's `int()` also accepts.
- `Fractions.Div` models `__div__` as a named operation. Python 3's `/` does not reach it.
- Object aliasing is not modelled. The source deletes a row through an object that is still in `result.votes`; the model keeps `result.votes` unchanged and changes the store.
- The `('median', v)`/`('schulze', v)` tags of `for_overview_template` are not modelled. The kind is the `Voting` constructor.
- ResultMerge.MergedVotingsOrder: states the merged order only when no id is shared. With shared ids only the size condition is stated, in `DuplicateWarningCondition`.
- VoteEntry.HandleEnterMedian: requires a non-negative amount, which `CurrencyField` guarantees. It also requires that the result's votings are median votings and its votes are the voter's stored rows, as the view loads them.
- VoteEntry.HandleEnterSchulze: requires that every description is an option list, as `schulze_votings` builds them, and that the ballots are the voter's stored rows.
- SchulzeEvaluation.SchulzeForEvaluation: requires option-list descriptions, as `schulze_votings` builds them.
- SchulzeEvaluation.SchulzeForEvaluation: follows the corrected mismatch branch of the first Findings row. A mismatched ballot gives one warning per position and is removed; there is no AttributeError.
- SchulzeEvaluation.CheckVoter: follows the same corrected branch.
- SchulzeEvaluation.CheckVoters: follows the same corrected branch.
- VoteEntry.HandleEnterSchulze: follows the corrected branch of the second Findings row. Its mismatch warning names the mismatched entry's option, not the last entry's. The text the source builds there is discarded by `QueryWarning` anyway.
- SchulzeEvaluation.SchulzeEvaluatedMeaning: describes a voting without votes only through the dictionary before the pass, which `schulze_votings` leaves empty.
- MedianEvaluation.MedianMappingsAscending: assumes what the database guarantees, at most one vote per voter and voting, on top of the query order.
- SchulzeEvaluation.VoterMappingFlatten: assumes a voting's votes arrive ordered by voter id, as the query orders them.
- SchulzeEvaluation.VoterMappingVoters: assumes the same voter-id order.
- SchulzeEvaluation.VoterMappingOwnVotes: assumes the same voter-id order.
- The `%(expected)` placeholder in the length warning of `schulze.py` line 55 lacks a conversion character. It affects only the message text, which is not modelled.

## Findings

| source | as written | input that shows it | evidently intended | confidence | as-written member | corrected member |
|---|---|---|---|---|---|---|
| stura_voting/votings/schulze.py:65-71 | the mismatch warning reads `vote.option.name`. `SchulzeOption` has no `name` field (models.py:111-117), so building the message raises AttributeError before `QueryWarning` is called | a voting whose option list and vote rows disagree. Options `[yes]` with a ballot `[no]` is one case. Both queries order by `option_num`, `(voting, option_num)` and `(voter, option)` are unique, and `schulze_votings` lists every option, so a ballot of the right length always matches when both queries see the same rows. The branch is reached only when the options change between the options query and the votes query | one warning per mismatched position, and the voter is removed | not executed | SchulzeEvaluation.MismatchRaisesExample | SchulzeEvaluation.VoterCheckMeaning |
| stura_voting/votings/views.py:391-398 | the inner `for vote in current_votes: vote.delete()` rebinds `vote`, so the message names the last stored entry's option, not the mismatched one. The message goes to `QueryWarning`, which returns None (results.py:58), so the wrong text is built but never stored or shown. It would become visible once `QueryWarning` keeps its message | options A (10) and B (11) with a ballot stored as [B, A]: the message says option 10 was given instead of 10. As in the row above, such a ballot cannot come from `schulze_votes_for_voter`'s query, which orders by `option_num` (results.py:305-308). It can arise only when the options change between the two queries | the message names the option of the first mismatched entry | not executed | VoteEntry.MismatchWarningAsWrittenExample | VoteEntry.MismatchWarningNamesMismatch |
