# Agent17: a verified model of a negotiation agent

Agent17 is an automated negotiator for the Genius framework. It bargains
with an opponent over multi-issue bids, such as a takeaway order (menu item,
item size). This project models the agent's core in Dafny and proves
properties of it:

- **Frequency opponent models.** Each issue and each value tracks how often
  the opponent chose it, both over all bids and over a window of recent bids.
  From those counts it derives preference values and weights, and from those
  the opponent's utility for a bid. The "Jonny Black" variant ranks a value
  by its count. The "Agent17" variant uses the count as a frequency. The
  variant is a constant of each object (`OpponentValues`, `OpponentIssues`,
  `OpponentModels`, with the formulas in `OpponentFormulas` and a
  history-based specification in `OpponentSpec`). `OpponentExamples` checks
  the specification against the numbers in the repository's unit tests.
- **The agent's decisions** (`Agents`):
  - how it answers an offer: accept, counter-offer or walk away;
  - which bid it offers;
  - how its utility target falls (Boulware before the transition time, tit
    for tat afterwards);
  - how many bids it may ask the user to rank.
- **Candidate bids** (`BidSelectors`): a duplicate-free list drawn from the
  user's ranking or from random bids of the domain, restricted to a sliding
  utility band.
- **Bid analytics** (`BidValues`): the issue-to-value view of a bid, its
  comparisons and its CSV row.
- **Preference elicitation.** Two linear programs estimate value utilities
  and issue weights from a bid ranking (`LPSolvers`). A cruder
  mean-position/spread heuristic orders the issues (`Preferences`).

Shared pieces: `Wrappers` (Option for Java's null), `SeqUtil`, `Domains`
(assignments, bids, occurrence tallies and the recent window),
`EstimatedUtilities`, `StringOrder` (Java's order of issue names,
`String.compareTo`, which compares UTF-16 code units), and `Decimals`
(rendering of integers).

How the model maps Java constructs:

- Objects whose fields the Java code updates in place are classes with
  `modifies` frames: values, issues, the opponent model, the bid selector,
  the random source, the agent and the LP solver.
- Pure computations are functions, with lemmas about them.
- Java `double` is `real`.
- A `HashMap` or `HashSet` is a map with an explicit key order or a
  duplicate-free sequence. The order is the order of first insertion.
- Collaborators the core only calls are parameters:
  - the utility space;
  - the clock and the Boulware time factor;
  - `java.util.Random` (a tape of numbers);
  - `Collections.shuffle` (any permutation);
  - the simplex optimizer (a function that returns a point or fails);
  - the standard deviation (an abstract function).

Two places where the code does something other than what its comments say
are modelled as the code is written, and a lemma exhibits each:

- `chooseAction` calls `greatOffer(utilityLastOffer, threshold)`, but the
  method is declared `greatOffer(threshold, utilityLastOffer)`. The final
  acceptance therefore accepts offers at or BELOW the threshold. It ends the
  negotiation only for offers strictly above it
  (`Agents.RespondAcceptsAndEnds`, `Agents.GreatOfferAcceptsBelowThreshold`).
- Both linear-program objectives are built from `getRangeBetween(V, S)`, the
  columns in [V, S). That is not the S slack columns [V, V+S). Both stages
  use the value-stage width. When there are at least as many values as
  ranked bids, the objective is all zero (`LPSolvers.LPSolver.ObjectiveColumns`).

## Model

| member | source | states |
|---|---|---|
| EstimatedUtilities.EstimatedUtility.Equals | src/main/java/group17/opponent/EstimatedUtility.java:77-84 | equal exactly when the other object is an estimate with the same utility and confidence; null is never equal |
| EstimatedUtilities.EstimatedUtility.IsNotMeaningful | src/main/java/group17/opponent/EstimatedUtility.java:72-74 | true exactly when utility is NO_UTILITY and confidence is NO_CONFIDENCE |
| EstimatedUtilities.EstimatedUtility.IsMeaningful | src/main/java/group17/opponent/EstimatedUtility.java:64-66 | true exactly when utility or confidence is non-zero, the negation of IsNotMeaningful |
| EstimatedUtilities.EqualsIsEquivalence | src/main/java/group17/opponent/EstimatedUtility.java:77-84 | equals is reflexive, symmetric and transitive, and false against null |
| Domains.Occurrences | src/main/java/group17/opponent/utility/UtilityOpponentModel.java:237-244 | how many assignments of a bid choose a value for an issue: positive exactly when some assignment does, at most the bid's length |
| Domains.OccurrencesAtMostOne | src/main/java/group17/opponent/utility/UtilityOpponentModel.java:237-244 | a bid naming each issue once counts a value at most once |
| Domains.TallyAppend | src/main/java/group17/opponent/AbstractOpponentModel.java:25-29 | the tally of a pair over two bid lists joined is the sum of the two tallies |
| Domains.TallyAtMostLength | src/main/java/group17/opponent/AbstractOpponentModel.java:25-29 | over single-valued bids a pair is counted at most once per bid |
| Domains.Window | src/main/java/group17/opponent/utility/UtilityOpponentModel.java:207-215 | the last min(w, n) bids of the history, in order |
| Domains.WindowAtMostHistory | src/main/java/group17/opponent/utility/UtilityOpponentModel.java:261-266 | a recent count never exceeds the total count |
| Domains.LatestChoiceCounts | src/main/java/group17/opponent/utility/UtilityOpponentModel.java:59-66 | each pair of the latest bid is counted at least once in the history and in the window |
| Domains.WindowSlide | src/main/java/group17/opponent/utility/UtilityOpponentModel.java:59-66 | adding a bid raises the window's tally by that bid's occurrences and, once the window is full, lowers it by those of the bid that leaves it, the bid at index size - window - 1 |
| SeqUtil.Dedup | src/main/java/group17/opponent/utility/UtilityOpponentModel.java:221-229 | the key order of a map filled in sequence: duplicate-free, holding exactly the elements put, no longer than the input |
| Decimals.NatToStringRoundTrip | src/main/java/group17/opponent/OpponentValue.java:29-34 | the decimal text of a natural number parses back to it |
| Decimals.IntToStringRoundTrip | src/main/java/group17/opponent/OpponentValue.java:29-34 | the text of an int (with a minus sign when negative) parses back to it |
| Decimals.IntToStringInjective | src/main/java/group17/opponent/OpponentValue.java:29-34 | distinct integers render to distinct texts |
| Decimals.IntToString | src/main/java/group17/opponent/OpponentValue.java:29-34 | the text of an int is well-formed decimal text, with a leading minus exactly when the int is negative |
| StringOrder.LessTransitive | src/main/java/group17/domain/BidValue.java:190-192 | the lexicographic order of issue names is transitive |
| StringOrder.LessTotal | src/main/java/group17/domain/BidValue.java:190-192 | any two different names are ordered one way or the other |
| StringOrder.LessAsymmetric | src/main/java/group17/domain/BidValue.java:190-192 | the order is strict |
| StringOrder.LeastExists | src/main/java/group17/domain/BidValue.java:190-192 | every non-empty set of names has a least element |
| StringOrder.LeastUnique | src/main/java/group17/domain/BidValue.java:190-192 | that least element is unique |
| StringOrder.SurrogatesBeforeHighPlane | src/main/java/group17/domain/BidValue.java:190-192 | names compare by UTF-16 code units: a character outside the basic plane sorts before U+FFFD |
| StringOrder.Sorted | src/main/java/group17/domain/BidValue.java:190-192 | the sorted stream of a key set: ascending, same size, exactly the keys |
| OpponentFormulas.RankPreferenceBounds | src/main/java/group17/opponent/utility/JonnyBlackOpponentValue.java:32-36 | (n - rank + 1) / n lies in (0, 1], is 1 for the top rank and 1/n for the last |
| OpponentFormulas.RankPreferenceStrictlyDecreasing | src/main/java/group17/opponent/utility/JonnyBlackOpponentValue.java:32-36 | a better rank gives a strictly higher preference |
| OpponentFormulas.FrequencyPreferenceBounds | src/main/java/group17/opponent/utility/Agent17OpponentValue.java:32-36 | count / priorBids lies in [0, 1] when the count is at most the bids seen |
| OpponentFormulas.FrequencyPreferenceTotal | src/main/java/group17/opponent/utility/Agent17OpponentIssue.java:58-63 | the Agent17 preferences of some values of an issue add up to their counts' total over priorBids |
| OpponentFormulas.FrequencyPreferencesSumToOne | src/main/java/group17/opponent/utility/Agent17OpponentIssue.java:58-63 | when an issue's counts add up to priorBids, its Agent17 preferences add up to 1 |
| OpponentFormulas.WeightFormulaBounds | src/main/java/group17/opponent/utility/JonnyBlackOpponentValue.java:56-60 | count² / n² is non-negative, zero exactly for a zero count, at most 1 when the count is at most the number of bids |
| OpponentFormulas.InsertByCountPermutes | src/main/java/group17/opponent/utility/JonnyBlackOpponentIssue.java:79-84 | inserting a value into the sorted list adds exactly that value |
| OpponentFormulas.InsertKeepsDescending | src/main/java/group17/opponent/utility/JonnyBlackOpponentIssue.java:79-84 | insertion keeps the list in descending order of count |
| OpponentFormulas.SortByCountPermutes | src/main/java/group17/opponent/utility/JonnyBlackOpponentIssue.java:79-84 | sorting by count is a permutation of the values |
| OpponentFormulas.SortByCountDescending | src/main/java/group17/opponent/utility/JonnyBlackOpponentIssue.java:90-95 | the sorted values are in descending order of count (total or recent) |
| OpponentFormulas.IndexOf | src/main/java/group17/opponent/utility/JonnyBlackOpponentIssue.java:62-73 | the first position of a value in a list |
| OpponentFormulas.DistinctIndexOf | src/main/java/group17/opponent/utility/JonnyBlackOpponentIssue.java:62-73 | in a duplicate-free list the position found is the value's only position |
| OpponentFormulas.PermutationKeepsDistinct | src/main/java/group17/opponent/utility/JonnyBlackOpponentIssue.java:79-84 | a permutation of distinct values is distinct |
| OpponentFormulas.Rank | src/main/java/group17/opponent/utility/JonnyBlackOpponentIssue.java:62-73 | a value's 1-based position in the list sorted by count, between 1 and the number of values |
| OpponentFormulas.Preference | src/main/java/group17/opponent/utility/JonnyBlackOpponentIssue.java:62-73 | the preference value each variant gives a value: in (0, 1] for Jonny Black and in [0, 1] for Agent17 when counts are within the bids seen |
| OpponentFormulas.RanksAreAPermutation | src/main/java/group17/opponent/utility/JonnyBlackOpponentIssue.java:62-73 | the k-th value of the sorted list gets the preference of rank k + 1 |
| OpponentFormulas.HigherCountBetterRank | src/main/java/group17/opponent/utility/JonnyBlackOpponentIssue.java:62-73 | a value chosen more often ranks strictly better |
| OpponentFormulas.DescendingIndexOrder | src/main/java/group17/opponent/utility/JonnyBlackOpponentIssue.java:79-84 | in a list descending by count a more frequent value comes first |
| OpponentFormulas.HigherCountHigherPreference | src/main/java/group17/opponent/utility/Agent17OpponentIssue.java:58-63 | in both variants a value chosen more often has a strictly higher preference |
| OpponentFormulas.IssueWeight | src/main/java/group17/opponent/utility/JonnyBlackOpponentIssue.java:30-36 | the unnormalized issue weight, the sum of its values' weights, is non-negative and positive once any value was chosen |
| OpponentValues.OpponentValue.constructor | src/main/java/group17/opponent/utility/UtilityOpponentValue.java:19-21 | a new value has its name, its variant and all counts, preferences and weights 0 |
| OpponentValues.OpponentValue.IncrementCount | src/main/java/group17/opponent/utility/UtilityOpponentValue.java:48-51 | both count and recent count grow by one; nothing else changes |
| OpponentValues.OpponentValue.DecrementRecentCount | src/main/java/group17/opponent/utility/UtilityOpponentValue.java:43-45 | only the recent count falls by one |
| OpponentValues.OpponentValue.CalculatePreferenceValue | src/main/java/group17/opponent/utility/JonnyBlackOpponentValue.java:14-17 | stores and returns the rank formula (Jonny Black) or count / priorBids (Agent17, lines 14-17 of its own class); nothing else changes |
| OpponentValues.OpponentValue.CalculateRecentPreferenceValue | src/main/java/group17/opponent/utility/JonnyBlackOpponentValue.java:20-23 | the same from the recent count and the window, stored in the recent preference |
| OpponentValues.OpponentValue.CalculateWeight | src/main/java/group17/opponent/utility/JonnyBlackOpponentValue.java:39-42 | stores and returns count² / priorBids² |
| OpponentValues.OpponentValue.CalculateRecentWeight | src/main/java/group17/opponent/utility/JonnyBlackOpponentValue.java:45-48 | stores and returns recentCount² / window² |
| OpponentValues.OpponentValue.ToString | src/main/java/group17/opponent/OpponentValue.java:29-34 | the text is the name, ", count=", then the count in decimal, which parses back to the count |
| OpponentValues.CountsAfterUpdates | src/test/java/group17/opponent/utility/Agent17OpponentValueTest.java:92-96 | after i increments and d recent decrements a fresh value has count i and recent count i - d, in either order |
| OpponentIssues.OpponentIssue.CreateOpponentValues | src/main/java/group17/opponent/utility/UtilityOpponentIssue.java:132-139 | one fresh value per distinct name, keyed by name, in first-insertion order; returns how many |
| OpponentIssues.OpponentIssue.constructor | src/main/java/group17/opponent/OpponentIssue.java:18-22 | an issue keeps the number and name of the domain issue, one fresh value per distinct value name, and zero weights |
| OpponentIssues.OpponentIssue.GetValue | src/main/java/group17/opponent/utility/UtilityOpponentIssue.java:67-69 | the value of that name, or null exactly when the issue has none |
| OpponentIssues.OpponentIssue.IncrementValueCount | src/main/java/group17/opponent/utility/UtilityOpponentIssue.java:88-95 | the named value's count and recent count grow by one; every other value is unchanged; an unknown name changes nothing |
| OpponentIssues.OpponentIssue.DecrementValueRecentCount | src/main/java/group17/opponent/utility/UtilityOpponentIssue.java:75-82 | only the named value's recent count falls by one |
| OpponentIssues.OpponentIssue.CalculateNormalizedWeight | src/main/java/group17/opponent/utility/UtilityOpponentIssue.java:102-105 | stores and returns the unnormalized weight over the total; the other weights are kept |
| OpponentIssues.OpponentIssue.CalculateNormalizedRecentWeight | src/main/java/group17/opponent/utility/UtilityOpponentIssue.java:112-115 | the same for the recent weight |
| OpponentIssues.OpponentIssue.CalculateUnnormalizedWeight | src/main/java/group17/opponent/utility/JonnyBlackOpponentIssue.java:30-36 | sets every value's weight from its count and returns their sum, IssueWeight of the counts |
| OpponentIssues.OpponentIssue.CalculateUnnormalizedRecentWeight | src/main/java/group17/opponent/utility/JonnyBlackOpponentIssue.java:43-49 | the same from recent counts; the source passes the window as priorBids |
| OpponentIssues.OpponentIssue.UpdatePreferenceValues | src/main/java/group17/opponent/utility/JonnyBlackOpponentIssue.java:62-73 | every value's preference and recent preference become Preference of the variant over the counts before the call |
| OpponentIssues.OpponentIssue.UpdateRankPreferences | src/main/java/group17/opponent/utility/JonnyBlackOpponentIssue.java:62-73 | Jonny Black: each value's preference is the rank formula of its place by count, and its recent preference that of its place by recent count |
| OpponentIssues.OpponentIssue.RankByCount | src/main/java/group17/opponent/utility/JonnyBlackOpponentIssue.java:79-84 | walks the values sorted by count, giving the k-th the rank preference of k + 1 |
| OpponentIssues.OpponentIssue.RankByRecentCount | src/main/java/group17/opponent/utility/JonnyBlackOpponentIssue.java:90-95 | the same over recent counts |
| OpponentIssues.OpponentIssue.UpdateFrequencyPreferences | src/main/java/group17/opponent/utility/Agent17OpponentIssue.java:58-63 | every value's preferences become its count / priorBids and recent count / window |
| OpponentSpec.HistoryCounts | src/main/java/group17/opponent/AbstractOpponentModel.java:25-29 | the counts a history implies: each known pair maps to its tally over the bids |
| OpponentSpec.HistoryRow | src/main/java/group17/opponent/AbstractOpponentModel.java:25-29 | an issue's row of those counts holds the tally of each of its values |
| OpponentSpec.Weights | src/main/java/group17/opponent/utility/JonnyBlackOpponentIssue.java:30-36 | one non-negative unnormalized weight per issue |
| OpponentSpec.Preferences | src/main/java/group17/opponent/utility/JonnyBlackOpponentIssue.java:62-73 | one preference per issue and value, in [0, 1] when counts are within the bids seen |
| OpponentSpec.NormalizedWeightsSumToOne | src/main/java/group17/opponent/utility/UtilityOpponentIssue.java:102-105 | normalized issue weights sum to 1 |
| OpponentSpec.TotalWeightPositive | src/main/java/group17/opponent/utility/UtilityOpponentModel.java:283-293 | one counted pair makes the total weight positive, so normalizing is defined |
| OpponentSpec.WeightSumWithout | src/main/java/group17/opponent/utility/UtilityOpponentModel.java:283-293 | the total is one issue's weight plus the others' |
| OpponentSpec.BidWeightAtMostTotal | src/main/java/group17/opponent/utility/UtilityOpponentModel.java:91-100 | the weights of the issues a single-valued bid names sum to at most the total |
| OpponentSpec.BidUtilityBounds | src/main/java/group17/opponent/utility/UtilityOpponentModel.java:91-100 | a bid's utility lies between 0 and its issues' share of the weight |
| OpponentSpec.UtilityBounds | src/main/java/group17/opponent/utility/UtilityOpponentModel.java:91-100 | the opponent utility of a single-valued known bid lies in [0, 1] in both variants |
| OpponentSpec.HistoryCountsWithin | src/main/java/group17/opponent/utility/UtilityOpponentModel.java:261-266 | history counts are at most the number of bids, window counts at most the window |
| OpponentModels.IssueNames | src/main/java/group17/opponent/utility/UtilityOpponentModel.java:221-229 | the names of the non-null issues of the domain |
| OpponentModels.OpponentModel.PutIssue | src/main/java/group17/opponent/utility/UtilityOpponentModel.java:224-226 | puts a fresh issue under its name; a repeated name replaces the earlier issue and keeps its place in the key order |
| OpponentModels.OpponentModel.CreateIssueMap | src/main/java/group17/opponent/utility/UtilityOpponentModel.java:221-229 | one fresh issue per distinct non-null domain issue, keyed by name, in first-insertion order |
| OpponentModels.OpponentModel.constructor | src/main/java/group17/opponent/utility/UtilityOpponentModel.java:53-56 | no bids, no issues for a null domain, the issue map otherwise; the model is Valid |
| OpponentModels.OpponentModel.FindOldBid | src/main/java/group17/opponent/utility/UtilityOpponentModel.java:207-215 | null unless more bids than the window have arrived; then the bid just left behind by the window |
| OpponentModels.OpponentModel.UpdateIssuesFromBid | src/main/java/group17/opponent/utility/UtilityOpponentModel.java:237-244 | each value's count and recent count rise by its occurrences in the bid |
| OpponentModels.OpponentModel.CountAssignment | src/main/java/group17/opponent/utility/UtilityOpponentModel.java:179-182 | one assignment raises only its own value's counts |
| OpponentModels.OpponentModel.DecreaseRecentIssueCountsFromOldBid | src/main/java/group17/opponent/utility/UtilityOpponentModel.java:250-259 | recent counts fall by the old bid's occurrences; a null bid changes nothing |
| OpponentModels.OpponentModel.DecrementRecentCounts | src/main/java/group17/opponent/utility/UtilityOpponentModel.java:189-192 | each recent count falls by the bid's occurrences of it |
| OpponentModels.OpponentModel.RemoveOldBidFromRecentCounts | src/main/java/group17/opponent/utility/UtilityOpponentModel.java:261-266 | evicts FindOldBid from the recent counts |
| OpponentModels.OpponentModel.UpdatePreferencesAndUnnormalizedWeights | src/main/java/group17/opponent/utility/UtilityOpponentModel.java:283-293 | every issue gets its specified preferences and unnormalized weights; the totals are the sums of the issue weights |
| OpponentModels.OpponentModel.UpdateEveryIssue | src/main/java/group17/opponent/utility/UtilityOpponentModel.java:286-292 | the loop over the issues: returns the two weight sums over all issues |
| OpponentModels.OpponentModel.UpdateIssueAt | src/main/java/group17/opponent/utility/UtilityOpponentModel.java:287-291 | one iteration: updates issue k and returns its specified weights |
| OpponentModels.OpponentModel.IssueWeightsAreSpecified | src/main/java/group17/opponent/utility/UtilityOpponentModel.java:283-293 | the issue weights of the stored issues are the specification's Weights |
| OpponentModels.OpponentModel.UpdateIssueEstimates | src/main/java/group17/opponent/utility/UtilityOpponentModel.java:288-290 | updates one issue's estimates without touching its counts |
| OpponentModels.OpponentModel.UpdateNormalizedWeights | src/main/java/group17/opponent/utility/UtilityOpponentModel.java:271-278 | every issue's normalized weights become its unnormalized weights over the totals |
| OpponentModels.OpponentModel.RecalculateModelEstimates | src/main/java/group17/opponent/utility/UtilityOpponentModel.java:153-156 | keeps the counts and leaves every estimate as the specification gives it for them |
| OpponentModels.OpponentModel.Update | src/main/java/group17/opponent/utility/UtilityOpponentModel.java:59-66 | appends the bid to the history and keeps Valid: counts follow the history and window, estimates follow the counts |
| OpponentModels.OpponentModel.RecordBid | src/main/java/group17/opponent/AbstractOpponentModel.java:25-29 | the bid joins the history, and the counts track it |
| OpponentModels.OpponentModel.CountBid | src/main/java/group17/opponent/utility/UtilityOpponentModel.java:60-62 | after adding and counting the bid, the counts wait only for the old bid's eviction |
| OpponentModels.OpponentModel.TotalsPositive | src/main/java/group17/opponent/utility/UtilityOpponentModel.java:283-293 | after a bid with a known value both totals are positive, so normalizing never divides by zero |
| OpponentModels.OpponentModel.ChosenValueCounts | src/main/java/group17/opponent/utility/UtilityOpponentModel.java:59-66 | a pair tallied in the history and window has positive stored counts |
| OpponentModels.OpponentModel.CountsAreHistory | src/main/java/group17/opponent/utility/UtilityOpponentModel.java:59-66 | the stored counts equal the history's counts and the recent ones the window's |
| OpponentModels.OpponentModel.NormalizedWeightIsSpecified | src/main/java/group17/opponent/utility/UtilityOpponentIssue.java:102-105 | a stored normalized weight is 0 before any bid, afterwards the specified weight over the total |
| OpponentModels.OpponentModel.PreferenceIsSpecified | src/main/java/group17/opponent/utility/UtilityOpponentValue.java:60-69 | a stored preference is the specified Preference over the history's counts |
| OpponentModels.OpponentModel.StoredUtilityIsHistoryUtility | src/main/java/group17/opponent/utility/UtilityOpponentModel.java:126-148 | the utility summed from stored weights and preferences is the one the history specifies |
| OpponentModels.OpponentModel.UnweightedSum | src/main/java/group17/opponent/utility/UtilityOpponentModel.java:126-132 | with all normalized weights 0, before any bid, every utility is 0 |
| OpponentModels.OpponentModel.StoredUtilityStep | src/main/java/group17/opponent/utility/UtilityOpponentModel.java:91-100 | one loop step adds the issue's normalized weight times the value's preference |
| OpponentModels.OpponentModel.CalculateUtilityForBid | src/main/java/group17/opponent/utility/UtilityOpponentModel.java:91-100 | the utility is the history-specified utility of the bid over all bids |
| OpponentModels.OpponentModel.CalculateRecentUtilityForBid | src/main/java/group17/opponent/utility/UtilityOpponentModel.java:103-112 | the same over the recent window |
| OpponentModels.OpponentModel.UtilityWithinBounds | src/main/java/group17/opponent/utility/UtilityOpponentModel.java:91-112 | both utilities of a single-valued known bid lie in [0, 1] |
| OpponentModels.OpponentModel.RecentIsOverallWhenWindowFull | src/main/java/group17/opponent/utility/UtilityOpponentModel.java:103-112 | when exactly a window of bids has arrived the recent and overall utilities agree |
| OpponentModels.OpponentModel.CalculateUtility | src/main/java/group17/opponent/AbstractOpponentModel.java:37-39 | NO_UTILITY for null, otherwise the overall utility |
| OpponentModels.OpponentModel.CalculateRecentUtility | src/main/java/group17/opponent/AbstractOpponentModel.java:61-63 | NO_UTILITY for null, otherwise the recent utility |
| OpponentModels.OpponentModel.CalculateMeanUtility | src/main/java/group17/opponent/AbstractOpponentModel.java:49-53 | the mean of the two, NO_UTILITY for null, within [0, 1] for a single-valued bid |
| OpponentModels.OpponentModel.CalculateEstimatedUtility | src/main/java/group17/opponent/AbstractOpponentModel.java:86-88 | NO_MEANINGFUL_ESTIMATE for null, otherwise the overall utility at the default confidence, which is meaningful |
| OpponentModels.OpponentModel.UpdateOffer | src/main/java/group17/opponent/AbstractOpponentModel.java:17-22 | an offer's bid joins the history (a null offer changes nothing) and the model stays Valid |
| OpponentExamples.SortMenuByCount | src/test/java/group17/opponent/utility/JonnyBlackOpponentIssueTest.java:34-44 | counts 1, 3, 4, 2 sort the menu as Sausage, Chips, Pie, Fish |
| OpponentExamples.MenuRankPreferences | src/test/java/group17/opponent/utility/JonnyBlackOpponentIssueTest.java:77-92 | Jonny Black preferences .25, .75, 1, .5 |
| OpponentExamples.RecentRanksSwap | src/test/java/group17/opponent/utility/JonnyBlackOpponentIssueTest.java:94-115 | after a recent decrement Chips and Sausage swap ranks in the window |
| OpponentExamples.FrequencyPreferenceExample | src/test/java/group17/opponent/utility/Agent17OpponentIssueTest.java:29-39 | Agent17 preferences .1, .3, .4, .2 |
| OpponentExamples.IssueWeightExamples | src/test/java/group17/opponent/utility/JonnyBlackOpponentIssueTest.java:117-139 | unnormalized weights 82/100 and 38/100 |
| OpponentExamples.TotalWeights | src/test/java/group17/opponent/utility/JonnyBlackOpponentIssueTest.java:144-165 | normalized weights 82/120 and 38/120 |
| OpponentExamples.RecentWeights | src/test/java/group17/opponent/utility/JonnyBlackOpponentModelTest.java:75-96 | over a window of 6 the unnormalized weights are 26/36 and 14/36 |
| OpponentExamples.JonnyBlackTotalPreferences | src/test/java/group17/opponent/utility/JonnyBlackOpponentModelTest.java:46-57 | over all bids Fish ranks first (preference 1) and Large last of three (1/3) |
| OpponentExamples.JonnyBlackRecentPreferences | src/test/java/group17/opponent/utility/JonnyBlackOpponentModelTest.java:75-96 | in the window Fish ranks first (1) and Large second of three (2/3) |
| OpponentExamples.TakeawayUtility | src/main/java/group17/opponent/utility/UtilityOpponentModel.java:91-100 | in the takeaway domain the utility of (Fish, Large) is each issue's weight over the total times that value's preference, summed |
| OpponentExamples.Agent17Utility | src/test/java/group17/opponent/utility/Agent17OpponentModelTest.java:46-57 | the Agent17 utility of (Fish, Large) is 407/600, about .678 |
| OpponentExamples.Agent17RecentUtility | src/test/java/group17/opponent/utility/Agent17OpponentModelTest.java:75-96 | over a window of 6 it is 79/120, about .658 |
| OpponentExamples.JonnyBlackUtility | src/test/java/group17/opponent/utility/JonnyBlackOpponentModelTest.java:46-57 | the Jonny Black utility is 71/90, about .789 |
| OpponentExamples.JonnyBlackRecentUtility | src/test/java/group17/opponent/utility/JonnyBlackOpponentModelTest.java:75-96 | over the window it is 53/60, about .8833 |
| OpponentExamples.FirstBidLeavesWindow | src/test/java/group17/opponent/utility/Agent17OpponentModelTest.java:135-156 | after ten more bids the first bid has left a window of 10: Fish is counted once overall and not at all recently |
| BidValues.BidValue.Get | src/main/java/group17/domain/BidValue.java:76-78 | the value chosen for an issue, null exactly when the issue is absent |
| BidValues.BidValue.IncludesIssueValue | src/main/java/group17/domain/BidValue.java:76-78 | true exactly when neither is null and the bid maps the issue to that value |
| BidValues.BidValue.IssueMatch | src/main/java/group17/domain/BidValue.java:86-93 | true exactly when both bids name the issue with the same value; null never matches |
| BidValues.BidValue.Matches | src/main/java/group17/domain/BidValue.java:118-129 | exactly the pairs of this bid the other includes |
| BidValues.BidValue.IssuesThatMatch | src/main/java/group17/domain/BidValue.java:136-138 | the issues both bids agree on, in ascending name order |
| BidValues.BidValue.Equals | src/main/java/group17/domain/BidValue.java:145-158 | true exactly when the other is a bid value that includes every pair of this one |
| BidValues.BidValue.Columns | src/main/java/group17/domain/BidValue.java:190-192 | the issue names in ascending order, exactly the keys |
| BidValues.BidValue.ToStringLabels | src/main/java/group17/domain/BidValue.java:167-174 | "Type", each issue name quoted after a comma, then ",Utility" |
| BidValues.BidValue.ToString | src/main/java/group17/domain/BidValue.java:180-188 | the type, each value quoted in the header's column order, then the utility |
| BidValues.AppendQuoted | src/main/java/group17/domain/BidValue.java:199-201 | appends a comma and the quoted string for each string |
| BidValues.ValuesAt | src/main/java/group17/domain/BidValue.java:180-188 | the values of the listed keys, in order |
| BidValues.AssignedMeaning | src/main/java/group17/domain/BidValue.java:99-111 | an issue is in the map exactly when the bid assigns it, mapped to the value of its last assignment |
| BidValues.AssignedSingleValued | src/main/java/group17/domain/BidValue.java:99-111 | for a bid naming each issue once the map holds exactly its pairs |
| BidValues.FromBid | src/main/java/group17/domain/BidValue.java:54-58 | type "Bid", utility 0, the bid's pairs (none for null) |
| BidValues.CreateAgentBidValue | src/main/java/group17/domain/BidValue.java:36-38 | the agent's bid with its utility |
| BidValues.CreateOpponentBidValue | src/main/java/group17/domain/BidValue.java:46-48 | the opponent's bid with its utility |
| BidValues.CoveredTransitive | src/main/java/group17/domain/BidValue.java:145-158 | equals is transitive |
| BidValues.CoveredNotSymmetric | src/main/java/group17/domain/BidValue.java:145-158 | equals is not symmetric: an empty bid value equals a non-empty one but not conversely |
| BidValues.CoveredBothWays | src/main/java/group17/domain/BidValue.java:145-158 | over the same issues, mutual equality is equality of the maps |
| BidValues.CommonIsShared | src/main/java/group17/domain/BidValue.java:118-129 | the common pairs belong to both bids and are symmetric |
| BidSelectors.RandomSource.NextInt | src/main/java/group17/domain/BidSelector.java:196 | the next number of the tape below the bound; one draw |
| BidSelectors.BidSelector.GetUtility | src/main/java/group17/domain/BidSelector.java:205-213 | the utility space's value, or 0 when it throws |
| BidSelectors.BidSelector.constructor | src/main/java/group17/domain/BidSelector.java:45-57 | a duplicate-free list, each bid from the ranking (under uncertainty) or the domain, in the band [minimumUtility, 1], within the limit |
| BidSelectors.BidSelector.GetRandomBid | src/main/java/group17/domain/BidSelector.java:71-79 | null exactly for an empty list; otherwise the bid at the next random index, drawing once |
| BidSelectors.BidSelector.ExpandList | src/main/java/group17/domain/BidSelector.java:86-95 | raises the limit, slides the band down, keeps every old bid, adds only new bids from the source in the new band, stays duplicate-free |
| BidSelectors.BidSelector.AddBidsFromRanking | src/main/java/group17/domain/BidSelector.java:123-137 | adds bids of the ranking in the band; stops at the limit; a pass ending below the limit has added every such bid |
| BidSelectors.BidSelector.AddBidsFromDomain | src/main/java/group17/domain/BidSelector.java:154-169 | adds random domain bids in the band, at most MAX_ATTEMPTS draws of one number per issue; without issues every draw is the empty bid, added when in the band |
| BidSelectors.BidSelector.GenerateRandomBid | src/main/java/group17/domain/BidSelector.java:175-185 | a bid of the domain whose k-th value is chosen by the k-th next random number |
| BidSelectors.BidSelector.RandomValueFrom | src/main/java/group17/domain/BidSelector.java:193-198 | the value at the next random index of the issue |
| LPSolvers.Indicator | src/main/java/group17/user/LPSolver.java:209-219 | a row of the given size |
| LPSolvers.Range | src/main/java/group17/user/LPSolver.java:229-231 | exactly the integers in [start, end) |
| LPSolvers.Difference | src/main/java/group17/user/LPSolver.java:176 | the entry-wise difference of two rows |
| LPSolvers.LastIndexMeaning | src/main/java/group17/user/LPSolver.java:43-48 | a value's column is its last position in the flattened value list |
| LPSolvers.LPSolver.constructor | src/main/java/group17/user/LPSolver.java:34-50 | numbers the values issue by issue; S = ranked bids - 1, V = values, I = issues |
| LPSolvers.LPSolver.ColumnsInRange | src/main/java/group17/user/LPSolver.java:200-206 | every chosen value's column lies below V |
| LPSolvers.LPSolver.BuildCoefficientRow | src/main/java/group17/user/LPSolver.java:209-219 | 1 at exactly the toggled indices, 0 elsewhere |
| LPSolvers.LPSolver.BuildBidConstraintRow | src/main/java/group17/user/LPSolver.java:200-206 | 1 exactly at the columns of the values the bid chooses |
| LPSolvers.LPSolver.GenerateValueComparisons | src/main/java/group17/user/LPSolver.java:165-180 | the N - 1 rows, from the top of the ranking down, of each bid's row minus the row below it |
| LPSolvers.LPSolver.ValueComparisonEntries | src/main/java/group17/user/LPSolver.java:171-177 | a comparison entry is +1, -1 or 0 exactly as only the higher, only the lower, or both or neither bid choose that column |
| LPSolvers.LPSolver.IssueRowColumn | src/main/java/group17/user/LPSolver.java:191-194 | an issue comparison entry is the solved utility of the higher bid's value minus the lower's |
| LPSolvers.LPSolver.GenerateIssueComparisons | src/main/java/group17/user/LPSolver.java:182-198 | the N - 1 rows of solved-utility differences per issue number |
| LPSolvers.LPSolver.ObjectiveColumns | src/main/java/group17/user/LPSolver.java:151-163 | the objective is 1 exactly at columns in [V, S) and all zero when S <= V |
| LPSolvers.LPSolver.BuildObjective | src/main/java/group17/user/LPSolver.java:151-156 | returns the objective row |
| LPSolvers.LPSolver.AddBoundRows | src/main/java/group17/user/LPSolver.java:70-78 | appends the slack and nonnegativity rows |
| LPSolvers.LPSolver.AddComparisonRows | src/main/java/group17/user/LPSolver.java:80-85 | appends each comparison copied in front of its slack column, at least 0 |
| LPSolvers.LPSolver.ValueConstraintsShape | src/main/java/group17/user/LPSolver.java:64-91 | all rows but the last two are GEQ 0 over V + S columns; the last pin the maximal and minimal bids to the high and low utility |
| LPSolvers.LPSolver.BuildValueConstraints | src/main/java/group17/user/LPSolver.java:66-91 | the stage-one constraint list |
| LPSolvers.LPSolver.BuildIssueConstraints | src/main/java/group17/user/LPSolver.java:111-133 | the stage-two constraint list: weights sum to 1, slack, nonnegativity, comparisons |
| LPSolvers.LPSolver.SolveForValues | src/main/java/group17/user/LPSolver.java:64-107 | the optimizer's point read off per value column, or the empty map when it fails |
| LPSolvers.LPSolver.ReadValueUtilities | src/main/java/group17/user/LPSolver.java:96-100 | every value's utility is the point's entry at that value's column |
| LPSolvers.LPSolver.ReadIssueWeights | src/main/java/group17/user/LPSolver.java:138-142 | every issue's weight is the point's entry at its number less one |
| LPSolvers.LPSolver.SolveForIssues | src/main/java/group17/user/LPSolver.java:109-149 | the point read off at issue number - 1, or the empty map when it fails |
| LPSolvers.LPSolver.ValueSolutionSolves | src/main/java/group17/user/LPSolver.java:96-101 | every value gets a utility, so stage two is defined; the map is empty exactly when there are no values |
| LPSolvers.LPSolver.Solve | src/main/java/group17/user/LPSolver.java:52-62 | fails with both maps null when stage one fails or is empty, and with values but no weights when stage two does; the result is flagged failed exactly when it has no weights |
| Preferences.BidEvents | src/main/java/group17/user/UserPreferences.java:45-54 | one visit per assignment of the bid, at its position |
| Preferences.VisitedHasPositions | src/main/java/group17/user/UserPreferences.java:50-53 | a value put in the map has a position |
| Preferences.InsertBySpreadPermutes | src/main/java/group17/user/UserPreferences.java:71 | insertion adds exactly the pair |
| Preferences.InsertKeepsAscending | src/main/java/group17/user/UserPreferences.java:71 | insertion keeps the pairs ascending by spread |
| Preferences.SortBySpreadSorts | src/main/java/group17/user/UserPreferences.java:71 | the sort is a permutation, ascending by spread |
| Preferences.Record | src/main/java/group17/user/UserPreferences.java:49-53 | one visit keeps the nested map the grouping of all visits so far |
| Preferences.RecordValue | src/main/java/group17/user/UserPreferences.java:50-53 | creates a value's position list when missing, then appends the position, keeping the issue's inner map the grouping of the visits so far |
| Preferences.GroupPositions | src/main/java/group17/user/UserPreferences.java:42-55 | the nested map groups each pair's ranking positions, in first-insertion order |
| Preferences.MeanOfPositions | src/main/java/group17/user/UserPreferences.java:63-65 | the mean of the positions |
| Preferences.ComputeMeans | src/main/java/group17/user/UserPreferences.java:60-66 | the mean positions of the issue's values, in map order |
| Preferences.IssuePreference | src/main/java/group17/user/UserPreferences.java:60-68 | the issue paired with the spread of its values' mean positions |
| Preferences.IssuePreferences | src/main/java/group17/user/UserPreferences.java:58-69 | one pair per issue, in the outer map's key order, before sorting |
| Preferences.CalculatePreferences | src/main/java/group17/user/UserPreferences.java:38-73 | the issues scored by the spread of their means, sorted ascending by spread |
| Preferences.PositionMeaning | src/main/java/group17/user/UserPreferences.java:42-55 | a position is listed for a pair exactly when the bid at that position chooses it |
| Preferences.PositionsStrictlyAscending | src/main/java/group17/user/UserPreferences.java:42-55 | the positions gathered for a pair ascend strictly |
| Preferences.MeanWithinRanking | src/main/java/group17/user/UserPreferences.java:63-65 | a mean position lies between 0 and the last position |
| Preferences.OnePairPerIssue | src/main/java/group17/user/UserPreferences.java:38-73 | the result is sorted by spread, names each issue of the ranking exactly once, and nothing else |
| Preferences.UserPreferences.constructor | src/main/java/group17/user/UserPreferences.java:20-23 | the preference order is computed once from the ranking |
| Agents.OppUtility | src/main/java/group17/Agent17.java:475-477 | the opponent model's recent utility, NO_UTILITY for null |
| Agents.FirstMaxMeaning | src/main/java/group17/Agent17.java:296-305 | the scan keeps the first strict maximum above the floor, or nothing when none beats it |
| Agents.Above | src/main/java/group17/Agent17.java:254 | exactly the bids with utility above the threshold |
| Agents.StrategyMeaning | src/main/java/group17/Agent17.java:251-285 | the maximal bid when nothing is above the threshold; otherwise the considered bid the opponent values most, or the maximal bid when none beats it; every considered bid is above the threshold |
| Agents.MostValued | src/main/java/group17/Agent17.java:271-282 | the argmax loop from the maximal bid, strict improvement only |
| Agents.BoulwareBounds | src/main/java/group17/Agent17.java:354-361 | the target stays between the reservation value and the maximal utility and falls as the time factor grows |
| Agents.TatValue | src/main/java/group17/Agent17.java:368-374 | the opponent's concession, never negative |
| Agents.TitForTatConcedes | src/main/java/group17/Agent17.java:379-380 | the target never rises while the distance from Nash is at most 1 |
| Agents.RespondEarly | src/main/java/group17/Agent17.java:137-151 | before the give-up time an offer not accepted outright is countered with the strategy's bid |
| Agents.RespondAcceptsAndEnds | src/main/java/group17/Agent17.java:137-158 | the three cases in which it accepts, and walking away only for offers above the threshold |
| Agents.GreatOfferAcceptsBelowThreshold | src/main/java/group17/Agent17.java:153-155 | an offer worth 0.3 against a threshold of 0.8 is accepted |
| Agents.AllowedStartingBids | src/main/java/group17/Agent17.java:426-433 | never negative, capped by the budget, zero once enough bids are ranked |
| Agents.MaximumAllowedElicitations | src/main/java/group17/Agent17.java:422-424 | the budget times the cost is the penalty |
| Agents.Agent17.constructor | src/main/java/group17/Agent17.java:34 | no offers, no opponent bids, target 0, round 0 |
| Agents.Agent17.BestBidFromOpponent | src/main/java/group17/Agent17.java:290-307 | the opponent's bid with the highest utility above 0, else the last offer |
| Agents.Agent17.OptimalNashNonnegative | src/main/java/group17/Agent17.java:389-394 | the estimated Nash product is at least 0 when the maximal bid is worth the reservation value and the opponent values no bid below 0 |
| Agents.Agent17.DistFromBestOffer | src/main/java/group17/Agent17.java:378-402 | when the last offer is the opponent's bid the agent likes best, the distance from Nash is the maximal bid's surplus over it times the opponent's value: 0 when the last offer is worth the maximum, at least 0 while it is worth no more |
| Agents.Agent17.ComputeOptimalNash | src/main/java/group17/Agent17.java:389-396 | the maximal bid's gain times the opponent's value of its own best bid |
| Agents.Agent17.BiddingStrategy | src/main/java/group17/Agent17.java:251-285 | returns and remembers Strategy |
| Agents.Agent17.Boulware | src/main/java/group17/Agent17.java:354-361 | sets and returns the Boulware target |
| Agents.Agent17.TitForTat | src/main/java/group17/Agent17.java:366-383 | lowers the target by the tit-for-tat term |
| Agents.Agent17.MinTarget | src/main/java/group17/Agent17.java:335-347 | counts the round; Boulware before the transition time, tit for tat after |
| Agents.Agent17.ChooseAction | src/main/java/group17/Agent17.java:124-162 | the new target, then the strategy's bid before both sides have bid, or Respond's answer; an offer marks that the agent bid |
| Agents.Agent17.AnswerOffer | src/main/java/group17/Agent17.java:130-158 | the answer to the last offer is Respond's; the strategy runs only when the answer was not settled |
| Agents.Agent17.ReceiveMessage | src/main/java/group17/Agent17.java:408-420 | an offer becomes the last offer and joins the opponent's bids |

## Left out

- The simplex optimizer is a parameter; its optimality is not modelled. Only how its point is read back is.
- `Math.pow(time, 1 / boulwareBeta)`, the clock and the standard deviation are parameters: real powers and square roots are not modelled.
- `java.util.Random` is a tape of numbers, and `Collections.shuffle` is any permutation.
- `HashMap` and `HashSet` iteration order is modelled as first-insertion order. Where the source sorts (`sortValuesByCount`, `prefOrder.sort`), the sort is stable.
- Floating-point rounding, Java `int` overflow and the rendering of doubles in logs and `toString` (including `UtilityOpponentValue.toString`) are not modelled.
- Null issues in a bid, and non-discrete issues (a `ClassCastException` in the source), are not modelled.
- Logging, analytics (`generateAnalytics`), `init`, `estimateUtilitySpace` and the user elicitation calls (`elicitBids`, `elicitRank`) are framework glue. `AllowedStartingBids` models the count they use.
- Agents.Agent17.ReceiveMessage: does not feed the offer to the opponent model; that update is `OpponentModels.OpponentModel.UpdateOffer`. The second (Jonny Black) model the agent holds is never updated by the source and is not modelled.
- Agents.Agent17.TitForTat: requires two opponent bids; the source reads the penultimate bid unchecked.
- Agents.Agent17.MinTarget: requires two opponent bids from the transition time on, because it calls TitForTat then.
- Agents.Agent17.ChooseAction: requires two opponent bids from the transition time on, because its MinTarget call needs them.
- Agents.StrategyMeaning: requires a `maxListSize` of at least 0 whenever some bid is above the threshold. With a negative size, `subList(0, maxListSize)` throws IllegalArgumentException (Agent17.java:266-268); the property file never checks the value.
- Agents.Agent17.BiddingStrategy: requires a `maxListSize` of at least 0 whenever some bid is above the threshold; on a negative size the source's `subList` throws IllegalArgumentException.
- Agents.Agent17.ChooseAction: requires a `maxListSize` of at least 0 whenever the strategy runs and some bid is above the new target; on a negative size the source's `subList` throws IllegalArgumentException. Answers settled before the strategy runs need nothing of it.
- Agents.Agent17.AnswerOffer: requires a `maxListSize` of at least 0 whenever the answer is not settled and some bid is above the target; on a negative size the source's `subList` throws IllegalArgumentException.
- OpponentModels.OpponentModel.UpdateOffer: requires what Update requires of a non-null offer's bid: single-valued, over known issues, with a known value.
- OpponentModels.OpponentModel.Update: requires a single-valued bid over known issues that chooses at least one known value. On an unknown issue the source throws while counting. A bid with an unknown value makes its closing analytics call (`calculateUtility`) throw NullPointerException after the counts and estimates are updated; the model gives that updated state. The known value is needed only so that some bid of the window chooses one: otherwise the weights are normalized by 0 and the source stores NaN (0.0 / 0.0). Asking it of the new bid is stronger than that: beyond the bids the source throws on anyway, it excludes only an empty bid arriving while earlier bids of the window keep the totals positive.
- OpponentModels.OpponentModel.CalculateUtilityForBid: requires every issue and value of the bid to be known. On an unknown one the source's `getIssueValueUtility` throws NullPointerException.
- OpponentModels.OpponentModel.CalculateRecentUtilityForBid: requires every issue and value of the bid to be known. On an unknown one the source's `getRecentIssueValueUtility` throws NullPointerException.
- OpponentModels.OpponentModel.CalculateUtility: requires a non-null bid to be known, as CalculateUtilityForBid does; the source throws NullPointerException otherwise.
- OpponentModels.OpponentModel.CalculateRecentUtility: requires a non-null bid to be known, as CalculateRecentUtilityForBid does; the source throws NullPointerException otherwise.
- OpponentModels.OpponentModel.CalculateMeanUtility: requires a non-null bid to be known; the source throws NullPointerException otherwise.
- OpponentModels.OpponentModel.CalculateEstimatedUtility: requires a non-null bid to be known; the source throws NullPointerException otherwise.
- BidSelectors.BidSelector.constructor: requires every issue of the domain to have a value (carried on to ExpandList by Valid). A domain issue with no values makes the source's `random.nextInt(0)` throw IllegalArgumentException.
- OpponentModels.OpponentModel.constructor: requires a window of at least 1.
- Agents.MaximumAllowedElicitations: requires a positive elicitation cost.
- LPSolvers.LPSolver.Solve: requires the ranking's bids to use values of the domain, with issues numbered 1 to I. Otherwise the source throws (null unboxing, array index). It also requires a ranking of at least one bid (an empty one makes `new double[bids.size()-1][...]` throw NegativeArraySizeException) and a value for every issue. The source's constructor accepts an issue without values; with one, the issue weights can be read past the end of the optimizer's point.
- The double[][] comparison matrix is a sequence of rows; only single rows are arrays.
- Agents.Agent17.ChooseAction: `getMaxUtilityBid` throwing is the `maxBid` Option; the utility of a null bid is whatever the utility space parameter gives it.
- DomainTranslator, HyperparameterProperties, OpponentModel (the interface) and the test mocks are not part of this model.
