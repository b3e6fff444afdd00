# mailarc-analytics, modelled

The analyses of `mailarc-analytics` derive groups, topics, templates, circles and suggestions from
an e-mail archive, and its read side draws them. Most of what its docstrings promise has the form
"the fast form gives the same answer as the obvious one". This project states those promises over
every input and every run and proves them.

## The parts

- **Closure, Forest, Partition.** Connected components said with walks, and the mutable union-find
  with path compression and union by rank that computes them. `Joining` holds the loops every client
  shares: a dictionary of groups, and k-1 unions per group.
- **Facts, Conversations.** What is known of a message; threads and reply links become chain edges, and
  the edges become exchanges again.
- **Fingerprints, Buckets, Templates, Recall.** 64-bit SimHashes, their bands, near-duplicate clustering
  under a comparison budget, what banding costs against single linkage, and what a group is made of
  (`TemplateGroups`).
- **TopicRules, WeakSignals, Topics, TopicClaims.** The declarative relation of a topic, the weak-pair
  table, the clustering that computes the relation, and what follows from it about order and budgets.
  `TopicBudgets` says when a larger budget joins more, `TopicReasons` and `TopicScores` which reasons,
  names and scores are reported, and `TopicReports` adds names, dates and keys.
- **Sums, Centrality, Ceiling.** Weighted PageRank over exact reals, and what an edge ceiling does to it.
- **Stores, Rebuild, Finished, Repeatability.** A store without transactions, the statements a rebuild
  sends, the rebuild as a run that may stop after any of them, every property of the graph a finished
  run leaves, and when two runs leave one graph.
- **Communities, CircleFindings, Suggestions, Paging.** Circles and placements, strongest arguments,
  keyset paging.
- **Sorting, Agreement, AgreementClaims, Verdicts.** The cross-check of two truncated listings.
- **Overlays, Subgraphs, Pictures, ReplyChain, ChainReadings.** Insertion-ordered dictionaries, pictures
  assembled and merged, and the breadth-first cut of a reply chain.
- **Braces, Json.** The brace scanner, a grammar of what it accepts, and JSON texts.
- **StatementLocks.** Threads interleaving on shared statement objects.

## How things are represented

- Ids, keys and names are natural numbers in the order of the strings; 0 is the empty string. In
  `TopicRules` the signal names keep their alphabetical order: attachment, conversation, embedding,
  participants, ref, subject, thread. The brace scanner works on real characters.
- Weights, shares and ranks are exact reals. Rounding is a parameter of `Suggestions`, `Communities`,
  `Ceiling`, `TopicReports` and `Centrality.WeightedPagerank`; a statement that needs it monotone says so.
- A topic's and a circle's key is its member set, or a digest no two member sets share; a template's key
  is the pair of fingerprint and direction.
- Where the program walks a dictionary or a set whose order cannot matter, the loops here pick any
  element: the contracts then hold for every order.
- Preconditions on messages (distinct ids, unsigned fingerprints) are what
  `components/mailarc-analytics/src/mailarc_analytics/derived/reader.py` establishes. An id unknown to a
  union-find raises a `KeyError` in the program; here the caller has to show it is known, which every
  caller does.
- In `Rebuild` a session answers as many statements as its patience allows and none after that, so
  "for every patience" is "stopped after any statement". The analyses are arbitrary functions of what
  they read; only the label propagation reads derived data, the CO_ADDRESSED edges of its own run.

## Where the code and its documentation part

Each point is a theorem that says for which inputs the documentation holds.

- `CoAddressedAgreement.edge_only` is documented as provably absent from the ground truth. It is exactly
  when the truth listing has fewer rows than the limit; else it is only provably smaller
  (`AgreementClaims.EdgeOnlyIsAbsent`, with an input in `EdgeOnlyYetPresent`).
- A floor of zero is documented as proof that a listing is exhaustive. It is one exactly for limits above
  zero (`AgreementClaims.ZeroFloorIsExhaustive`); with a limit of zero both floors are zero and nothing is
  judged.
- `build_topics` documents that a suggestion can only join what a fact left open. Two suggestions for
  one pair are folded by weight alone, and the rebuild passes exact conversation edges through that
  fold: a conversation survives it exactly when no other proposal for its pair comes first
  (`TopicClaims.ConversationSurvives`), and an embedding can take its place in the findings
  (`TopicReasons.ConversationHidden`). Among the reasons offered a fact always wins
  (`TopicReasons.ReportedMethod`).
- A larger weak-pair budget can separate messages a smaller one joined (`TopicClaims.LargerBudgetCanSplit`).
  For an archive it never does, whatever is suggested, exactly when it leaves at least as much room for
  suggestions after the weak table, or more than fits on the two sides of any gap between the messages
  (`TopicBudgets.LargerBudgetRefines`; `LessRoomCanSuffice` has an archive of the second kind).
- Banding is documented to miss pairs from the number of bands on, at no cost to the clusters found. It
  gives the clusters of single linkage for every archive the budget pays for exactly when the maximum
  distance is below the number of bands (`Recall.BandingIsExactBelowTheBands`); the defaults are five and
  four.
- The ranks are promised to be independent of the labels. They are, for all lists of n pairs, exactly when
  the ceiling leaves none of the n pairs out (`Ceiling.CeilingSeesNames`).
- Walking from the participants is documented as a matter of cost alone. It gives what comparing all
  shares gives exactly for positive minimum shares (`Communities.PositiveMinimumIsNeeded`).
- The clear of the importance looks at the value and the version, not at the reasons; it forgets
  everything because every writer sets all three (`Stores.ClearsAllWhenMarked`).
- A rebuild over an unchanged archive is documented to write the same graph because circles are keyed by
  their members. Two runs leave one graph exactly when the label propagation found the same circles
  (`Repeatability.RepeatsExactlyOnCircles`, with an ambiguous partition in `AmbiguityShows`).

## Model

| member | source | states |
|---|---|---|
| `Partition.DisjointSet.constructor` | components/mailarc-analytics/src/mailarc_analytics/derived/partition.py:29-31 | Every item starts as its own component, with no link drawn. |
| `Partition.DisjointSet.Find` | components/mailarc-analytics/src/mailarc_analytics/derived/partition.py:33-45 | Terminates at the representative of the item's component and leaves the item one hop below it; path compression keeps every representative, every rank bound and every link. |
| `Partition.DisjointSet.Union` | components/mailarc-analytics/src/mailarc_analytics/derived/partition.py:47-56 | Adds exactly one link to the relation the forest draws: afterwards two items share a representative if and only if the links so far connect them, and ranks still bound the paths. |
| `Partition.DisjointSet.Components` | components/mailarc-analytics/src/mailarc_analytics/derived/partition.py:58-69 | Returns the components of the items under the declarative closure of all links, each list increasing, the lists in order of their smallest members; nothing about roots, ranks or call order shows. |
| `Forest.SharedRoot` | components/mailarc-analytics/src/mailarc_analytics/derived/partition.py:33-56 | Two items have one representative exactly when the unions connect them. |
| `Forest.RankIsLogarithmic` | components/mailarc-analytics/src/mailarc_analytics/derived/partition.py:53-56 | No rank exceeds log2 of the number of items, because a root of rank r stands for at least 2^r of them. |
| `Forest.HopsAreLogarithmic` | components/mailarc-analytics/src/mailarc_analytics/derived/partition.py:40-42 | A walk that has not met its root after k hops needs 2^k items: finding a root takes at most log2 n hops. |
| `Forest.CompressionRanks` | components/mailarc-analytics/src/mailarc_analytics/derived/partition.py:41-44 | Pointing any item of a path at its root keeps ranks strictly increasing along every path and every representative. |
| `Forest.LinkDraws` | components/mailarc-analytics/src/mailarc_analytics/derived/partition.py:47-56 | Hanging the root of smaller rank below the other one keeps the forest in step with one more link, rank growth included. |
| `Partition.ComponentsSame` | components/mailarc-analytics/src/mailarc_analytics/derived/partition.py:58-69 | Two link sets that connect the same items yield the very same list of components. |
| `Partition.ComponentsCover` | components/mailarc-analytics/src/mailarc_analytics/derived/partition.py:58-69 | Every item stands on a list, and that list is its whole component. |
| `Partition.ComponentsDisjoint` | components/mailarc-analytics/src/mailarc_analytics/derived/partition.py:58-69 | No item stands on two lists. |
| `Closure.MutualAbsorb` | components/mailarc-analytics/src/mailarc_analytics/derived/partition.py:20-27 | Two relations each of whose links is a connection of the other have the same components. |
| `Closure.ChainIsClique` | components/mailarc-analytics/src/mailarc_analytics/derived/topics.py:266-272 | k-1 consecutive links connect exactly what all k(k-1)/2 pairs of the members connect. |
| `Conversations.ConversationEdges` | components/mailarc-analytics/src/mailarc_analytics/derived/conversations.py:71-100 | The edges are the chains of the components of: same non-empty thread, or a reply whose two ends are both in hand. |
| `Conversations.EdgeCount` | components/mailarc-analytics/src/mailarc_analytics/derived/conversations.py:89-99 | An exchange of n messages contributes n-1 edges and a lone message none. |
| `Conversations.LinkedFacts` | components/mailarc-analytics/src/mailarc_analytics/derived/conversations.py:71-100 | Two messages are linked to begin with exactly when they carry one non-empty thread id, or one answers the other. |
| `Conversations.EdgesAreConversations` | components/mailarc-analytics/src/mailarc_analytics/derived/conversations.py:89-99 | Every edge is a conversation of weight 0.9. |
| `Conversations.EdgesDrawExchanges` | components/mailarc-analytics/src/mailarc_analytics/derived/conversations.py:89-99 | The edges connect two messages exactly when they stand in one exchange. |
| `Conversations.EndsAreMulti` | components/mailarc-analytics/src/mailarc_analytics/derived/suggestions.py:239-253 | The ends of the edges are exactly the messages of exchanges of two or more. |
| `Conversations.ExchangesBehind` | components/mailarc-analytics/src/mailarc_analytics/derived/suggestions.py:239-253 | The components found again behind the edges are those of the relation the edges draw. |
| `Conversations.ExchangesRecovered` | components/mailarc-analytics/src/mailarc_analytics/derived/suggestions.py:239-253 | Round trip: those components are precisely the exchanges of two or more, in the same order, member for member. |
| `Fingerprints.NearShareBand` | components/mailarc-analytics/src/mailarc_analytics/derived/templates.py:105-128 | Two 64-bit fingerprints closer than the number of bands have the same value in some band. |
| `Fingerprints.NoSharedBandIsFar` | components/mailarc-analytics/src/mailarc_analytics/derived/templates.py:105-128 | Fingerprints that share no band differ in at least as many bits as there are bands. |
| `Fingerprints.UnsignedOnce` | components/mailarc-analytics/src/mailarc_analytics/derived/templates.py:108-113 | A stored signed 64-bit number becomes the unsigned one of the same bits, and converting twice is converting once. |
| `Fingerprints.HammingZero` | components/mailarc-analytics/src/mailarc_analytics/derived/model.py:189-203 | Distance zero is equality, so equal fingerprints and only those are duplicates. |
| `Templates.PendingBuckets` | components/mailarc-analytics/src/mailarc_analytics/derived/templates.py:345-350 | Every fingerprint stands in the bucket of each of its bands, there is no bucket of another band and none that is empty, smallest buckets first, ties by key. |
| `Templates.PendingUnique` | components/mailarc-analytics/src/mailarc_analytics/derived/templates.py:345-350 | The fingerprints and the band width determine that list: no other one has these properties. |
| `Buckets.SortedInOrder` | components/mailarc-analytics/src/mailarc_analytics/derived/templates.py:350 | Fewer members first; among buckets of one size the smaller key first, band before value. |
| `Templates.CompareBuckets` | components/mailarc-analytics/src/mailarc_analytics/derived/templates.py:351-369 | Buckets are compared whole in order until the first one the remaining budget cannot pay; the rest is counted as dropped, and only leaders of one compared bucket within the distance were joined. |
| `Templates.BudgetSpent` | components/mailarc-analytics/src/mailarc_analytics/derived/templates.py:351-364 | The comparisons charged never exceed the budget, and the first refused bucket is one it cannot pay. |
| `TemplateGroups.ComparisonsWithinBudget` | components/mailarc-analytics/src/mailarc_analytics/derived/templates.py:351-364 | The same of the setting itself: a negative one is a budget of zero. |
| `Templates.ClusterDraws` | components/mailarc-analytics/src/mailarc_analytics/derived/templates.py:313-364 | Leaders, skipped comparisons and chained duplicates change nothing: the partition draws exactly the closure of "equal, or within the distance in a compared bucket". |
| `Templates.Cluster` | components/mailarc-analytics/src/mailarc_analytics/derived/templates.py:313-375 | The groups are those of the components of that closure that reach the minimum number of copies and the dropped buckets are those not paid for, both a function of the fingerprints and the configuration; or the band width is refused. |
| `Templates.NeverTooMuch` | components/mailarc-analytics/src/mailarc_analytics/derived/templates.py:313-375 | Nothing is joined that single linkage at the maximum distance would not join, whatever the budget. |
| `Templates.NeverTooLittle` | components/mailarc-analytics/src/mailarc_analytics/derived/templates.py:313-375 | With every bucket paid for, everything single linkage joins below the number of bands is joined. |
| `Templates.BandingIsSingleLinkage` | components/mailarc-analytics/src/mailarc_analytics/derived/templates.py:313-375 | With a maximum distance below the number of bands and every bucket paid for, banding is exactly single linkage. |
| `Recall.BandingIsExactBelowTheBands` | components/mailarc-analytics/src/mailarc_analytics/derived/templates.py:26-36 | For every archive whose comparisons are paid for, exactly when the maximum distance is below the number of bands: from there on two fingerprints with one differing bit in each band are missed. |
| `Templates.EqualStayTogether` | components/mailarc-analytics/src/mailarc_analytics/derived/templates.py:321-324 | Messages with equal fingerprints stay in one group whatever the budget. |
| `Templates.BudgetRefines` | components/mailarc-analytics/src/mailarc_analytics/derived/templates.py:343-364 | A smaller comparison budget only splits what a larger one joins. |
| `Templates.TemplateIdsDistinct` | components/mailarc-analytics/src/mailarc_analytics/derived/model.py:189-203 | The keys of all templates of both directions are pairwise distinct. |
| `Templates.GroupTemplates` | components/mailarc-analytics/src/mailarc_analytics/derived/templates.py:131-164 | Both directions clustered apart, sent first, empty bodies counted and left out, the buckets dropped in the two directions added up. |
| `TemplateGroups.TemplatesAreSound` | components/mailarc-analytics/src/mailarc_analytics/derived/templates.py:383-406 | Every group is one whole component of at least so many copies, members in order; its smallest member stands for it, with that message's fingerprint, and each member carries the Hamming distance of its own fingerprint to it. |
| `TemplateGroups.TemplatesAreComplete` | components/mailarc-analytics/src/mailarc_analytics/derived/templates.py:371-375 | Every message whose component has enough copies is in a group of its own direction. |
| `TemplateGroups.RefusedWhen` | components/mailarc-analytics/src/mailarc_analytics/derived/templates.py:105-128 | A band width outside 1 to 64 is refused exactly when there is a fingerprint to cut. |
| `Templates.OrderIndependent` | components/mailarc-analytics/src/mailarc_analytics/derived/templates.py:131-164 | The same messages in any order give the same templates in the same order and the same counts. |
| `Topics.BuildTopics` | components/mailarc-analytics/src/mailarc_analytics/derived/topics.py:104-153 | Members, reasons, mean scores and drop counts are those of the declarative findings: closure of strong buckets, weak pairs that add up and applied suggestions. |
| `TopicScores.TopicScoreIsMean` | components/mailarc-analytics/src/mailarc_analytics/derived/topics.py:454-487 | The score of a topic times its members is the sum of its members' scores over their ids, which increase. |
| `TopicScores.TopicScoreLiesBetween` | components/mailarc-analytics/src/mailarc_analytics/derived/topics.py:454-487 | It lies between the least and the greatest of them. |
| `TopicScores.MemberReason` | components/mailarc-analytics/src/mailarc_analytics/derived/topics.py:546-573 | Every reported member carries a reason offered to it: exact if any is, none of the same exactness of a larger score, and at that score none of a smaller name. |
| `TopicScores.TopicMethod` | components/mailarc-analytics/src/mailarc_analytics/derived/topics.py:472-476 | A topic is named by a member's method: exact if any is, then of the largest weight, then of the smallest name. |
| `TopicScores.ScoresAreFractions` | components/mailarc-analytics/src/mailarc_analytics/derived/topics.py:350-352 | No score exceeds one. |
| `TopicScores.TwoMessages` | components/mailarc-analytics/src/mailarc_analytics/derived/model.py:92-101 | Two messages with one value in common and nothing else are a topic exactly when the signal is worth the threshold, at 1.0, 0.8, 0.5, 0.4 or 0.2 by the signal. |
| `TopicScores.TwoSignals` | components/mailarc-analytics/src/mailarc_analytics/derived/model.py:105-113 | An attachment and a participant group carry a topic only together: up to a threshold of 0.6, under the attachment's name. |
| `TopicReports.ReportTopics` | components/mailarc-analytics/src/mailarc_analytics/derived/topics.py:454-487 | Each of those clusters with its key, its name, its first and last date and its rounded score. |
| `TopicReports.DatesOfTopic` | components/mailarc-analytics/src/mailarc_analytics/derived/topics.py:464-486 | First and last seen are the earliest and the latest date among its messages, empty when none is dated. |
| `TopicReports.NameOf` | components/mailarc-analytics/src/mailarc_analytics/derived/topics.py:490-514 | The subject most of the messages carry, the smaller of two equals; without any subject the smallest ticket they all name; else nothing. |
| `TopicReports.ReportIndependent` | components/mailarc-analytics/src/mailarc_analytics/derived/topics.py:490-514 | No name, date, key or score depends on the order of the messages or of the suggestions. |
| `TopicReports.KeysDistinct` | components/mailarc-analytics/src/mailarc_analytics/derived/model.py:140-163 | No two topics of a report share a key. |
| `Topics.JoinStrong` | components/mailarc-analytics/src/mailarc_analytics/derived/topics.py:259-280 | Every strong bucket is chained, and each member is offered that signal. |
| `Topics.JoinWeak` | components/mailarc-analytics/src/mailarc_analytics/derived/topics.py:283-353 | The pairs joined are those whose distinct weak signals from the scored buckets add up to the threshold, each signal once per pair. |
| `WeakSignals.ScoreBuckets` | components/mailarc-analytics/src/mailarc_analytics/derived/topics.py:304-346 | The tables hold, for every pair of a scored bucket, the sum of its distinct signals and its heaviest one; scoring stops at the first bucket that does not fit. |
| `Topics.TopicsDraw` | components/mailarc-analytics/src/mailarc_analytics/derived/topics.py:266-272 | Chains in place of cliques leave the components of the whole relation as they are. |
| `Topics.ExtraPairs` | components/mailarc-analytics/src/mailarc_analytics/derived/topics.py:418-451 | One proposal per unordered known pair, the first under (weight descending, method ascending), whatever the order of the edges. |
| `TopicScores.FoldKeepsHeaviest` | components/mailarc-analytics/src/mailarc_analytics/derived/topics.py:418-451 | No acceptable suggestion for a pair outweighs the one kept, and none of its weight has a smaller method. |
| `TopicScores.AppliedAreHeaviest` | components/mailarc-analytics/src/mailarc_analytics/derived/topics.py:400-415 | A suggestion left out is lighter than every one applied, or as light and of a later pair. |
| `TopicScores.SuggestionOffered` | components/mailarc-analytics/src/mailarc_analytics/derived/topics.py:411-414 | An applied suggestion is offered to both its messages at its weight, at one if it weighs more. |
| `TopicScores.DroppedPairsCounted` | components/mailarc-analytics/src/mailarc_analytics/derived/topics.py:310-328 | The drop count is the pairs of all buckets not scored plus the suggestions not applied. |
| `Topics.FindingsUnique` | components/mailarc-analytics/src/mailarc_analytics/derived/topics.py:104-153 | The declarative findings are determined by the messages, the proposals and the configuration. |
| `TopicClaims.OrderIndependent` | components/mailarc-analytics/src/mailarc_analytics/derived/topics.py:283-451 | Permuting the messages, and permuting, repeating, reversing or padding the suggestions with self-pairs, changes no cluster, reason, score or drop count, budgets included. |
| `TopicClaims.BudgetShared` | components/mailarc-analytics/src/mailarc_analytics/derived/topics.py:304-415 | The weak table and the applied suggestions together stay within the one ceiling. |
| `TopicClaims.FactsStayJoined` | components/mailarc-analytics/src/mailarc_analytics/derived/topics.py:259-280 | No budget separates two messages of one strong bucket. |
| `TopicClaims.BudgetRefines` | components/mailarc-analytics/src/mailarc_analytics/derived/topics.py:304-328 | Without suggestions a smaller budget gives a refinement of the partition a larger one gives. |
| `TopicClaims.LargerBudgetCanSplit` | components/mailarc-analytics/src/mailarc_analytics/derived/topics.py:400-415 | With suggestions that can fail: a pair joined on a budget of one falls apart on a budget of three. |
| `TopicBudgets.RoomRefines` | components/mailarc-analytics/src/mailarc_analytics/derived/topics.py:400-415 | With as many suggestions applied as before, a larger budget only joins more. |
| `TopicBudgets.SuggestableIsFolded` | components/mailarc-analytics/src/mailarc_analytics/derived/topics.py:418-451 | The pairs and reasons a list of suggestions can fold to are exactly those of two known messages, smaller first, at or above the threshold. |
| `TopicBudgets.CrowdedJoinsAll` | components/mailarc-analytics/src/mailarc_analytics/derived/topics.py:400-415 | Where the room exceeds the pairs on the two sides of every gap, a list that fills it joins everything. |
| `TopicBudgets.LargerBudgetRefines` | components/mailarc-analytics/src/mailarc_analytics/derived/topics.py:400-415 | Over all lists of suggestions a larger budget joins at least what a smaller one joined exactly when the room left for them does not shrink, or leaves no gap open. |
| `TopicBudgets.LessRoomCanSuffice` | components/mailarc-analytics/src/mailarc_analytics/derived/topics.py:400-415 | Four messages of one team: a budget of ten leaves less room than one of five and still joins whatever that joins. |
| `TopicClaims.FactBeatsSuggestion` | components/mailarc-analytics/src/mailarc_analytics/derived/topics.py:546-573 | Among the reasons offered to a message an exact one always wins over a suggestion, whatever the scores. |
| `TopicClaims.ConversationSurvives` | components/mailarc-analytics/src/mailarc_analytics/derived/topics.py:447-450 | A conversation survives the fold of its pair exactly when no other proposal for the pair comes first by weight. |
| `TopicClaims.EmbeddingHidesConversation` | components/mailarc-analytics/src/mailarc_analytics/derived/topics.py:447-450 | An embedding at 0.95 hides a conversation at 0.9 on the same pair. |
| `TopicReasons.ReportedMethod` | components/mailarc-analytics/src/mailarc_analytics/derived/topics.py:546-573 | A message is in a reported topic exactly when something joins it to another one, and its method is an exact signal exactly when one was among the reasons offered to it. |
| `TopicReasons.ConversationHidden` | components/mailarc-analytics/src/mailarc_analytics/derived/topics.py:447-450 | With that embedding the findings report the suggestion for a message they report as in a conversation without it. |
| `TopicClaims.MembersExplained` | components/mailarc-analytics/src/mailarc_analytics/derived/topics.py:454-466 | Every member of a topic of two or more carries a reason that was really offered; the empty default is never used. |
| `WeakSignals.PairsOfSize` | components/mailarc-analytics/src/mailarc_analytics/derived/topics.py:317-319 | A bucket of n messages has n(n-1)/2 pairs. |
| `Centrality.BuildAdjacency` | components/mailarc-analytics/src/mailarc_analytics/derived/centrality.py:175-195 | The two tables hold the symmetric graph of the pairs: every pair counted from both ends at its weight, repeated pairs added up, self-pairs skipped. |
| `Centrality.RowSum` | components/mailarc-analytics/src/mailarc_analytics/derived/centrality.py:175-195 | The weights of a row add up to the node's total. |
| `Centrality.PassIsDense` | components/mailarc-analytics/src/mailarc_analytics/derived/centrality.py:116-125 | A pass over the sparse rows is the pass over the whole graph. |
| `Centrality.WeightedPagerank` | components/mailarc-analytics/src/mailarc_analytics/derived/centrality.py:80-133 | The result is the given number of passes from an even start over the walked pairs, rounded; empty when there is none. |
| `Centrality.CountsAddUp` | components/mailarc-analytics/src/mailarc_analytics/derived/centrality.py:183-195 | A pair of m + n messages may be listed as one of m and one of n, wherever it stands, and no rank changes. |
| `Centrality.LeastCountIsOne` | components/mailarc-analytics/src/mailarc_analytics/derived/centrality.py:190 | A count of one or less ranks as one. |
| `Centrality.PassesCount` | components/mailarc-analytics/src/mailarc_analytics/derived/centrality.py:110-124 | No passes leave every address its even share, rounded; each iteration is one pass more. |
| `Centrality.GivenIsRank` | components/mailarc-analytics/src/mailarc_analytics/derived/centrality.py:120-123 | What a node passes on adds up to its own rank. |
| `Centrality.RanksSumToOne` | components/mailarc-analytics/src/mailarc_analytics/derived/centrality.py:98-100 | After any number of passes the ranks of exactly the nodes sum to one. |
| `Centrality.RanksAtLeastLeak` | components/mailarc-analytics/src/mailarc_analytics/derived/centrality.py:115-125 | No address falls below (1-d)/n. |
| `Centrality.RankingIgnoresNames` | components/mailarc-analytics/src/mailarc_analytics/derived/centrality.py:107-126 | With no ceiling, renaming the addresses by any injection, in any order of the pairs and with any arrows, permutes the ranks and changes none. |
| `Centrality.RanksIgnoreOrder` | components/mailarc-analytics/src/mailarc_analytics/derived/centrality.py:175-195 | The order of the pairs does not matter. |
| `Ceiling.CeilingSeesNames` | components/mailarc-analytics/src/mailarc_analytics/derived/centrality.py:159-172 | All lists of n pairs rank alike under all names and in all orders exactly when the ceiling is off or at least n; restricting the lists to canonical order does not help. |
| `Stores.WithoutTwice` | components/mailarc-analytics/src/mailarc_analytics/queries/statements/writes.py:99-121 | Two batches of a delete are one delete of both. |
| `Stores.SweptIsBare` | components/mailarc-analytics/src/mailarc_analytics/derived/rebuild.py:255-279 | After the six listed deletions no derived node and no derived edge is left, of the seven edge types including the five that are not listed. |
| `Stores.ClearsAllWhenMarked` | components/mailarc-analytics/src/mailarc_analytics/queries/statements/writes.py:604-614 | The two clears remove every derived property exactly when no score has reasons without a value and a version. |
| `Stores.ApplyConcat` | components/mailarc-analytics/src/mailarc_analytics/derived/writes.py:82-94 | Sending a payload in batches leaves what sending it whole leaves. |
| `Stores.ApplyTwice` | components/mailarc-analytics/src/mailarc_analytics/derived/writes.py:9-13 | Every write is an upsert: the same payload sent twice leaves what it left the first time. |
| `Stores.LandedAreThere` | components/mailarc-analytics/src/mailarc_analytics/derived/writes.py:137-148 | A SET statement reports one for every row, repeats included, whose node is there. |
| `Stores.ApplyIsSound` | components/mailarc-analytics/src/mailarc_analytics/queries/statements/writes.py:264-289 | A write never adds or removes a node of the ground truth and never leaves an edge without an end. |
| `Rebuild.Session.Drain` | components/mailarc-analytics/src/mailarc_analytics/derived/rebuild.py:612-632 | Terminates after the full batches, the last one and an empty one; removes exactly what matched, and counts it. |
| `Rebuild.Session.DeleteDerived` | components/mailarc-analytics/src/mailarc_analytics/derived/rebuild.py:566-579 | No derived node or edge is left; the counts are the derived nodes and the edges between ground-truth nodes that there were. |
| `Rebuild.Session.ClearProperties` | components/mailarc-analytics/src/mailarc_analytics/derived/rebuild.py:582-598 | No derived property is left on any message or address. |
| `Rebuild.Session.MergeRows` | components/mailarc-analytics/src/mailarc_analytics/derived/writes.py:82-94 | All rows are applied in order, in batches of at most a thousand, and their number returned. |
| `Rebuild.Session.SetRows` | components/mailarc-analytics/src/mailarc_analytics/derived/writes.py:137-148 | The same, answering with the rows that found their node. |
| `Rebuild.Session.RebuildDerived` | components/mailarc-analytics/src/mailarc_analytics/derived/rebuild.py:282-377 | Wherever the run stops, ground truth is as it was and every edge has its ends; a run that finishes leaves a store that is a function of ground truth alone, whatever was there before. |
| `Stores.EdgesAdded` | components/mailarc-analytics/src/mailarc_analytics/queries/statements/writes.py:264-289 | A payload adds exactly the edges it ties whose two ends are there: endpoints are matched and never made. |
| `Rebuild.RebuiltHoldsTheFindings` | components/mailarc-analytics/src/mailarc_analytics/derived/rebuild.py:282-377 | The stage order loses nothing: a finished graph holds exactly the nodes some finding describes, and exactly the edges some finding describes whose two ends it holds. |
| `Finished.PropagationReadsThePairs` | components/mailarc-analytics/src/mailarc_analytics/derived/rebuild.py:451-458 | The label propagation is given exactly the co-addressing edges of this run between known addresses, each with the count of the last row for it. |
| `Finished.FinishedNode` | components/mailarc-analytics/src/mailarc_analytics/queries/statements/writes.py:195-246 | A node carries the fields of the last row that names it, and a topic the keywords of the last row for it. |
| `Finished.FinishedEdge` | components/mailarc-analytics/src/mailarc_analytics/queries/statements/writes.py:264-384 | An edge of each type is there exactly when a row ties two ends that are there, and carries the last such row. |
| `Finished.FinishedScore` | components/mailarc-analytics/src/mailarc_analytics/derived/importance.py:186-215 | Exactly the messages the importance rows name are scored, with the value and the reasons of the last row and the version. |
| `Finished.FinishedRank` | components/mailarc-analytics/src/mailarc_analytics/derived/centrality.py:136-156 | Exactly the addresses the rank rows name are ranked, with the last row's rank and the version. |
| `Rebuild.Session.AbortAndRerun` | app/worker.py:171-179 | A run abandoned after any statement and run again reaches the graph of an uninterrupted one. |
| `Rebuild.Session.RebuildTwice` | components/mailarc-analytics/src/mailarc_analytics/derived/rebuild.py:304-310 | A second run over an unchanged archive changes nothing, and deletes exactly what the first wrote. |
| `Rebuild.RebuiltIgnoresNumbering` | components/mailarc-analytics/src/mailarc_analytics/derived/rebuild.py:304-310 | Where the circles do not depend on the seed of the propagation, the graph does not. |
| `Rebuild.DigestsMakeNumberingHarmless` | components/mailarc-analytics/src/mailarc_analytics/derived/algorithms.py:160-173 | It is enough that circles are keyed by their members and that an unchanged graph is partitioned the same way. |
| `Repeatability.RepeatsExactlyOnCircles` | components/mailarc-analytics/src/mailarc_analytics/derived/rebuild.py:306-311 | With circles keyed by their members two runs over one archive leave the same graph exactly when the propagation found the same circles in both. |
| `Repeatability.AmbiguityShows` | components/mailarc-analytics/src/mailarc_analytics/derived/algorithms.py:160-173 | Two triangles read as one circle or as two give one archive two graphs, whatever the other analyses are. |
| `Agreement.Between` | components/mailarc-analytics/src/mailarc_analytics/queries/model.py:618-666 | Refuses listings longer than the limit; otherwise judges exactly the provable pairs, sorted into four lists heaviest first, and counts the rest. |
| `Agreement.Keyed` | components/mailarc-analytics/src/mailarc_analytics/queries/model.py:669-687 | The last row of a pair wins, and every repeated row is counted. |
| `Verdicts.EndsDoNotMatter` | components/mailarc-analytics/src/mailarc_analytics/queries/model.py:388-394 | Naming any pairs from their other end changes no verdict. |
| `Verdicts.ListsInOrder` | components/mailarc-analytics/src/mailarc_analytics/queries/model.py:373-386 | All four lists start with the largest claim; equal claims are in the order of the addresses. |
| `Verdicts.AgreesOnlyWithoutRepeats` | components/mailarc-analytics/src/mailarc_analytics/queries/model.py:515-534 | Agreement is three empty lists and an edge listing that names no pair twice. |
| `AgreementClaims.VerdictSound` | components/mailarc-analytics/src/mailarc_analytics/queries/model.py:562-610 | Over any two tables of positive counts and any tie-breaking top-limit listings of them, matched pairs are equal, reported differences are real, and their direction is too. |
| `AgreementClaims.OverstatementsReported` | components/mailarc-analytics/src/mailarc_analytics/queries/model.py:545-560 | Every judged pair the edge overstates is among the overstatements, as every reported one (VerdictSound) really is one. |
| `AgreementClaims.NothingIsLost` | components/mailarc-analytics/src/mailarc_analytics/queries/model.py:638-665 | Every pair either listing names stands in exactly one of the four lists or is counted as unjudged. |
| `AgreementClaims.JudgesAllItCan` | components/mailarc-analytics/src/mailarc_analytics/queries/model.py:690-703 | A named pair is ruled on exactly when all tables consistent with both listings give it the same answer: no sound rule could judge more. |
| `AgreementClaims.SilenceIsBounded` | components/mailarc-analytics/src/mailarc_analytics/queries/model.py:706-718 | A pair a listing leaves out counts at most that listing's floor. |
| `AgreementClaims.UncutIsExact` | components/mailarc-analytics/src/mailarc_analytics/queries/model.py:515-533 | When neither listing was cut nothing is unjudged, and agreement is equality of the two tables. |
| `AgreementClaims.EdgeOnlyIsAbsent` | components/mailarc-analytics/src/mailarc_analytics/queries/model.py:491-492 | An edge-only pair is certainly absent from the ground truth exactly when the truth listing has fewer rows than the limit; otherwise it is only certainly smaller. |
| `AgreementClaims.FloorIsZero` | components/mailarc-analytics/src/mailarc_analytics/queries/model.py:466-473 | The floor of a listing is zero exactly when it has fewer rows than the limit or the limit is zero. |
| `AgreementClaims.ZeroFloorIsExhaustive` | components/mailarc-analytics/src/mailarc_analytics/queries/model.py:466-473 | A zero floor proves every listing exhaustive exactly for limits above zero. |
| `AgreementClaims.EdgeOnlyYetPresent` | components/mailarc-analytics/src/mailarc_analytics/queries/model.py:491-492 | A pair reported as edge-only that a message does support. |
| `Subgraphs.Assembly.Node` | components/mailarc-analytics/src/mailarc_analytics/queries/graphs.py:441-472 | A second reading only fills in what the first did not know. |
| `Pictures.SecondReading` | components/mailarc-analytics/src/mailarc_analytics/queries/graphs.py:441-472 | Identity, name, properties and weights of the first reading stay, only what it lacked is taken from the second; its place and every other node stay. |
| `Subgraphs.Assembly.Edge` | components/mailarc-analytics/src/mailarc_analytics/queries/graphs.py:474-490 | Of two readings of one line the heavier stays, the first on a tie. |
| `Subgraphs.Assembly.Finish` | components/mailarc-analytics/src/mailarc_analytics/queries/graphs.py:503-535 | No id twice, no line twice, every line with both ends; every node normalised with its degree in this picture. |
| `Pictures.DrawnFraction` | components/mailarc-analytics/src/mailarc_analytics/queries/graphs.py:752-769 | Times the largest value of its name in the picture a drawn weight is the value it had, degree included; with nothing positive it is zero. |
| `Subgraphs.FinishedDegreesSum` | components/mailarc-analytics/src/mailarc_analytics/queries/graphs.py:517-520 | Before they are normalised, the degrees sum to twice the lines. |
| `Subgraphs.DrawnIsScaled` | components/mailarc-analytics/src/mailarc_analytics/queries/graphs.py:752-769 | All weights lie between 0 and 1 exactly when no name carries a negative weight next to a positive one. |
| `Subgraphs.NonNegativeIsScaled` | components/mailarc-analytics/src/mailarc_analytics/queries/graphs.py:441-535 | They do after any readings without a negative weight. |
| `Subgraphs.FindCeilings` | components/mailarc-analytics/src/mailarc_analytics/queries/graphs.py:759-762 | The ceiling of a name is the largest value under it, zero when none is positive. |
| `Subgraphs.MergedWith` | components/mailarc-analytics/src/mailarc_analytics/queries/model.py:865-897 | The loops compute the merge of the two pictures, insertion order included. |
| `Pictures.MergedNode` | components/mailarc-analytics/src/mailarc_analytics/queries/model.py:900-911 | A node of both pictures keeps identity, name and properties of the first, gaps filled from the second, and the larger of each weight. |
| `Pictures.MergedAlone` | components/mailarc-analytics/src/mailarc_analytics/queries/model.py:865-897 | A node of one picture only stays as it is. |
| `Pictures.MergedLine` | components/mailarc-analytics/src/mailarc_analytics/queries/model.py:865-897 | A line of both is the second one's only where that is heavier. |
| `Pictures.MergedNotice` | components/mailarc-analytics/src/mailarc_analytics/queries/model.py:865-897 | Cut when either half was, with the notice of the first half that has one. |
| `Subgraphs.MergeIsProper` | components/mailarc-analytics/src/mailarc_analytics/queries/model.py:881-882 | Merging loses neither guarantee: no second pass over the edges is needed. |
| `Subgraphs.MergeIsScaled` | components/mailarc-analytics/src/mailarc_analytics/queries/model.py:872-879 | Weights stay between 0 and 1. |
| `Subgraphs.MergeAssociates` | components/mailarc-analytics/src/mailarc_analytics/queries/model.py:865-897 | Merging is associative, order of nodes and lines included. |
| `Subgraphs.MergeIsIdempotent` | components/mailarc-analytics/src/mailarc_analytics/queries/model.py:866-871 | A picture merged with itself is itself, and an expansion applied twice is applied once. |
| `Subgraphs.MergeWithNothing` | components/mailarc-analytics/src/mailarc_analytics/queries/model.py:865-897 | The empty picture is the identity on both sides. |
| `ReplyChain.Within` | components/mailarc-analytics/src/mailarc_analytics/queries/graphs.py:727-749 | Exactly the ids whose shortest walk from the seed, arrows ignored, has at most depth hops. |
| `ReplyChain.DrawReplyChain` | components/mailarc-analytics/src/mailarc_analytics/queries/graphs.py:588-623 | The near messages are drawn with their first reading, and the given replies between them. |
| `ReplyChain.ChainDrawsTheNearReplies` | components/mailarc-analytics/src/mailarc_analytics/queries/graphs.py:621-623 | Exactly the given edges between two near ids are added. |
| `ChainReadings.KnownIsFirst` | components/mailarc-analytics/src/mailarc_analytics/queries/graphs.py:588-612 | What is known of a message is what the first path that names it says, in its place there. |
| `ChainReadings.NearMessageShown` | components/mailarc-analytics/src/mailarc_analytics/queries/graphs.py:613-620 | A near message new to the picture shows that subject and that importance, and nothing else. |
| `ChainReadings.LinesCarryNothing` | components/mailarc-analytics/src/mailarc_analytics/queries/graphs.py:621-623 | Every line runs from the answer to what it answers, without weight or name. |
| `Braces.BalancedAt` | components/mailarc-analytics/src/mailarc_analytics/nlq/chat.py:527-550 | Returns the text up to the closing brace the scan finds, or nothing when it never closes. |
| `Braces.ClosesExactlyOnGroups` | components/mailarc-analytics/src/mailarc_analytics/nlq/chat.py:527-550 | At an opening brace the scan closes after n characters exactly when those are a balanced group of plain characters, string literals with escapes, and groups. |
| `Braces.Braced` | components/mailarc-analytics/src/mailarc_analytics/nlq/chat.py:504-524 | Terminates with the greedy list of spans. |
| `Json.ObjectReturned` | components/mailarc-analytics/src/mailarc_analytics/nlq/chat.py:527-550 | For every object printed by the grammar of RFC 8259 (sections 2 to 7) the printed text is returned whole, whatever follows it. |
| `Json.SpansInOrder` | components/mailarc-analytics/src/mailarc_analytics/nlq/chat.py:504-524 | Spans come in order, do not overlap, and each is what the scan returns where it starts. |
| `Json.NoneMissed` | components/mailarc-analytics/src/mailarc_analytics/nlq/chat.py:504-524 | Every brace that closes starts a span or lies inside one. |
| `Json.ObjectFoundOrSwallowed` | components/mailarc-analytics/src/mailarc_analytics/nlq/chat.py:504-524 | A printed object anywhere in a text is a span exactly when no group opened before it swallows it. |
| `Json.ObjectAfterAsides` | components/mailarc-analytics/src/mailarc_analytics/nlq/chat.py:507-511 | After any brace-free prose and balanced asides the object is the next span. |
| `Json.IntentJson` | components/mailarc-analytics/src/mailarc_analytics/nlq/chat.py:459-501 | The first non-empty candidate that parses as an object, in the order whole answer, stripped answer, fence, spans. |
| `Json.NothingMeant` | components/mailarc-analytics/src/mailarc_analytics/nlq/chat.py:484-490 | Nothing is returned exactly when no non-empty candidate parses as an object. |
| `Json.FenceIsRead` | components/mailarc-analytics/src/mailarc_analytics/nlq/chat.py:493-501 | A fence is tried after the whole and the stripped answer and before any braces. |
| `Json.PrefacedObjectIsRead` | components/mailarc-analytics/src/mailarc_analytics/nlq/chat.py:504-511 | An object behind prose and asides is returned as soon as no earlier candidate parses as one. |
| `StatementLocks.LockedRunsAreSafe` | components/mailarc-analytics/src/mailarc_analytics/queries/rows.py:53-91 | In every interleaving of any threads and statements each thread decodes against its own session, one thread is inside a statement at a time, and a statement whose lock is free carries its declared value. |
| `StatementLocks.RaisingRestores` | components/mailarc-analytics/src/mailarc_analytics/queries/rows.py:142-166 | From an execution that raises two steps lead out: the declared value is back, the lock free. |
| `StatementLocks.LockStays` | components/mailarc-analytics/src/mailarc_analytics/queries/rows.py:96-103 | A statement keeps the lock it was first given. |
| `StatementLocks.NobodyIsStuck` | components/mailarc-analytics/src/mailarc_analytics/queries/rows.py:142-147 | A thread can go on, or waits for one that can. |
| `StatementLocks.UnlockedRunGoesWrong` | components/mailarc-analytics/src/mailarc_analytics/queries/rows.py:58-70 | Without the lock two threads reach a state in which one decodes against no session and will restore the other one's. |
| `Communities.FindCircles` | components/mailarc-analytics/src/mailarc_analytics/derived/communities.py:175-191 | The circles are the classes of the partition of at least the minimum size, under the digests of their members. |
| `Communities.CirclesDisjoint` | components/mailarc-analytics/src/mailarc_analytics/derived/communities.py:175-191 | Circles of one partition share no address. |
| `Communities.NumbersDoNotMatter` | components/mailarc-analytics/src/mailarc_analytics/derived/communities.py:180-182 | Two numberings of one partition give the same circles under the same keys. |
| `Communities.Place` | components/mailarc-analytics/src/mailarc_analytics/derived/communities.py:194-237 | Whatever the minimum share, a message goes to the circle of the largest sufficient share among those somebody on it belongs to, ties to the smallest id, or nowhere when there is none. |
| `CircleFindings.PlaceByCount` | components/mailarc-analytics/src/mailarc_analytics/derived/communities.py:194-237 | Counted out: of the circles with a member and at least the minimum part among the people, the one with most of them, ties to the smallest id. |
| `Communities.Placements` | components/mailarc-analytics/src/mailarc_analytics/derived/communities.py:194-237 | Every message stands under its place with its rounded share and under no other circle. |
| `CircleFindings.StandsAtItsPart` | components/mailarc-analytics/src/mailarc_analytics/derived/communities.py:194-237 | The share of a placed message is the rounded part of its people who are members. |
| `Communities.OneCircleEach` | components/mailarc-analytics/src/mailarc_analytics/derived/communities.py:194-237 | No message circulates in two circles. |
| `Communities.BuildCommunities` | components/mailarc-analytics/src/mailarc_analytics/derived/communities.py:66-114 | The circles in the order of their keys, each with its ranked members, its messages, its name and the dates of its mail. |
| `CircleFindings.CirclesRead` | components/mailarc-analytics/src/mailarc_analytics/derived/communities.py:95-107 | Every circle is one of the partition's under its digest; members carry their ranks, zero without one; first and last seen are the ends of its dated mail; keys increase. |
| `CircleFindings.AllCirclesRead` | components/mailarc-analytics/src/mailarc_analytics/derived/communities.py:95-107 | And none of the partition's circles of the minimum size is missing. |
| `Communities.BuiltIgnoresNumbers` | components/mailarc-analytics/src/mailarc_analytics/derived/communities.py:66-114 | Two numberings of one partition, and the messages in any order, give the same findings. |
| `Communities.PositiveMinimumIsNeeded` | components/mailarc-analytics/src/mailarc_analytics/derived/communities.py:210-215 | Walking from the participants gives the place that comparing the shares of all circles gives, for all messages and circles, exactly when the minimum share is positive. |
| `Suggestions.Suggest` | components/mailarc-analytics/src/mailarc_analytics/derived/suggestions.py:130-158 | A row for a tag and a message exactly where some group argues, carrying the strongest case. |
| `Suggestions.OfferIsMade` | components/mailarc-analytics/src/mailarc_analytics/derived/suggestions.py:187-220 | Every offer is made by a group that argues: 0.9, 0.7 or 0.5 by its kind, times the part of it that wears the tag, rounded. |
| `Suggestions.NoBetterCase` | components/mailarc-analytics/src/mailarc_analytics/derived/suggestions.py:212-231 | No group that argues scores more, and none as much that is worth more. |
| `Suggestions.ThreadBeatsCircle` | components/mailarc-analytics/src/mailarc_analytics/derived/suggestions.py:48-55 | Of a thread and a circle of the same two messages the thread is offered, at 0.45. |
| `Suggestions.LetArgue` | components/mailarc-analytics/src/mailarc_analytics/derived/suggestions.py:187-220 | One group's case replaces a standing one only when it is stronger, on exactly its untagged members. |
| `Suggestions.OrderDoesNotMatter` | components/mailarc-analytics/src/mailarc_analytics/derived/suggestions.py:195-201 | The order and repetition of the groups change nothing. |
| `Suggestions.OffersAreBounded` | components/mailarc-analytics/src/mailarc_analytics/derived/suggestions.py:48-72 | No offer scores above its kind's weight or names a message that wears the tag. |
| `Suggestions.CircleNeverAutoAccepts` | components/mailarc-analytics/src/mailarc_analytics/derived/suggestions.py:60-66 | A message only circles argue for stays below any threshold above a circle's weight. |
| `Paging.Paged` | components/mailarc-analytics/src/mailarc_analytics/derived/reader.py:380-406 | Terminates with exactly the first ceiling rows that have an id, no gap and no repeat. |
| `Paging.ReadsEveryIdentifiedRow` | components/mailarc-analytics/src/mailarc_analytics/derived/reader.py:380-406 | The uncapped read is complete exactly when every row has an id. |
| `Paging.ReadsCoverTheSame` | components/mailarc-analytics/src/mailarc_analytics/derived/reader.py:158-167 | The property read and the relation read cover the same messages under any ceiling. |
| `Paging.Batched` | components/mailarc-analytics/src/mailarc_analytics/derived/reader.py:409-420 | The chunks are the items in order, all but the last of full size. |

## Left out

- Graph driver, query builder, compiled Cypher and its regular expressions, and the procedures of the store: foreign code. A statement is modelled by what it matches and writes.
- A store that already holds two edges of one type between the same ends: an edge is known by its type and ends here, and both leave with the same deletion.
- Imports that run while a rebuild does: ground truth stands still during a run.
- Auto-accept (`app/derive.py`), which writes memberships after the rebuild: it is off by default and belongs to another component.
- `automation_score`, keyword counting, importance scoring, a template's text, log lines and the counters copied into the job row: they would add members without depth.
- The two expressions that strip a reasoning block and a code fence, and `json.loads`: parameters of `Json.IntentJson`.
- Lone surrogates in a JSON text: characters are Unicode scalar values.
- Natural-language date and name resolution, HTTP adapters, the job queue, the import engine and the pages.
- SHA-256 collisions, floating-point rounding, clocks and time zones.
- A thread that re-enters `rows_of` with the statement it is already running: the program's lock is re-entrant for it, nothing does it, and the interleavings leave it out. So is the removal of a lock together with its statement.
- The sort at the end of `components`: the lists are proved to be in that order already.
- Topics.BuildTopics: leaves keys, names, dates and rounding to `TopicReports.ReportTopics`, the other half of the program's one function.
- Communities.BuildCommunities: how a circle is named is a parameter, a function of its members and their ranks.
