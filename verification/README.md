# A verified model of the stress-budgeted bicycle router

The program plans bicycle routes. It reads OpenStreetMap ways, cuts them at
junctions into directed edges, loads those into a compact graph, prices every
edge and turn by how stressful it is for a given rider, and searches for the
cheapest route that spends no more than the rider's *stress budget*: the
distance above the rider's comfort threshold. This project models that core and
proves what it is for.

The search loops, the heap, the pooled workspace, union-find, offset building,
way cutting, alternatives and the row writer are methods over arrays, sequences
and maps that change in place, as in the original. Each is proved against a
specification written without them, and the functions a specification is made of
have laws of their own: what they measure, how they add up and what makes them
rise.

**How the search is specified.** `Walks` defines routes, what they cost and what
they spend, with no mention of states, buckets or queues. `Search.SearchSpec`
says what an outcome means in those terms. The search carries a ghost `Run`
(module `SearchInvariant`) in which every state holds the walk its predecessor
chain spells out; the arrays are kept equal to functions of that run, and
everything that makes the answer right is proved about runs. Two spend rules
matter. `Fits` rounds every over-threshold edge up to whole buckets and holds one
bucket back: what lengths alone can promise. `Unrivalled` counts metres as they
are: a route within the budget that no way onto any of its edges outspends at the
same cost or less. The answer is no dearer than a route that meets either.

**Main results.**

- A found route is a permitted walk whose cost, length, spend and expansion
  count are its own; it never exceeds the budget or the expansion cap
  (`Search.Search`). With a consistent estimate it is no dearer than any
  permitted route that fits, and with one that overshoots by at most eps a step
  it is at most eps a step of that route dearer; "unroutable" means none fits.
  All hold from any contents of a pooled workspace, whose `usedM` is never
  cleared.
- The search counts what is really spent (`ExactBudget`, `TrueSpend`). Rounding
  only decides which labels compete: with a consistent estimate the answer is no
  dearer than any unrivalled route, and the cheapest route, when it is the only
  cheapest way onto each of its edges and within the budget, is the answer
  however badly its lengths round. Under an estimate that overshoots by eps a step
  both hold with eps a step to spare.
- What bucketing loses, exactly (`ServedLengths`): a list of over-threshold
  lengths is served on every request whose route has it if and only if the
  lengths, each rounded up to whole buckets, leave one bucket over. The same
  holds of just the requests the route handler makes, at the safety model's own
  prices. So the promise of "at most one bucket's width" is kept for routes
  with at most one over-threshold edge and broken beyond: the loss is up to one
  bucket an edge.
- When no permitted edge is over the threshold, as with a stress budget of
  zero, the answer is the exact minimum. With a budget, the quantised sandwich
  and "a budget never hurts" follow (`SearchResults`).
- Alternatives (`Alternatives`, `Offers`): each is found under exactly the
  penalties of those before it, is sound at its true cost and leaves every earlier
  one somewhere; every candidate found is offered or is too dear, without length
  or mostly on the streets of one that is.
- Guidance and ties (`Guidance`, `TieOrder`): for any budget, lengths and
  buckets, guided and unguided searches find a request routable alike and at
  the same cost, unless their runs settled some state at one cost with
  different spends. The exception is needed: two runs of one request that
  differ only in which of two equally cheap entries they pop first can end with
  a route and without.
- The expansion cap (`ExpansionCap`): without a threshold it is harmless on
  every graph of m edges if and only if it is at least m.
- Ingesting, storing, loading and searching compose (`Pipeline`): one method
  takes raw ways to an answer that, with lengths for costs, is the length of a
  shortest journey over those ways to the precision of the stored lengths, or
  that there is none.
- Drawing (`Drawing`): every edge is emitted with the points of its run in the
  order they are ridden past, so the shapes of any route over imported tables
  join end to end, and their line leads from its start to its goal and gives every
  edge's shape back when sliced. The segments shown are cut from the route's
  edges, each as long as its own edges and of their character
  (`Geometry.BuildSegments`).
- Prices (`Prices`, `Turns`): a metre of a street that is in no respect worse
  never costs more; a movement turns left or right exactly by its change of
  bearing, and left is dearer than right, and right than straight on, at a
  junction crossed alike.

**Where the source disagrees with itself, the code is followed.**

- `internal/routing/search.go:43-44` says a zero budget disables tracking and
  leaves ordinary Dijkstra. The code then forbids every over-threshold edge of
  positive length. `SearchResults.ZeroBudgetIsNotDijkstra` is a street on which
  the two differ; `SearchResults.ZeroBudgetMatchesDijkstra` says exactly when
  they do not.
- `internal/routing/search.go:126-127` promises one bucket's width. With a budget
  of 20 in buckets of 10, `ServedLengths.RefusesFrugalRoute` misses a route that
  spends 4; `ServedLengths.ServedExactlyWhenCeilingsFit` says exactly which
  lengths are never missed.
- `internal/routing/search.go:209-211` reports a hit expansion cap as
  `ErrUnroutable`, which line 16 says means that no path exists. The model keeps
  it apart as `CapHit`. `ExpansionCap.CappedDespiteRoute` hits a cap of one on a
  route of two streets; `ExpansionCap.CapHarmlessExactlyWhenItCoversEdges` says
  when no search without a threshold does.
- `internal/routing/search.go:103-111` takes the estimate to be consistent
  because no edge is shorter than the straight line. Lengths are stored with
  three decimals (`internal/osm/ingest.go:110`), so a straight road of 10.0004 m
  is stored below its straight line: `Pipeline.StoredStraightRoadFallsShort`.
  `Pipeline.LengthOnlyIsConsistentExactly` gives the exact condition, and
  `Pipeline.ImportNearlyCoversDistance` with
  `Safety.LengthFloorIsNearlyConsistent` shows that the estimate is off by half
  a millimetre a step at most, which the search's specification accounts for.
- `internal/routing/alternatives.go:71` stops at a candidate that is too dear
  because "every later attempt will be worse still".
  `LaterAttempts.LaterAttemptIsBetter` runs into one of 17 beside a primary of
  10 when the next attempt would find a distinct one of 12. What never falls
  from attempt to attempt is the best penalised cost
  (`LaterAttempts.PenalisedOptimumRises`).
- `internal/routing/alternatives.go:46` says edges of accepted routes are
  penalised. The code penalises rejected candidates too, and so does
  `Alternatives.PenalisedBy`.
- `docs/safety-model.md:144-148` gives the profiles thresholds 1, 2 and 3; the
  code has 2, 3 and 4 (`internal/safety/profile.go:48-82`).

**Conventions.** Lengths, costs and spends are exact reals. Straight-line
distance is an abstract metric. Cost, turn, filter and threshold functions are
parameters. A workspace taken from the pool is a parameter that may hold
anything. A Go slice with spare capacity is an array of which a prefix is used.

## Model

| member | source | states |
|---|---|---|
| StateQueue.RootIsLeast | internal/routing/search.go:360-370 | in a heap, however ordered otherwise, the root is a minimum of all items |
| StateQueue.Queue.Push | internal/routing/search.go:354-358 | keeps heap order; the items afterwards are exactly the old ones and the new one |
| StateQueue.Queue.Pop | internal/routing/search.go:360-370 | returns an item of least priority, keeps heap order and exactly the other items |
| StateQueue.Queue.Up | internal/routing/search.go:372-383 | moving a hole upwards restores heap order without losing or duplicating an item |
| StateQueue.Queue.Down | internal/routing/search.go:385-404 | the same downwards, past the smaller child |
| StateSpace.BudgetBuckets | internal/routing/search.go:264-281 | between 1 and 16 buckets that together are exactly the budget; width 0 exactly when there is no threshold or no budget |
| StateSpace.BucketOf | internal/routing/search.go:286-296 | a bucket in range that starts at or below the spend, and contains it unless it is the last |
| StateSpace.BucketAdvance | internal/routing/search.go:230-240 | from any spend in bucket b, an edge of k whole buckets is affordable and lands in bucket b+k or below, also for a spend clamped into the last bucket |
| Search.StateIndexInverts | internal/routing/search.go:283-284 | edge and bucket are recovered from their state |
| Search.StateIndexFits32 | internal/routing/search.go:283 | the 32-bit index equals the true one for all edges and buckets if and only if there are at most 2^31 states |
| Workspaces.ResetPrefix | internal/routing/workspace.go:44-58 | resets the prefix in use and leaves the rest of the pooled array as it was |
| Workspaces.Workspace.Reset | internal/routing/workspace.go:44-60 | nothing reached, settled, queued or memoised, whatever was there before; usedM untouched |
| Workspaces.GetWorkspace | internal/routing/workspace.go:30-62 | any pooled contents and capacities give a workspace that is large enough and clean |
| Search.Heuristic | internal/routing/search.go:156-170 | a memoised estimate is always the estimate for this goal |
| Search.SeedEdge | internal/routing/search.go:177-197 | the arrays go from one run to the run in which this edge has been relaxed from the start, with no turn |
| Search.RelaxEdge | internal/routing/search.go:224-257 | the same for an edge out of a settled state: filter, exact budget check, bucket, done check and comparison together are one relaxation |
| SearchInvariant.RelaxInv | internal/routing/search.go:224-257 | relaxing keeps the whole search invariant: labels are genuine walks within budget, predecessors are settled, queue entries are never optimistic and every open label has an exact one |
| SearchInvariant.SettledTargetIsCheaper | internal/routing/search.go:241-243 | under a consistent estimate a state settled earlier is no dearer than a walk that reaches it later, so skipping it loses nothing |
| SearchInvariant.RelaxReachesTarget | internal/routing/search.go:224-257 | after relaxing, the target holds a label no dearer than the relaxed walk, whichever branch was taken |
| SearchInvariant.DiscardInv | internal/routing/search.go:200-205 | dropping a stale queue entry keeps the invariant: lazy deletion is sound |
| SearchInvariant.SettleInv | internal/routing/search.go:200-219 | settling the least open entry keeps the invariant and starts its expansion |
| SearchInvariant.DominationStep | internal/routing/search.go:224-257 | a settled label that dominates a contender's prefix leads to a label that dominates the prefix one edge longer; a contender is a fitting walk, or one within the budget in true metres and outspent onto none of its edges by a walk as cheap (eps a step included) |
| SearchInvariant.DominatorSpendsNoMore | internal/routing/search.go:230-237 | a label as cheap as such a walk has spent no more metres |
| SearchInvariant.DominatorAffords | internal/routing/search.go:230-237 | so it can take the next edge: the budget check is in exact metres, and rounding never refuses a contender |
| SearchInvariant.Frontier | internal/routing/search.go:199-259 | every contender is dominated at its end by a settled label, or at some prefix by a label still queued |
| SearchInvariant.PrefixIsOptimistic | internal/routing/search.go:108-111 | under an estimate that overshoots by at most eps a step, priorities fall along a walk by at most eps a step; under a consistent one never |
| SearchInvariant.ExhaustedMeansUnroutable | internal/routing/search.go:199-262 | an empty queue proves that no contender reaches the goal: no fitting walk whatever edges and turns cost, and under a nearly consistent estimate no unrivalled one, however its lengths round |
| SearchInvariant.PoppedGoalIsCheapest | internal/routing/search.go:213-219 | the first goal state popped costs no more than any contender that reaches the goal, but for eps a step of that walk if the estimate overshoots by eps a step |
| SearchInvariant.SettledKeepsVouched | internal/routing/search.go:200-219 | settling a least entry keeps this: every settled label is within eps a step of each contender for its edge, or another settled label dominates that contender |
| Search.PopAndSettle | internal/routing/search.go:200-206 | takes a least entry, settles its state unless it was, and shortens the queue by one |
| Search.Expand | internal/routing/search.go:221-258 | relaxing every edge out of the settled state re-establishes the invariant and settles nothing else |
| Search.SettledCount | internal/routing/search.go:199-211 | each fresh pop settles one more state, and never more than all of them: the loop's measure |
| Search.LoopStep | internal/routing/search.go:199-259 | one turn of the loop: an outcome, or one state more settled, or a stale entry dropped, and the invariant kept |
| Search.Drive | internal/routing/search.go:172-262 | the loop terminates, and its outcome is a genuine answer, an exhausted search, or a cap hit with exactly as many states settled as allowed |
| Search.ChainBack | internal/routing/search.go:313-316 | the predecessor chain ends, and read backwards is the walk the state stands for |
| Search.BuildPath | internal/routing/search.go:309-329 | the path's edges are that walk, in order, and its length is theirs |
| Search.AnswersMeanSpec | internal/routing/search.go:91-128 | what the loop establishes about states and buckets means the specification about routes alone |
| Search.AnswersAreExact | internal/routing/search.go:230-237 | and that the answer is no dearer than any unrivalled route, but for eps a step, whenever there is one |
| Search.Search | internal/routing/search.go:128-262 | the specification for every request and every pooled workspace: bad indices, start equal to goal, soundness with every number exact, optimality under a consistent estimate and within eps a step under one that overshoots by eps a step, meaning of unroutable and of the cap; and a route no dearer than any unrivalled one, on the same terms, whenever there is one |
| TrueSpend.OnlyCheapestIsTheAnswer | internal/routing/search.go:113-127 | when the cheapest permitted route is the only cheapest way onto each of its edges, by more than eps a step, and its true spend is within the budget, the answer has its cost but for eps a step |
| TrueSpend.TwoStretchesAreFound | internal/routing/search.go:230-237 | the search finds a street of two stretches of 150 and 210 under a budget of 400 in four buckets, although they round up to five |
| SearchResults.UnbudgetedIsOptimal | internal/routing/search.go:91-128 | when no permitted edge is over the threshold, a found route costs the minimum over all permitted routes, and unroutable means there is none |
| SearchResults.DijkstraIsConsistent | internal/routing/search.go:153-156 | with guidance off, non-negative steps are all that optimality needs |
| SearchResults.AStarMatchesDijkstra | internal/routing/astar_test.go:53-85 | guided and unguided searches find the same requests routable, at the same cost |
| SearchResults.QuantisedFits | internal/routing/search.go:264-296 | on whole-bucket lengths a route fits if and only if it leaves one bucket of the budget unspent |
| SearchResults.QuantisedSandwich | internal/routing/search.go:230-257 | on whole-bucket lengths the answer is within the full budget, no route that leaves a bucket unspent is cheaper, and unroutable means there is no such route |
| SearchResults.QuantisedIsExact | internal/routing/search.go:264-296 | on whole-bucket lengths, when the guided search finds a route below the full budget the unguided one finds one no dearer, and equally dear if below the full budget too |
| SearchResults.BudgetNeverHurts | internal/routing/search.go:39-46 | for any lengths and buckets the answer is no dearer than the best route with no over-threshold edge, and exists whenever one does |
| SearchResults.ZeroBudgetIsHardFilter | internal/routing/budget_test.go:49-64 | with budget 0 and positive lengths the answer is the cheapest route with no over-threshold edge, and unroutable means every permitted route has one |
| SearchResults.ZeroBudgetMatchesDijkstra | internal/routing/search.go:43-44 | with budget 0 and positive lengths the answer costs what it costs with the threshold removed if and only if some cheapest permitted route has no over-threshold edge |
| SearchResults.ZeroBudgetIsNotDijkstra | internal/routing/search.go:43-44 | on a single street over the threshold the search ends unroutable with budget 0 and finds the street with the threshold removed |
| BucketSlack.OneBucketAnEdge | internal/routing/search.go:113-127 | for any lengths, a route that leaves one bucket unspent for each over-threshold edge fits |
| BucketSlack.OneBucketForOneEdge | internal/routing/search.go:113-127 | so a route with at most one over-threshold edge that stays one bucket below the budget is never missed |
| BaitTrap.JunctionLabel | internal/routing/search.go:241-257 | on a baited course, every settled label past a bait's junction costs and spends what it does by way of the bait: at each merge the cheaper label survives |
| BaitTrap.CutOff | internal/routing/search.go:230-236 | so no label gets past the stretch at which the last bait overruns the budget |
| ServedLengths.TrapRefuses | internal/routing/search.go:113-127 | a request that offers a route with just these over-threshold lengths, and on which no outcome is a route |
| ServedLengths.ServedExactlyWhenCeilingsFit | internal/routing/search.go:113-127 | a list of over-threshold lengths is served on every request whose route has it, if and only if its ceilings in buckets sum to less than the number of buckets |
| ServedLengths.HandlerServesExactlyWhenCeilingsFit | internal/httpapi/route_handler.go:232-239 | so it is among the requests the route handler makes for a rider with a budget and a threshold, at the safety model's prices and four buckets, for lists of up to 300000 lengths |
| ServedLengths.OneBucketClaimFails | internal/routing/search.go:126-127 | a route spending 4 of 20 in buckets of 10 can be missed |
| ServedLengths.RefusesFrugalRoute | internal/routing/search.go:126-127 | the search itself ends unroutable on such a request |
| ExpansionCap.ShortCapIsHit | internal/routing/search.go:208-211 | on a street of m edges every search under a lower cap ends at the cap, although the street is a route |
| ExpansionCap.CapHarmlessExactlyWhenItCoversEdges | internal/routing/search.go:136-139 | without a threshold no search on any graph of m edges is capped, if and only if the cap is at least m |
| ExpansionCap.CappedDespiteRoute | internal/routing/search.go:208-211 | the search itself ends at a cap of one on a street of two edges |
| Outcomes.SomeOutcome | internal/routing/search.go:199-262 | every valid request has an outcome that meets the specification and is explained by a run |
| Guidance.Reaches | internal/routing/search.go:107-111 | what one of two differently guided runs has labelled the other has labelled as cheaply, unless something no dearer is still open there |
| Guidance.Agrees | internal/routing/search.go:107-111 | unless a tie was broken, states settled in both runs were settled at the same cost and spend |
| Guidance.BudgetedSearchesAgree | internal/routing/astar_test.go:131-181 | under any budget, lengths and buckets, guided and unguided searches find a request routable alike and at the same cost, or their two runs settled some state at one cost with different spends |
| Guidance.BudgetedSearchesAgreeWithoutTies | internal/routing/astar_test.go:131-181 | so they agree outright where affordable walks onto one edge that cost the same, in one bucket, have spent the same |
| TieOrder.TieDecides | internal/routing/search.go:252-257 | a request, meeting every condition of that theorem, on which one run finds a route and another ends unroutable: the exception cannot be left out |
| Guidance.SearchBothWays | internal/routing/astar_test.go:131-181 | the two searches themselves, for any start: one answer, or the tie shown in their runs |
| Alternatives.PenaltyIsBounded | internal/routing/alternatives.go:50-58 | a penalised route costs between once and twice its true cost |
| Alternatives.PenaltyKeepsConsistency | internal/routing/alternatives.go:50-58 | doubling any set of edges keeps the estimate consistent |
| Alternatives.UsedEdges.MarkUsed | internal/routing/alternatives.go:88-102 | adds exactly the route's edges and every reverse twin in the graph, though only edges leaving the far end are looked at |
| Alternatives.IsDistinct | internal/routing/alternatives.go:104-129 | true exactly when the candidate has length and shares at most 70% of it with each accepted route |
| Offers.SharedOfConcat | internal/routing/alternatives.go:118-123 | the length a candidate shares adds up along it |
| Offers.SharedByAll | internal/routing/alternatives.go:118-123 | a candidate all of whose edges are on the other route shares all its length |
| Offers.SharedByNone | internal/routing/alternatives.go:118-123 | one none of whose edges is shares nothing |
| Alternatives.ScorePath | internal/routing/alternatives.go:131-141 | the true cost, in the same terms as the search's |
| Alternatives.RescoredIsSound | internal/routing/alternatives.go:60-68 | a route found under penalties and rescored is sound under the real options, budget included |
| Alternatives.CandidateIsWithinTwice | internal/routing/alternatives.go:60-72 | under any budget a candidate costs at most twice a primary that fits, and at least the primary if it fits itself |
| Alternatives.ChosenAreWorthOffering | internal/routing/alternatives.go:60-84 | by induction over attempts: every kept route is sound, at most 1.6 times the primary and distinct from all kept before it |
| Alternatives.Hunt | internal/routing/alternatives.go:60-84 | the attempts tried are searches under exactly the penalties of their predecessors, the routes kept are exactly those that qualify, and the loop stops only for one of its reasons |
| Alternatives.Alternatives | internal/routing/alternatives.go:36-86 | the primary answers the search; no extras are hunted when none are wanted; otherwise the result is exactly the hunt's |
| Alternatives.OfferedAreWorthOffering | internal/routing/alternatives.go:25-36 | whatever is offered: the primary first, at most n extras, each of them worth offering at its true cost |
| Offers.OfferedIsNew | internal/routing/alternatives.go:73-83 | every route offered runs somewhere on an edge of no given earlier one, so no two are the same route |
| Offers.EveryCandidateIsOfferedOrNotWorthIt | internal/routing/alternatives.go:60-84 | every candidate tried is offered, or it is too dear, has no length or shares over 70% with a route that is offered |
| Offers.PenalisedExactly | internal/routing/alternatives.go:88-102 | the edges penalised are exactly those the primary or a candidate tried runs on, in either direction |
| Offers.RidingBackPaysTwice | internal/routing/alternatives.go:50-58 | riding a penalised route, or riding it back on the reverse of its edges, pays for every edge twice and for turns once |
| Offers.ReverseComesBack | internal/graph/graph.go:326-330 | one edge is the reverse of another exactly when riding both ends where it began |
| LaterAttempts.PenalisedOptimumRises | internal/routing/alternatives.go:70-72 | the best penalised cost never falls as penalties are added |
| LaterAttempts.LaterAttemptIsBetter | internal/routing/alternatives.go:70-72 | three searches on one street plan: a primary of 10, an attempt of 17 that ends the hunt, and a later one of 12, distinct and cheap enough to offer |
| Alternatives.FilteredAreWithinTwice | internal/routing/alternatives.go:60-72 | when no permitted edge is over the threshold, every candidate tried costs between once and twice the primary |
| Safety.ZeroBudgetAlternatives | internal/httpapi/route_handler.go:233-239 | in particular for the options the route handler builds for a rider with no stress budget |
| Safety.Validate | internal/safety/profile.go:102-128 | accepts exactly the profiles within all the stated ranges |
| Safety.BuiltInsAreValid | internal/safety/profile.go:48-98 | every built-in profile is valid |
| Safety.GradePenaltyNonNegative | internal/safety/cost.go:118-139 | no gradient is rewarded |
| Safety.MultiplierFloor | internal/safety/cost.go:38-77 | for non-negative weights a metre never counts for less than a metre, whatever the attributes |
| Safety.EdgeCostFloor | internal/safety/cost.go:79-82 | an edge costs at least its length |
| Prices.WorseIsDearer | internal/safety/cost.go:38-77 | a metre of a street that is no more stressful, crash-prone, rough, steep, hazardous or dark costs no more |
| Prices.StressRises | internal/safety/cost.go:42-56 | stress never gets cheaper from level 1 to 4, and passing the rider's threshold adds the whole surcharge |
| Prices.ThresholdHelps | internal/safety/cost.go:54-56 | a higher threshold makes no level dearer |
| Prices.GradeIsAsymmetric | internal/safety/cost.go:118-139 | a climb is worse than the descent of equal gradient below 8 percent, better from 8 to 13, and no better from 13 on |
| Prices.UnweightedIsIgnored | internal/safety/cost.go:38-77 | each weight governs its own attribute: streets that differ only in what has no weight cost the same a metre |
| Prices.OverIsCharged | internal/safety/cost.go:52-56 | a street over the threshold costs at least the surcharge on top of its length |
| Prices.PerfectCostsItsLength | internal/safety/cost.go:31-37 | a calm, paved, level street without crashes, hazards or darkness costs its length |
| Prices.ShortestMindsNothing | internal/safety/profile.go:75-82 | the shortest profile prices streets at their length and turns at nothing |
| Prices.ArterialInNumbers | internal/safety/cost.go:38-77 | what a metre of one loose, steep, dangerous arterial costs, in numbers |
| Safety.TurnCostNonNegative | internal/safety/turn.go:53-100 | no movement is rewarded |
| Turns.TurnIsByBearing | internal/safety/turn.go:31-51 | off reverse twins a movement is a right turn exactly when its bearing, some full circles on, rises by 35 to 180 degrees, and a left turn exactly when it falls by as much |
| Turns.LeftIsDearest | internal/safety/turn.go:53-100 | at one junction and under equal separation left costs more than right and right more than straight on, unless turns have no weight |
| Turns.ExposureRises | internal/safety/turn.go:78-83 | crossing a busier street makes a movement dearer |
| Turns.ControlLessens | internal/safety/turn.go:85-90 | any recognised control makes it cheaper than none |
| Turns.SeparationLessens | internal/safety/turn.go:92-97 | and so does staying on separated infrastructure throughout |
| Turns.CompareTurns | internal/safety/turn.go:53-100 | of two movements anywhere, the one no more dangerous in kind and no more exposed costs no more, and less if it is less in either |
| Turns.DoublingBackIsDearest | internal/safety/turn.go:64-66 | doubling back costs more than any other movement anywhere |
| Turns.TurnsInNumbers | internal/safety/turn.go:62-100 | one junction in numbers: 24 to the left, 6 to the right, 2.4 straight on |
| Safety.LengthFloorIsConsistent | internal/routing/search.go:100-111 | any costs at least the lengths, with turns not negative, make the straight-line estimate consistent |
| Safety.LengthFloorIsNearlyConsistent | internal/routing/search.go:100-111 | when lengths fall short of the straight line by at most eps, the estimate overshoots by at most eps a step |
| Safety.ModelIsConsistent | internal/safety/cost.go:38-82 | the safety model's own prices do, for every profile with no negative weight |
| Safety.ModelIsNearlyConsistent | internal/safety/cost.go:38-82 | and they overshoot by at most eps a step when lengths fall short by eps |
| Safety.ModelPricesNonNegative | internal/safety/turn.go:53-100 | nor is any price negative, which bounds the alternatives |
| Safety.ZeroBudgetFilter | internal/safety/cost.go:84-103 | with no budget the filter lets through exactly the edges within the threshold |
| UnionFinds.HalvingKeepsForest | internal/graph/components.go:125-132 | path halving keeps ranks rising along parents and every representative |
| UnionFinds.HangingKeepsForest | internal/graph/components.go:135-147 | hanging one root under another merges exactly their two sets |
| UnionFinds.HangingKeepsWeight | internal/graph/components.go:135-147 | a root of rank r still stands for at least 2^r nodes |
| UnionFinds.RankFitsByte | internal/graph/components.go:112-115 | with fewer than 2^31 nodes every rank is below 31 |
| UnionFinds.UnionFind.Find | internal/graph/components.go:125-132 | terminates at the representative and changes no set |
| UnionFinds.UnionFind.Union | internal/graph/components.go:135-147 | puts exactly the two sets together |
| Components.UniteKept | internal/graph/components.go:46-54 | afterwards two nodes share a root if and only if a chain of kept edges joins them |
| Components.RootsCountComponents | internal/graph/components.go:55-60 | there are as many roots as components |
| ComponentStats.ComponentsWhere | internal/graph/components.go:44-79 | the number of components, nodes joined to no other, the size and share of a biggest component and the ten biggest sizes, in order |
| ComponentStats.ListedAreSizes | internal/graph/components.go:55-67 | the sizes listed are those of the components, each as often as there are components of that size, and sum to the number of nodes |
| ComponentStats.FirstIsLargest | internal/graph/components.go:68-73 | sorted downwards, the first is the size of a biggest component |
| Components.CoarseningIsMonotone | internal/graph/components.go:29-42 | keeping more edges never adds a component nor shrinks the biggest |
| Components.UpToLTSIsAllowed | internal/graph/components.go:29-42 | the edges counted up to a level are exactly those the hard filter leaves a rider with that threshold |
| Components.ToleranceJoins | internal/graph/components.go:29-42 | so a rider who accepts more stress has no more components and no smaller biggest one |
| Components.LargestComponent | internal/graph/components.go:81-108 | the mask marks one component, and none is bigger |
| Components.RoutesStayInComponent | internal/graph/components.go:81-86 | a successful search joins two nodes of one component, with equal mask values |
| Components.ZeroBudgetStaysComfortable | internal/graph/components.go:29-42 | with no budget every node of a route lies in the start's component of the rider's own network |
| GraphLoad.PrefixSumsAreOffsets | internal/graph/load.go:168-186 | on sorted rows prefix sums of counts delimit exactly the rows of each source |
| GraphLoad.Columns.BuildOffsets | internal/graph/load.go:168-186 | succeeds if and only if rows are sorted, and then the offsets are exact |
| GraphLoad.Columns.ComputeNodeMaxLTS | internal/graph/graph.go:264-280 | each node holds the maximum over the edges touching it, 0 for none |
| GraphLoad.Columns.BuildDBIndex | internal/graph/graph.go:292-324 | refuses exactly the sparse id spaces; otherwise lookup finds the last row of each id and nothing else; a negative id beside others is out of range |
| GraphLoad.DistinctIdsInvert | internal/graph/graph.go:282-324 | with distinct ids lookup and id column are inverse, and other ids are rejected |
| RoadGraph.Graph.OutEdges | internal/graph/graph.go:253-259 | the range holds exactly the edges leaving the node |
| OsmBuild.SaturatedStep | internal/osm/reader.go:79-91 | counting one more way keeps: 2 for ends of ways and repeated nodes, the exact count otherwise |
| OsmBuild.ScanWays | internal/osm/reader.go:64-98 | keeps every way of at least two nodes, in order, with saturated counts |
| OsmBuild.KeptExactly | internal/osm/reader.go:73-77 | a way is kept if and only if it is in the file and has two nodes |
| OsmBuild.NonJunctionOccursOnce | internal/osm/reader.go:36-38 | a node that is no split point occurs once, in one way |
| GraphBuild.Builder.Intern | internal/osm/build.go:59-76 | ids are dense, unique and stable, and given exactly to nodes of the extract |
| GraphBuild.Builder.AddSegment | internal/osm/build.go:102-177 | emits one edge a permitted direction with the run's ends, shape in the order driven, length and tags and the bearings of its shape, or counts exactly why not; every edge's shape runs from where its source node is to where its target is |
| GraphBuild.SegmentRoadsExactly | internal/osm/build.go:102-177 | a surviving run becomes one road each permitted direction, the first past its nodes in order, the other past them in reverse |
| Bearings.EndBearings | internal/osm/build.go:184-199 | from either end the bearing is measured to the nearest point that differs from the end point, if there is one |
| Bearings.BearingsAtTheEnds | internal/osm/build.go:184-199 | an edge leaves towards its second point and arrives from its last but one, unless that repeats the end |
| Bearings.RepeatsDoNotMatter | internal/osm/build.go:179-199 | repeating an end point changes neither bearing |
| Bearings.TwinBearings | internal/osm/build.go:162-175 | an edge and its twin measure their bearings between the same points, the other way round |
| GraphBuild.SurvivorsHaveBearings | internal/osm/build.go:134-139 | an edge that is emitted has two points that differ, so both its bearings are measured |
| GraphBuild.RunsAreExact | internal/osm/build.go:78-91 | the loop cuts a way into exactly the stretches between neighbouring cut points |
| GraphBuild.RunsTile | internal/osm/build.go:78-91 | the runs lie end to end from one end of the way to the other |
| GraphBuild.Build | internal/osm/build.go:44-101 | the edges emitted are those of all runs of all ways, in order, only cut points get an id, and when every way has a direction exactly the ends of emitted edges do |
| GraphBuild.PathCoversDistance | internal/osm/build.go:130-133 | a sum of hops is at least the straight line |
| Contraction.RunIsRoad | internal/osm/build.go:102-177 | every run with two different ends is an edge in each permitted direction, drawn past its points in that direction and as long as the stretch |
| Contraction.RoadIsRun | internal/osm/build.go:102-177 | and every edge is one |
| Contraction.DriveUnfolds | internal/osm/build.go:102-177 | every drive over emitted edges is a journey over the raw ways, of equal length |
| Contraction.JourneyFolds | internal/osm/build.go:78-91 | every journey from a cut point is followed by a drive that is never longer, turns inside a way and dropped loops included |
| Contraction.ScanCutsAtJunctions | internal/osm/reader.go:79-97 | the counts put cut points where contraction needs them |
| Contraction.PositiveHopsSuffice | internal/osm/build.go:134-139 | positive hop lengths imply the condition on runs |
| Contraction.ContractionPreservesDistance | internal/osm/build.go:44-101 | between cut points reachability and shortest distance are the same over raw ways and emitted edges |
| Pipeline.Ingest | internal/osm/build.go:44-101 | scanning then cutting emits exactly the extract's edges, cut at its junctions |
| Pipeline.LoadGraph | internal/graph/load.go:89-186 | the tables read in order of source node, with exact offsets |
| Pipeline.RowsAreInOrder | internal/graph/load.go:114-119 | edges numbered as they were emitted are read by source node, and by id among those of one node |
| Pipeline.Store | internal/osm/ingest.go:101-110 | every edge with its length to three decimals, or nothing exactly when some stored length is not positive |
| Pipeline.StoredIsClose | internal/osm/ingest.go:201-204 | a stored length is within half a millimetre, and never negative |
| Pipeline.BuildAndLoad | internal/osm/build.go:44-101 | from raw ways to a loaded graph that holds what the extract's edges stand for, to the stored precision, or nothing exactly when some edge is too short to store |
| Pipeline.RouteOverWays | internal/routing/search.go:84-89 | from raw ways to an answer: the distance between the two nodes over those ways to the stored precision, or that there is none |
| Pipeline.ImportNearlyCoversDistance | internal/routing/search.go:100-111 | a loaded edge falls short of the straight line between its nodes by half a millimetre at most |
| Pipeline.LengthOnlyIsConsistentExactly | internal/routing/search.go:107-111 | with lengths for costs the estimate is consistent for every goal if and only if no edge that another leads onto is shorter than its straight line |
| Pipeline.StoredStraightRoadFallsShort | internal/osm/ingest.go:110 | a straight road of 10.0004 metres is stored as 10, and the estimate towards its end is then not consistent |
| Pipeline.FoundIsShortestJourney | internal/routing/search.go:84-89 | a found length-only route is as long as some journey over the raw ways but for half a millimetre an edge, and no journey is shorter by more than a millimetre a hop |
| Pipeline.UnroutableMeansNoJourney | internal/routing/search.go:16-16 | when the router gives up, the raw ways offer no journey |
| Geometry.Assemble | internal/routing/geometry.go:63-101 | the line and offsets of the shapes, or the first edge without a shape |
| Geometry.SlicingRecovers | internal/routing/geometry.go:63-70 | slicing the line at its offsets gives back every non-empty shape |
| Geometry.OffsetsRise | internal/routing/geometry_test.go:91-108 | offsets start at 0, never go back and end at the last point |
| Drawing.EdgeIsDrawn | internal/osm/build.go:118-128 | the shape of every loaded edge runs from its source node to its target node |
| Drawing.WalkShapesJoin | internal/routing/geometry.go:63-73 | the shapes of any walk over imported tables join end to end: each starts where the one before it ended |
| Drawing.DrawWalk | internal/routing/geometry.go:63-101 | assembling a walk gives one line from its start to its end, and every edge's own shape back from the slice at its offsets |
| Geometry.FoldStep | internal/httpapi/route_handler.go:157-161 | extending the last run keeps the tiling, the length and where each edge is drawn |
| Geometry.AppendStep | internal/httpapi/route_handler.go:165-171 | starting a run does too |
| Geometry.CutFolded | internal/httpapi/route_handler.go:157-161 | extending the last run adds the edge, its length included, to that run and to no other |
| Geometry.CutAppended | internal/httpapi/route_handler.go:165-171 | starting a run leaves the others as they were |
| Geometry.ClassesFolded | internal/httpapi/route_handler.go:157-161 | and the totals by class, when no edge is degenerate |
| Geometry.BuildSegments | internal/httpapi/route_handler.go:134-178 | runs tile the line and neighbours differ; they are cut from consecutive stretches of edges, from the first that draws, and each is drawn as its own stretch is, has exactly its length and the character of every edge in it that draws; class totals equal the edges' |
| Journey.OverThresholdM | internal/safety/cost.go:105-116 | the same over-threshold distance that the search accounts for |
| Journey.Summarise | internal/safety/cost.go:198-233 | under every name exactly the length of the edges of that class; crash pressure, steep and hazardous distance are theirs, and climb less descent is the net rise |
| Journey.NamesAreLevels | internal/safety/cost.go:189-217 | each name reports the streets of its own level, and "unknown" those of every other |
| Journey.OneEdgeAdds | internal/safety/cost.go:219-233 | what one edge adds to each total |
| Journey.TotalOfConcat | internal/safety/cost.go:205-233 | and totals add up along a route |
| Journey.BreakdownsAddUp | internal/safety/cost.go:198-217 | each breakdown adds up to the route's length |
| Journey.AccountsStep | internal/httpapi/route_handler.go:396-399 | one more leg keeps a single connected trail whose length and spend are its own, within one budget a leg |
| Journey.PassesWaypoints | internal/httpapi/route_handler.go:381-387 | the journey passes every waypoint in order |
| Journey.RouteLegs | internal/httpapi/route_handler.go:387-402 | every leg answers its own search, totals are those of the concatenation, and the first failing leg fails the journey |
| Journey.LegsCost | internal/httpapi/route_handler.go:387-402 | a journey is reported to cost what its whole trail costs, less the turns at its waypoints |
| WalkSums.CostOfConcat | internal/routing/alternatives.go:131-141 | costs add up along a walk but for the turn between its parts |
| CopyText.CopyRow.Str | internal/osm/ingest.go:176-179 | appends one field holding exactly the string |
| CopyText.CopyRow.StrOrNull | internal/osm/ingest.go:181-189 | the empty string becomes NULL |
| CopyText.CopyRow.OptInt16 | internal/osm/ingest.go:206-212 | a missing number becomes NULL, another a text that reads back as it |
| CopyText.CopyRow.OptBool | internal/osm/ingest.go:214-225 | a missing truth value becomes NULL, another a text that reads back as it |
| CopyText.CopyRow.WriteEscaped | internal/osm/ingest.go:234-249 | appends the escaped text |
| CopyText.CopyRow.Finish | internal/osm/ingest.go:227-232 | decoding the finished row yields exactly the fields written |
| CopyText.RowRoundTrip | internal/osm/ingest.go:151-158 | decoding any encoded row gives back its fields, NULL apart from every string |
| CopyText.EncodingIsInjective | internal/osm/ingest.go:151-158 | different rows are written differently |
| CopyText.EscapedIsClean | internal/osm/ingest.go:155-158 | no raw tab, newline or carriage return inside a field |
| CopyText.DigitsSpell | internal/osm/ingest.go:196-199 | the digits written for a natural number read as that number |
| CopyText.IntReadsBack | internal/osm/ingest.go:196-199 | every integer reads back as itself, sign and all |

## Left out

- SearchResults.QuantisedSandwich: is about whole-bucket lengths; `ServedLengths` says what is lost on others.
- Guidance.BudgetedSearchesAgree: supposes that steps after the first cost something. Which of two equally cheap entries the heap pops first is left open, so nothing is said of which answer a particular heap gives when a tie is broken.
- ServedLengths.HandlerServesExactlyWhenCeilingsFit: lists of more than 300000 lengths, on whose requests the default cap on expansions might come first, are left out.
- ExpansionCap.CapHarmlessExactlyWhenItCoversEdges: with a threshold the cap is shown harmless from the number of states on, which is not claimed to be the least such cap.
- Geometry.BuildSegments: lengths before rounding; the tiling is for offsets that never go back, which is what `Assemble` produces.
- Journey.Summarise: totals before rounding; Score is not modelled.
- Pipeline.RouteOverWays: node coordinates are loaded as built; the text form they take in between keeps the seven decimals they are read with, and their float32 form in the loaded graph is not modelled.
- Floating point: float32 spends, lengths and memoised estimates, and rounding of reported numbers.
- 32-bit state indices wrap on graphs with more than 2^31 states; `Search.StateIndexFits32` gives the exact limit and the search is modelled below it.
- CopyText writes a floating-point number as the digits it is given; producing those digits is not modelled.
- The pool itself, context cancellation and which of several equally cheap routes is returned.
- The second check for missing ends (internal/osm/build.go:143-146) cannot fail and is not repeated.
- Great-circle distance, the formula for a bearing and tile trigonometry; tag parsing and the stress classification tables.
- Database access, tile download, HTTP handlers, authentication, hazards' refresh, saved routes and the web frontend.
