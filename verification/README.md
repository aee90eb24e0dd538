# tracefork, verified

A Dafny model of the hard core of tracefork: recording an agent's requests on a tape, forking the tape at chosen
steps, measuring which step caused an outcome, and the ordering, checkpoint and text protocols around that. The
statements are about every tape, every agent, every upstream, every run.

`dafny verify dfyconfig.toml` checks the whole project.

## The system, and how it is modelled

**Agents, matchers, upstreams** (`Tapes`). An agent is a deterministic machine: what it does next is a function of the
replies it has received, exceptions among them. An upstream may keep any state, so its reply is a function of all the
requests it has seen. A matcher is opaque and keeps one invariant: the fingerprint of what it stores for a request is
the live request's fingerprint.

**Fork, coalition and rebase** (`Transports`, `ForkEngine`, `ForkTheorems`, `RebaseTheorems`, `TransportLaws`). The
three transports are classes with the fields of the originals. Each request is proved to be one step of one pure
machine; a run is that machine driven by an agent, and the theorems are about its reachable states. `TransportLaws` says
what each request of each run gets in terms of the run alone, without the machine.

**The blame engine** (`ShapleyWalk`, `ShapleyRank`, `ShapleyRun`, `ShapleyBlocks`, `ShapleyEfficiency`,
`ShapleyNoise`, `ShapleyFormula`, `Budget`, `Spend`, `BenjaminiHochberg`, `Intervals`, `Judge`, with `Sorting` and `Seqs`). A
flip rate is a real, or `None` when all its trials were undefined. Every estimate is a fresh one, so a game takes the
number of estimates made before: noise is part of the model. The walk over blocks, with its average over all join
orders of a block, is written as the original loops and proved against a specification; efficiency, the subset formula,
the null and symmetry axioms and the budget are theorems about that specification.

**End to end** (`Text`, `Conversations`, `PerturbedRuns`, `ScenarioBlame`, `Archetypes`, `SingleCause`,
`ConcurrentValidate`). The archetype and concurrent-branch suites, for every size instead of a few: request bodies are
text, markers are substrings, the tail decides by searching the body, the oracle by searching the reply. One theorem,
`PerturbedRuns.CoalitionOutcome`, says what any coalition trial of any scenario comes to; each suite follows by the walk.

**Protocols** (`SessionOrder`, `SpliceOrder`, `ReplayProxy`, `Checkpoint`, `Nondet`). The recursive session interleaving
with its shared placed set, proved against an inductive tree of runs; the replay server's queues; the crash-safe log as a state
machine with a crash possible after every commit, and its tailing reader against a file that changes between any two of
its queries; recorded and replayed draws for every program whose next draw depends on earlier results.

**Parsers and printers** (`EventStream`, `JsonDiff`, `JsonPlaces`, `FieldPath`). Binary framing and its decoder; the
structural diff, the places it reports and the patch it amounts to, and the path language its reports are printed in and read back from.

A method that computes is proved against a function, and what that function means is proved beside it without naming its
body: as sets of trials, places of a run, positions of a listing, byte forms, or an equivalence over all inputs.

## What was found

Where the code, its comments or its tests promise more than holds, the exact condition is proved, with an input that
shows the failure.

- `rebase` reads entry j of a delta tape as step first+j. That is right for every entry if and only if no request past
  the fork point is answered after one that raised: an agent that swallows an exception and goes on shifts all later
  entries, one that swallows its last shifts none (`ForkTheorems.DeltaOffsets`,
  `ForkTheorems.OffsetsFailWhenAnExceptionIsSwallowed`, `ForkTheorems.TrailingFailureKeepsOffsets`).
- Rebasing a branch onto its own parent reproduces it without asking the upstream if and only if no request past the
  fork point raised (`RebaseTheorems.RebaseOntoOwnParent`, `RebaseTheorems.SwallowedExceptionIsAskedAgain`).
- The walk goes on from the last join order of a block, commented as order-independent, while credits are averaged over
  all of them. The Shapley efficiency stated in the docstring then holds up to exactly the gap of
  `ShapleyEfficiency.EfficiencyIdentity`. With trials, it holds whatever they come to if and only if every block is
  a single step (`ShapleyNoise.EfficientIffSingletons`), and for larger blocks whose full coalition has a steady, defined rate
  (`ShapleyEfficiency.Efficiency`).
- That axiom speaks of v(full). The sum is the value the walk holds, which is the full coalition's own estimate exactly
  where that is defined (`ShapleyEfficiency.FinalBase`, `ShapleyEfficiency.FullEfficiency`). In the archetype suites
  it never is, as nothing of the agent is left to run once the final step is forced (`ScenarioBlame.RuledFullIsUndefined`).
- The estimate's docstring says real spend never outruns it. A single-step fork stays within its own term if and only
  if its agent makes at most as many requests as the tape has, a coalition fork if and only if it makes at most that
  many from its first forced step on (`Budget.SingleForkPays`, `Budget.CoalitionForkPays`); then the run stays within
  the estimate (`Budget.RunStaysWithinEstimate`). Where no agent stops early and there are no batches, it does so if
  and only if none asks for more than the tape has (`Spend.LongRunStaysWithinIff`); one request more overspends on any
  tape (`Spend.OneRequestTooManyOverspends`).
- The n-way conjunction rule is the conjunction of its parts for up to ten parts only (`Archetypes.ConjunctionIff`). The
  archetype's expected reading nevertheless holds for every arity, as no walk visits the coalitions that differ.
- A child run recorded at a step its parent does not have is dropped from the session order
  (`SessionOrder.PlacedIffReachable`, `SessionOrder.OutOfRangeChildIsLost`).
- Empty tapes aside, a checkpoint marked final recovers the tape of its latest finalization if and only if no later one
  has begun to write, and, where finalizations save the log, the committed exchanges if and only if, besides, nothing
  has been committed since (`Checkpoint.FinalizedRecovery`, `Checkpoint.FinalizedLogIff`). A crash during a second finalization breaks the
  first, an append after finalizing the second (`Checkpoint.SecondFinalizationIsUnsafe`,
  `Checkpoint.AppendAfterFinalizeIsLost`).
- A recorder restarted after a crash finalizes its own tape, which then hides the rows committed before: recovery gives
  the piece of the log its process committed, and the whole log if and only if the log was empty when it started and
  nothing has been committed since (`Checkpoint.FinalizedSessionIff`, `Checkpoint.RestartLosesEarlierRows`).
- The done frame of the live stream can count a row that was never delivered (`Checkpoint.DoneCanBeIncomplete`); a
  client can tell by comparing counts (`Checkpoint.StreamCheckpoint`).
- `decode_messages` never returns if and only if it gets to an accepted message with a zero length field
  (`EventStream.LoopsIff`); which those are is `EventStream.ZeroLengthAcceptedIff`, and one is
  `EventStream.ZeroLengthLoops`.
- The missing-value sentinel is an ordinary string, so two different documents can be reported alike
  (`JsonDiff.SentinelIsAmbiguous`). Reports tell absence if and only if no difference carries that string
  (`JsonDiff.TellsAbsenceIff`); without it, printable reports determine the differences
  (`FieldPath.ReportDeterminesDiffs`). The diff finds nothing between `true` and `1` (`JsonDiff.EmptyIffSame`).
- An environment draw whose name holds a NUL never replays (`Nondet.PackSplits`).
- A run with no trials or no repeats reads no necessity at all, so `matches_expected` holds only with k and m positive,
  or with nothing active (`Archetypes.RunOrRedundancy` and its siblings, `ConcurrentValidate.RunShapleyMultiBranch`).

## Model

| member | source | states |
|---|---|---|
| `Tapes.Hashed` | src/tracefork/matcher.py:70-120 | Every matcher that stores a canonical form and fingerprints it by hash keeps the protocol's invariant: the fingerprint of what is stored for a request is the live request's fingerprint. |
| `ForkEngine.ForkTransport.HandleRequest` | src/tracefork/fork.py:229-272 | The classic fork transport, field by field, is one step of the request/reply machine `Transports.Step`: same reply, new counters, delta tape and upstream calls. |
| `ForkEngine.CoalitionForkTransport.HandleRequest` | src/tracefork/fork.py:368-422 | The coalition transport is one step of the same machine: the fingerprint is checked up to the first forced step only. |
| `ForkEngine.RebaseTransport.constructor` | src/tracefork/fork.py:448-490 | Building the transport queues the earlier branch's tail responses per fingerprint, first in first out, forced steps left out. |
| `ForkEngine.RebaseTransport.HandleRequest` | src/tracefork/fork.py:492-538 | The rebase transport is one step of the same machine, with its queues. |
| `ForkEngine.NewCoalitionSpec` | src/tracefork/fork.py:296-322 | A coalition is rejected exactly when it is empty or repeats a step; otherwise it holds the same interventions by ascending step. |
| `ForkEngine.Fork` | src/tracefork/fork.py:546-634 | Out of range exactly outside the tape; otherwise the branch of the driven agent, or why there is none. |
| `ForkEngine.ForkCoalition` | src/tracefork/fork.py:636-718 | Rejected exactly when some step is outside the tape, naming the first such step; otherwise the branch of the driven agent. |
| `ForkEngine.RebaseBranch` | src/tracefork/fork.py:720-810 | Rejected exactly when the fork point lies past the new parent; a branch whose agent never reached the fork point is an error; otherwise the branch. |
| `ForkEngine.SingleCoalitionBranch` | src/tracefork/fork.py:324-329 | A one-step coalition returns the very result of the classic fork: delta tape, divergence step, counters, errors. |
| `ForkEngine.RebaseOwnBranch` | src/tracefork/fork.py:720-810 | Rebasing a finished branch onto its own parent returns that branch with all its tail reused and nothing asked of the upstream, if no request past the fork point raised; otherwise the agent hears something else or the upstream is asked again. |
| `ForkTheorems.DeltaLaw` | src/tracefork/fork.py:368-422 | In every reachable state of every run the delta tape is exactly the answered exchanges from the first intervention on, in order. |
| `ForkTheorems.DeltaOffsets` | src/tracefork/fork.py:436-440 | Every entry j of the delta tape is absolute step first+j if and only if no request past the fork point is answered after one that raised; there is one entry per such request if and only if none raised. |
| `ForkTheorems.TrailingFailureKeepsOffsets` | src/tracefork/fork.py:436-440 | A concrete agent that swallows the exception of its last request: one request has no entry, and every entry is at its own offset. |
| `ForkTheorems.OffsetsFailWhenAnExceptionIsSwallowed` | src/tracefork/fork.py:436-440 | A concrete agent that swallows an upstream exception shifts every later entry by one. |
| `ForkTheorems.PrefixIsFree` | src/tracefork/fork.py:229-272 | Up to and including the first intervention nothing is paid for, and each answer is the parent's own. |
| `ForkTheorems.SingleCoalitionIsFork` | src/tracefork/fork.py:307-329 | After any number of requests of any agent a one-step coalition transport and the classic one are in the same state and have given the same replies. |
| `ForkTheorems.TailAccounting` | src/tracefork/fork.py:368-422 | Every request past the first intervention was either forced or paid for. |
| `ForkTheorems.TailCallBound` | src/tracefork/blame.py:640-655 | An agent making at most n requests pays for at most n - first - size(S) of them in a coalition fork of S. |
| `TransportLaws.EveryRequest` | src/tracefork/fork.py:229-538 | For every plan (fork, coalition, rebase), new parent, upstream and agent, each request of the run: before the fork point it gets the parent's answer to it or an exception; a forced step gets its forced response, whatever happened before; any other gets the earlier branch's response of its own fingerprint and rank, and goes to the upstream exactly if there is none; nothing else goes there. |
| `TransportLaws.ForcedReply` | src/tracefork/fork.py:512-518 | A forced step is answered by what it is forced to after any requests: reused, paid for or failed. |
| `TransportLaws.ReusedReply` | src/tracefork/fork.py:463-538 | A tail request that is not paid for gets the recorded exchange that has as many predecessors of its fingerprint as the request has. |
| `TransportLaws.PaidReply` | src/tracefork/fork.py:492-538 | A tail request with no such exchange left is the upstream's next, in the order of the run, and gets its reply. |
| `TransportLaws.BranchIs` | src/tracefork/fork.py:546-810 | What each entry point returns: a branch if and only if the agent returned (and a rebase kept something), with the fork point, the steps, the number of answered requests of each part, and one delta entry for each answered request from the fork point on, in order. |
| `RebaseTheorems.TailIsReusedInOrder` | src/tracefork/fork.py:463-538 | On any new parent, per fingerprint: what was handed out followed by what still waits is what the earlier branch recorded; the upstream is asked only when nothing of that fingerprint waits. |
| `RebaseTheorems.RebaseOntoOwnParent` | src/tracefork/fork.py:425-538 | Rebasing onto the branch's own parent gives the same replies, delta tape and counters and never calls the upstream, whatever the upstream has become, if and only if no request past the fork point raised. |
| `RebaseTheorems.SwallowedExceptionIsAskedAgain` | src/tracefork/fork.py:463-538 | A concrete agent that swallows an exception: its rebase asks the upstream again and hears something else. |
| `ShapleyWalk.PermutationsPermute` | src/tracefork/blame.py:826-834 | Every internal join order of a block is a permutation of it. |
| `ShapleyWalk.PermutationsCount` | src/tracefork/blame.py:826-834 | There are b! of them. |
| `ShapleyWalk.PermutationsDistinct` | src/tracefork/blame.py:826-834 | No order is listed twice. |
| `ShapleyWalk.PermutationsInOrder` | src/tracefork/blame.py:826-834 | They come in lexicographic order, so the walk goes on from the descending one. |
| `ShapleyBlocks.BatchBlocks` | src/tracefork/blame.py:789-823 | A batching is accepted exactly when its batches have two members or more, lie within the tape and share no step; then every step is in exactly one block, each batch is a block in ascending order, and blocks ascend by least member. |
| `ShapleyRank.RunCoalitionTrials` | src/tracefork/blame.py:1103-1178 | The tally of k trials of a coalition. |
| `ShapleyRank.TallyAccounts` | src/tracefork/blame.py:1138-1178 | Every trial is a flip, a non-flip or undefined; divergences are among the undefined; no valid trial exactly when all were undefined. |
| `ShapleyRank.RateIsProportion` | src/tracefork/blame.py:1369-1386 | A rate times the number of trials that said anything is the number of those that flipped; it is undefined exactly when none said anything. |
| `ShapleyRank.ScoreIsProportion` | src/tracefork/blame.py:1446-1457 | So is a single-step score, and 0 where no trial said anything. |
| `ShapleyRank.WalkOrder` | src/tracefork/blame.py:1412-1424 | Along one join order the walk holds v of the grown coalition, or its prior value where that is undefined. |
| `ShapleyRank.WalkBlock` | src/tracefork/blame.py:1391-1436 | One block advances the walk as specified: a singleton joins once, a batch is averaged over all its join orders. |
| `ShapleyRank.WalkAll` | src/tracefork/blame.py:1387-1436 | All repeats: every step's samples are those of the specified walks, and the number of estimates asked for is exact. |
| `ShapleyRank.Results` | src/tracefork/blame.py:1438-1459 | The reported values, rates and verdicts of every step. |
| `ShapleyRank.ReportedValues` | src/tracefork/blame.py:1440-1441 | The value reported of a step is the mean of its marginals over the repeats. |
| `ShapleyRank.SamplesChain` | src/tracefork/blame.py:1391-1436 | Each block starts at the rate its predecessor ended at, and every member's sample records where its block started and ended. |
| `ShapleyRank.ValueIsRise` | src/tracefork/blame.py:1440-1445 | The value of a step that joins alone is its coalition rate less its base rate, whatever the noise. |
| `ShapleyRank.EstimatesInTurn` | src/tracefork/blame.py:1387-1436 | No estimate is used twice: were each to come out as its own number, every repeat would end at the number of the last one made. |
| `ShapleyRun.Run` | src/tracefork/blame.py:1182-1471 | A whole run: rejected exactly for ill-formed batchings; otherwise every step's value, mean rates and verdicts are those of the walk over blocks that partition the tape, its sufficiency score is the share of flips among its single-step trials, and the fork count is exact and within the estimate. |
| `ShapleyEfficiency.OrderEfficiency` | src/tracefork/blame.py:1412-1424 | In any single join order of any noisy game the marginals add up to what the block adds. |
| `ShapleyEfficiency.RepeatEfficiency` | src/tracefork/blame.py:1251-1255 | For every noisy game and every batching, one repeat's credits add up to its final value plus the gaps between a block's average end and its last ordering's. |
| `ShapleyEfficiency.EfficiencyIdentity` | src/tracefork/blame.py:1251-1255 | The same over a whole run, in the mean. |
| `ShapleyEfficiency.Efficiency` | src/tracefork/blame.py:1251-1255 | Efficiency: if every multi-member block completes a coalition of steady, defined rate, the values add up to the mean of the final rates, whatever the noise elsewhere and however many estimates were undefined. |
| `ShapleyEfficiency.FinalBase` | src/tracefork/blame.py:1412-1436 | A walk ends at the full coalition's own estimate where that is defined, and at what it held before its last step joined where it is not. |
| `ShapleyEfficiency.FullEfficiency` | src/tracefork/blame.py:1251-1255 | Efficiency in the docstring's words: with steady multi-member blocks, and the full coalition's estimate defined in every repeat, the values add up to the mean of those estimates. |
| `ShapleyNoise.EfficientIffSingletons` | src/tracefork/blame.py:1251-1255 | A run is efficient whatever its trials come to if and only if its batching has singleton blocks only, or there are no trials. |
| `ShapleyNoise.RacingStepsBreakIt` | src/tracefork/blame.py:1420-1436 | For every batching with a block of two or more, concrete trials for which the values do not add up to the mean final rate. |
| `ShapleyFormula.SubsetsAreAll` | src/tracefork/blame.py:826-834 | The subsets the formula sums over are all subsets. |
| `ShapleyFormula.SubsetsDistinct` | src/tracefork/blame.py:826-834 | No subset is listed twice. |
| `ShapleyFormula.FormulaIsOverAllCoalitions` | src/tracefork/blame.py:1407-1431 | The formula is the sum over the set of coalitions of the other members: any listing of them, each once, gives the same. |
| `ShapleyFormula.OrderSumIsSubsetSum` | src/tracefork/blame.py:1407-1431 | Summing a member's gains over all b! orders is the weighted sum over subsets of the others. |
| `ShapleyFormula.BlockMarginalIsShapley` | src/tracefork/blame.py:1407-1431 | For a deterministic, defined rate the average over join orders is the subset-weighted Shapley value of the local game. |
| `ShapleyFormula.NullMember` | src/tracefork/blame.py:1407-1431 | A member that never changes the rate is credited 0. |
| `ShapleyFormula.SymmetricMembers` | src/tracefork/blame.py:1407-1431 | Interchangeable members are credited alike. |
| `ShapleyFormula.BlockAddsUp` | src/tracefork/blame.py:1425-1436 | The members together are credited v(C with the block) - v(C), and the walk goes on from v(C with the block). |
| `Budget.ForksWithinEstimate` | src/tracefork/blame.py:667-671 | A run makes exactly nk + mk(sum of b b!) forks: at most the estimate, and exactly it if and only if m or k is 0 or every block has as many orders as the largest. |
| `Budget.ExactWithoutBatches` | src/tracefork/blame.py:667-671 | Without batches the estimate is exact. |
| `Budget.BlocksWithinFactor` | src/tracefork/blame.py:837-851 | The cost factor bounds the number of join orders of every block. |
| `Budget.CostFactorIsMost` | src/tracefork/blame.py:837-851 | The cost factor is the number of join orders of some batch, or 1 without batches, and no batch has more. |
| `Budget.CoalitionForkPays` | src/tracefork/blame.py:640-655 | A coalition fork makes at most n - size(S) paid calls if and only if its agent makes at most n requests from the first forced step on; past n requests each one is paid for. |
| `Budget.SingleForkPays` | src/tracefork/blame.py:640-655 | A single-step fork makes at most n - 1 - step paid calls, its term of the estimate, if and only if its agent makes at most n requests. |
| `Budget.CallsWithinEstimate` | src/tracefork/blame.py:675-685 | If every fork is so bounded, all paid calls of the single-step pass and of every trial of every repeat stay within the billed calls of the estimate. |
| `Budget.RunStaysWithinEstimate` | src/tracefork/blame.py:640-685 | So they do for all driven agents that keep to that many requests, whatever is forced and whatever the upstreams are. |
| `Spend.LongRunStaysWithinIff` | src/tracefork/blame.py:640-685 | A whole run without batches in which no agent makes fewer requests than the tape has stays within the billed calls if and only if none makes more. |
| `Spend.OneRequestTooManyOverspends` | src/tracefork/blame.py:640-685 | On any tape, with any upstream and matcher, the single-step pass over an agent that makes one request more than the tape has is billed for more than the estimate. |
| `BenjaminiHochberg.Procedure` | src/tracefork/blame.py:222-241 | The loop computes each entry's step-up value at its own rank and selects the entries at most q. |
| `BenjaminiHochberg.StepUpIsLeast` | src/tracefork/blame.py:233-239 | The step-up value is the least of 1 and p m / j over the ranks j from its own on. |
| `BenjaminiHochberg.QValueIsRankFree` | src/tracefork/blame.py:222-241 | A q-value is min(1, min over p-values y >= p of y m / #{p-values <= y}), which mentions no rank or position. |
| `BenjaminiHochberg.CountIsSize` | src/tracefork/blame.py:222-241 | Its count is the size of the set of entries with a p-value at most y. |
| `BenjaminiHochberg.PermutationInvariant` | src/tracefork/blame.py:222-241 | Permuting the input, ties included, permutes the q-values. |
| `BenjaminiHochberg.SelectionIsStepUp` | src/tracefork/blame.py:222-241 | An entry is selected if and only if some rank at or above its own passes its own threshold: the classic step-up set. |
| `BenjaminiHochberg.Correct` | src/tracefork/blame.py:1019-1027 | The correction pass: trustworthy steps get their q-value and verdict, the others keep 1 and not responsible. |
| `BenjaminiHochberg.CandidatesAre` | src/tracefork/blame.py:1019-1027 | The p-values corrected are those of the trustworthy steps, each as often as it occurs there, and no other. |
| `BenjaminiHochberg.CorrectedIs` | src/tracefork/blame.py:1019-1027 | A trustworthy step gets the q-value of its p-value among those and is responsible exactly when that is at most q; any other gets 1 and is not; nothing else of a result changes. |
| `BenjaminiHochberg.RecomputedTheSame` | src/tracefork/interop.py:271-276 | Correcting the same results in another order gives each the same q-value and verdict. |
| `BenjaminiHochberg.SameResponsibleSet` | src/tracefork/interop.py:271-277 | A report rebuilt from its JSON has the responsible set of the original, though its results were re-sorted in between. |
| `Conversations.BodyShows` | src/tracefork/archetypes.py:144-169 | A request body contains a marker exactly when the content of one of its messages does. |
| `Conversations.SuccessFirst` | src/tracefork/blame.py:371-376 | The oracle grades a text with both words as a success, and as a failure only one without the word of success. |
| `PerturbedRuns.RecordCleanTape` | src/tracefork/archetypes.py:248-266 | The recorded parent tape is the agent's run against the scripted replies. |
| `PerturbedRuns.CleanTapeIs` | src/tracefork/archetypes.py:248-266 | The parent's texts are filler but for the passing one at the end, and each request is what the agent asks after hearing those before. |
| `PerturbedRuns.RuleTail.HandleRequest` | src/tracefork/archetypes.py:159-168 | The tail answers filler until its last turn, and then fails exactly when the rule trips on the request. |
| `PerturbedRuns.ForkTrial` | src/tracefork/blame.py:1103-1178 | A trial's branch, through the coalition fork, with the tail of the coalition's highest step. |
| `PerturbedRuns.RunTrial` | src/tracefork/blame.py:1138-1178 | The graded outcome of one trial. |
| `PerturbedRuns.SingleTrialIsCoalition` | src/tracefork/blame.py:1044-1100 | The trial of a single-step fork is that of the one-step coalition. |
| `PerturbedRuns.CleanTapeSucceeds` | src/tracefork/archetypes.py:248-266 | The parent run grades as a success. |
| `PerturbedRuns.CoalitionOutcome` | src/tracefork/archetypes.py:144-245 | For every scenario and every coalition: undefined if the final step is forced, otherwise a flip exactly when the markers the coalition injects trip the rule. |
| `PerturbedRuns.TrialTranscript` | src/tracefork/archetypes.py:144-201 | Every text of every coalition trial: the injected one at a forced step, the parent's before, and behind it the failing text where the request trips the rule, else the passing one once the tail has answered as many steps as lie behind the highest forced one, and filler until then. |
| `PerturbedRuns.VerdictIsSymmetric` | src/tracefork/blame.py:1150-1178 | A trial is a flip exactly when both grades are known and differ, and undefined exactly when one is not known. |
| `ScenarioBlame.ValueOneByOne` | src/tracefork/blame.py:1387-1441 | Without batches the value of step j is the rise of the held prefix rate from j to j+1. |
| `ScenarioBlame.RuledValue` | src/tracefork/blame.py:1387-1441 | Where a rule trips from prefix length f on, only step f-1 earns anything, and it earns 1. |
| `ScenarioBlame.RuledFullIsUndefined` | src/tracefork/blame.py:1251-1255 | Over a ruled scenario no repeat's estimate of the full coalition is defined, so what the values add up to is a held rate. |
| `ScenarioBlame.RuledSingle` | src/tracefork/blame.py:1446-1457 | The single-step rate of a step is 1 exactly when it alone trips the rule and is not the final step. |
| `ScenarioBlame.SinglesAreCoalitions` | src/tracefork/blame.py:1044-1100 | The tallies of the single-step pass are those of one-step coalitions. |
| `ScenarioBlame.BlameScenario` | src/tracefork/archetypes.py:267-295 | A whole run over a ruled scenario reads every step's value, necessity and sufficiency as derived from the rule. |
| `Archetypes.LinearAgent` | src/tracefork/archetypes.py:188-201 | The agent's loop against the coalition transport makes the requests, and stops as, the agent of the theorems. |
| `Archetypes.MarkerInMutated` | src/tracefork/archetypes.py:131-141 | The marker of role r occurs in the text injected for a role exactly when r is a prefix of that role. |
| `Archetypes.RunOrRedundancy` | src/tracefork/archetypes.py:362-407 | For every pair of positions, tape length and active set the run matches the derived ground truth if and only if nothing is active or k and m are positive. |
| `Archetypes.AndTrips` | src/tracefork/archetypes.py:410-420 | The rule trips on a coalition exactly when each part is in it or shown by a part whose numeral extends its own. |
| `Archetypes.ConjunctionIff` | src/tracefork/archetypes.py:410-420 | The rule is the conjunction of its parts if and only if there are at most ten: `part_1` is inside `part_10`. |
| `Archetypes.NoPartSuffices` | src/tracefork/archetypes.py:423-424 | For every arity of at least 2 no single part completes the conjunction. |
| `Archetypes.RunConjunction` | src/tracefork/archetypes.py:427-471 | For every arity of at least 2 the run reads the last part as necessary and none as sufficient if and only if k and m are positive. |
| `Archetypes.RunLongRelay` | src/tracefork/archetypes.py:485-518 | For every relay length the root alone is read as necessary and sufficient, with value 1, if and only if k and m are positive. |
| `SingleCause.FinalStepAlone` | src/tracefork/blame.py:789-823 | A batching that omits the final step leaves it as the last block, alone. |
| `SingleCause.GuiltyValue` | src/tracefork/blame.py:1387-1441 | For any such blocks, a game that is 1 exactly on coalitions holding the guilty step credits it with 1 and all other steps with 0; without repeats all are 0. |
| `SingleCause.BlameSingleCause` | src/tracefork/blame.py:1182-1471 | The whole run reports that with trials and repeats, and 0 for every step without. |
| `ConcurrentValidate.BranchIsRuled` | src/tracefork/concurrent_validate.py:216-344 | For every number of branches and every guilty one, a trial flips exactly when the coalition holds the guilty branch; with no marker planted none flips. |
| `ConcurrentValidate.BranchAsks` | src/tracefork/concurrent_validate.py:157-164 | Each branch asks for its own slot behind the setup and sees no sibling. |
| `ConcurrentValidate.SiblingsAre` | src/tracefork/concurrent_validate.py:260-274 | The batch holds the steps of the branches, all of them and no other. |
| `ConcurrentValidate.RunShapleyMultiBranch` | src/tracefork/concurrent_validate.py:352-374 | The guilty branch gets value 1 and necessity and every other step 0 if and only if k and m are positive; rejected exactly for a branch that does not exist. |
| `ConcurrentValidate.RunShapleyNegativeControl` | src/tracefork/concurrent_validate.py:377-398 | With no marker every step reads 0 and none is necessary. |
| `ConcurrentValidate.RunConcurrentBranchValidation` | src/tracefork/concurrent_validate.py:412-439 | The sweep ranks every guilty branch first, n of n, with k and m positive, and none otherwise; the control's greatest value is 0. |
| `SessionOrder.Expansion.Expand` | src/tracefork/cross_tape_blame.py:110-136 | The recursive expansion with its shared placed set terminates on every edge set and lists the tree it grows. |
| `SessionOrder.ListedOnce` | src/tracefork/cross_tape_blame.py:81-136 | Every step of every placed run is listed exactly once, and nothing else. |
| `SessionOrder.ListedAscends` | src/tracefork/cross_tape_blame.py:81-136 | The steps of each run appear in ascending order. |
| `SessionOrder.ChildSpan` | src/tracefork/cross_tape_blame.py:121-134 | Each spliced child's whole expansion is one piece between its parent's spawning step and the next; a deferred child's comes after all of its parent's steps. |
| `SessionOrder.PlacedIffReachable` | src/tracefork/cross_tape_blame.py:110-136 | A run is placed if and only if it is reachable by edges whose spawning step its parent has (or that have none). |
| `SessionOrder.TopologicalOrder` | src/tracefork/cross_tape_blame.py:81-136 | All of the above, for any session. |
| `SessionOrder.OutOfRangeChildIsLost` | src/tracefork/cross_tape_blame.py:121-134 | The order of a session whose child is recorded at a step its parent lacks is the root's one step; no step of the child is listed. |
| `SpliceOrder.SplicedAtAnEdge` | src/tracefork/cross_tape_blame.py:115-135 | Every reachable run but the root is spliced at a recorded edge whose step its parent has, all of it in one piece. |
| `SpliceOrder.SplicedInTime` | src/tracefork/cross_tape_blame.py:98-135 | Whichever of its edges that is, the run starts before the step after the spawning one of every edge that leads to it: it is placed at the first point reached. |
| `SpliceOrder.SiblingsInEdgeOrder` | src/tracefork/cross_tape_blame.py:115-134 | Of two runs spawned by one step, or deferred by one run, the one whose first edge was recorded first starts first. |
| `ReplayProxy.ReplayProxy.constructor` | src/tracefork/proxy.py:208-215 | One queue of recorded positions per fingerprint. |
| `ReplayProxy.ReplayProxy.Handle` | src/tracefork/proxy.py:217-231 | A request is answered from the head of its fingerprint's queue, or fails if that is empty; the invariant makes queues and count functions of the requests so far. |
| `ReplayProxy.QueuesAlwaysHold` | src/tracefork/proxy.py:208-231 | After any requests, each queue holds the recorded positions of its fingerprint, in order, less as many as have been asked for. |
| `ReplayProxy.ServedIff` | src/tracefork/proxy.py:192-231 | A request gets the recorded exchange of its fingerprint and rank, so arrival order across fingerprints does not matter. |
| `ReplayProxy.FailsIff` | src/tracefork/proxy.py:217-231 | A request fails if and only if its fingerprint has been asked for as often as it was recorded. |
| `ReplayProxy.ServedOnce` | src/tracefork/proxy.py:217-231 | No exchange is served twice. |
| `ReplayProxy.ServedSetIs` | src/tracefork/proxy.py:217-231 | The served set is what some request was served. |
| `ReplayProxy.ServedOrQueued` | src/tracefork/proxy.py:208-231 | In every reachable state each recorded position has been served or is still queued under its own fingerprint, never both. |
| `ReplayProxy.AllServedIff` | src/tracefork/proxy.py:217-231 | No request fails if and only if none is asked for more often than recorded. |
| `ReplayProxy.MatchedCounts` | src/tracefork/proxy.py:228-231 | The counter is the number of exchanges served. |
| `ReplayProxy.FullyConsumedIff` | src/tracefork/proxy.py:233-234 | Fully consumed if and only if every fingerprint was asked for at least as often as recorded. |
| `ReplayProxy.ReplayProxy.FullyConsumed` | src/tracefork/proxy.py:233-234 | The flag of the server says just that of its requests so far. |
| `ReplayProxy.CleanReplayIff` | src/tracefork/proxy.py:192-234 | A replay is clean, no error and nothing left, if and only if the requests are the recorded ones in some order. |
| `Checkpoint.CheckpointWriter.constructor` | src/tracefork/checkpoint.py:156-175 | Opening creates what is missing and keeps what is there. |
| `Checkpoint.CheckpointWriter.AppendExchange` | src/tracefork/checkpoint.py:177-189 | One committed row with the next id. |
| `Checkpoint.CheckpointWriter.Finalize` | src/tracefork/checkpoint.py:191-205 | The tape tables replaced, then the flag; the log is left as it is. |
| `Checkpoint.Recover` | src/tracefork/checkpoint.py:254-282 | The saved tape if the flag is set, otherwise the committed exchanges in order and no draws. |
| `Checkpoint.CrashRecovery` | src/tracefork/checkpoint.py:177-282 | With crashes at any step, an unfinalized checkpoint recovers to exactly the committed exchanges in order; they include every append that returned and miss at most one begun append per crash and the one in progress. |
| `Checkpoint.FinalizedRecovery` | src/tracefork/checkpoint.py:191-282 | With the flag set, recovery gives the tape of the latest finalization if and only if no later one has begun to write its tables; otherwise no tape, or an empty one. |
| `Checkpoint.FinalizedLogIff` | src/tracefork/checkpoint.py:177-282 | Where finalizations save the log, that recovers the committed exchanges if and only if the last write of the tables was such a save and nothing has been committed since, or the tables were left empty over an empty log. |
| `Checkpoint.FinalizedSessionIff` | src/tracefork/recorder.py:174-254 | Where each finalization saves its own process's exchanges, recovery gives the piece of the log that process committed; that is the whole log if and only if the log was empty when it was opened and nothing has been committed since, or the tables were left empty over an empty log. |
| `Checkpoint.RestartLosesEarlierRows` | src/tracefork/recorder.py:174-254 | A run with one crash and one clean finalization after which an append that returned is not recovered. |
| `Checkpoint.FinalizedOnce` | src/tracefork/checkpoint.py:150-152 | The special case the docstring asks for: after one finalization at most, a set flag means its tape is recovered. |
| `Checkpoint.SecondFinalizationIsUnsafe` | src/tracefork/checkpoint.py:191-205 | A run in which a crash during a second finalization leaves the flag set over missing or empty tables. |
| `Checkpoint.AppendAfterFinalizeIsLost` | src/tracefork/checkpoint.py:177-205 | A run in which an append after finalizing returns but is not recovered. |
| `Checkpoint.RunGrows` | src/tracefork/checkpoint.py:177-205 | From any moment of a run to any later one rows are only appended and the flag stays set. |
| `Checkpoint.StatusIs` | src/tracefork/checkpoint.py:156-252 | At any moment of any run: no file exactly before the first opening, the flag exactly after one was set, the name given at the first opening, and the committed exchanges numbered from 1. |
| `Checkpoint.PollSkips` | src/tracefork/checkpoint.py:208-228 | Polling past row n gives all but the first n rows committed. |
| `Checkpoint.PollContinues` | src/tracefork/checkpoint.py:208-228 | Polling on from the last id seen adds exactly what was committed since. |
| `Checkpoint.StreamCheckpoint` | src/tracefork/checkpoint_stream.py:72-89 | Interleaved with any writer, the loop has delivered exactly the rows past the start as of its last poll, and stops at the first round that finds the flag; from 0 its delivery is complete if and only if its length is the done frame's count. |
| `Checkpoint.DeliversConsecutively` | src/tracefork/checkpoint_stream.py:72-89 | What it delivers is a gap-free, duplicate-free run of rows. |
| `Checkpoint.CompleteIffCountMatches` | src/tracefork/checkpoint_stream.py:64-89 | A poll from 0 has every row of a later state if and only if it has as many. |
| `Checkpoint.DoneCanBeIncomplete` | src/tracefork/checkpoint_stream.py:80-87 | The loop, against a reachable history, ends without a row that its done frame counts. |
| `Nondet.RecordingNondet.Serve` | src/tracefork/nondet.py:138-224 | Every kind of draw: what the caller gets and what is appended; an over-cap file raises and appends nothing. |
| `Nondet.ReplayNondet.Next` | src/tracefork/nondet.py:234-246 | The next draw is consumed exactly when it is of the kind asked for. |
| `Nondet.ReplayNondet.Serve` | src/tracefork/nondet.py:248-275 | Every kind of draw handed back, or divergence. |
| `Nondet.PackSplits` | src/tracefork/nondet.py:177-193 | A packed environment draw splits back exactly if and only if the name has no NUL; unset stays distinct from empty. |
| `Nondet.DrawReplays` | src/tracefork/nondet.py:177-275 | A draw replays to its recorded result if and only if it was no refused file and no NUL-named variable. |
| `Nondet.MisfitDiverges` | src/tracefork/nondet.py:234-275 | Another kind, variable or path, or a draw past the end, diverges. |
| `Nondet.RedactedReplays` | src/tracefork/nondet.py:177-224 | Redaction changes what is replayed, never what the live caller saw. |
| `Nondet.ReplayIsFaithfulIff` | src/tracefork/nondet.py:138-278 | For every program, replay gives back all results, and then uses up the tape, if and only if every draw was one that can be handed back. |
| `Nondet.RecordThenReplay` | src/tracefork/nondet.py:138-278 | Recorder and replayer driven by any program: each recorded result is the machine's answer to what the program then asks, and the replay gives back all of them, and is then fully consumed, if and only if no file was refused and no variable's name held a NUL. |
| `Nondet.EnvReplaysIff` | src/tracefork/nondet.py:177-193 | A stored variable of any tape is handed back as set, as unset or as malformed exactly for the texts that say so. |
| `Nondet.NextIff` | src/tracefork/nondet.py:234-246 | A stored draw of any tape serves a request of its own kind only, and is then used up. |
| `Nondet.ChangedProgramDiverges` | src/tracefork/nondet.py:234-275 | A program that asks for something else at some point diverges there. |
| `EventStream.DecodeMessage` | src/tracefork/eventstream.py:118-149 | The decoder's steps in their order, as the function of which the rest is proved. |
| `EventStream.AcceptedIff` | src/tracefork/eventstream.py:118-149 | A buffer is accepted if and only if it holds a prelude, the prelude's checksum fits, it is as long as it says, the four bytes at the end of the message are the checksum of all before them, and the header bytes are a list of headers. |
| `EventStream.AcceptedIs` | src/tracefork/eventstream.py:118-149 | What is accepted then: those headers, the bytes up to the checksum as payload, and what follows the message. |
| `EventStream.RefusedBefore` | src/tracefork/eventstream.py:118-149 | Each condition that fails, the ones before it holding, is its own error. |
| `EventStream.AlteredIsRefused` | src/tracefork/eventstream.py:118-149 | An encoded frame altered anywhere before its checksum so that the checksum of those bytes changes is never accepted. |
| `EventStream.AlteredChecksumIsRefused` | src/tracefork/eventstream.py:118-149 | Nor is one whose checksum bytes are altered. |
| `EventStream.HeadersDecodeIff` | src/tracefork/eventstream.py:101-149 | Bytes that are headers one after the other decode to those headers, a later value replacing an earlier one of the same name. |
| `EventStream.HeadersReported` | src/tracefork/eventstream.py:118-149 | Where lengths and checksums fit, the error reported is that of the header bytes. |
| `EventStream.HeadersFailIff` | src/tracefork/eventstream.py:101-149 | Those fail with an error if and only if some headers leave bytes that have it. |
| `EventStream.HeaderRefused` | src/tracefork/eventstream.py:101-115 | Which error each flaw of a header is: its name's text, its type, its lengths, its value's text. |
| `EventStream.PutLooksUp` | src/tracefork/eventstream.py:118-149 | A header put among others is the one found under its name, and the others are found as before. |
| `EventStream.EncodesIff` | src/tracefork/eventstream.py:74-98 | A message encodes if and only if each name is at most 255 bytes, each value at most 65535, and the whole fits its length field. |
| `EventStream.DecodeMessages` | src/tracefork/eventstream.py:152-160 | All messages, the first error, or an endless loop. |
| `EventStream.MessageRoundTrip` | src/tracefork/eventstream.py:74-149 | Decoding an encoded message followed by anything returns exactly the message and what followed. |
| `EventStream.StreamRoundTrip` | src/tracefork/eventstream.py:90-160 | Decoding inverts the concatenation of any encoded messages. |
| `EventStream.PrefixFree` | src/tracefork/eventstream.py:90-149 | If two buffers starting with encoded messages are equal, so are the messages and what follows them. |
| `EventStream.MessagesIff` | src/tracefork/eventstream.py:152-160 | Decoding a buffer gives a list of messages if and only if these are accepted one after the other until nothing is left. |
| `EventStream.FailsIff` | src/tracefork/eventstream.py:152-160 | It fails with an error if and only if it gets to a message that has it. |
| `EventStream.LoopsIff` | src/tracefork/eventstream.py:118-160 | Decoding a buffer never ends if and only if it gets to an accepted message whose length field is 0. |
| `EventStream.EndsWithoutZeroLengths` | src/tracefork/eventstream.py:152-160 | It ends on every buffer in which no message gotten to has length field 0. |
| `EventStream.ZeroLengthAcceptedIff` | src/tracefork/eventstream.py:123-149 | A message of length field 0 is accepted if and only if its prelude checksum fits, the last four bytes of the buffer are the checksum of all before, and its headers decode. |
| `EventStream.ZeroLengthLoops` | src/tracefork/eventstream.py:123-134 | Such a buffer exists for every checksum function: 16 bytes that decode forever. |
| `JsonDiff.DiffJson` | src/tracefork/divergence.py:77-112 | The recursive comparison reports, under any starting path, the structured differences. |
| `JsonDiff.SortedUnique` | src/tracefork/divergence.py:87-95 | The order of the reported keys is determined by the key set. |
| `JsonDiff.EmptyIffSame` | src/tracefork/divergence.py:77-112 | No difference if and only if the documents are equal in Python's sense, booleans and numbers included. |
| `JsonDiff.DiffsAreAccurate` | src/tracefork/divergence.py:77-112 | Each difference carries each side's own value at its path, and absence exactly where the path does not resolve. |
| `JsonPlaces.ReportedIffPart` | src/tracefork/divergence.py:77-112 | A place is reported if and only if everything above it is containers of one kind on both sides, and at it just one side has something, or both have values that are not of one kind of container and not equal in Python's sense. |
| `JsonPlaces.ReportedOnce` | src/tracefork/divergence.py:77-112 | No place is reported twice. |
| `JsonPlaces.DiffsAscend` | src/tracefork/divergence.py:77-112 | Places are reported in lexicographic order, keys by code point and indices by number. |
| `JsonDiff.PyEqualIff` | src/tracefork/divergence.py:103-112 | Two leaves are equal exactly when both are numbers or booleans of one value, or the same text or null. |
| `JsonDiff.AtMostIff` | src/tracefork/divergence.py:87-95 | Keys are compared as strings: one is at most another if it begins it or is smaller where they first part. |
| `JsonDiff.PatchGivesLive` | src/tracefork/divergence.py:77-112 | Applying the differences to the recorded document gives the live one, up to leaves Python takes for equal. |
| `JsonDiff.SentinelIsAmbiguous` | src/tracefork/divergence.py:48-62 | For every key, two pairs of documents that differ in it and are reported alike. |
| `JsonDiff.ReportedMissingIff` | src/tracefork/divergence.py:45-62 | A side of any difference is reported as the sentinel if and only if its path does not resolve there or holds the sentinel's own text. |
| `JsonDiff.TellsAbsenceIff` | src/tracefork/divergence.py:45-112 | Reports tell absence for every difference if and only if no difference carries that text. |
| `JsonDiff.SentinelFreeDocumentsTellAbsence` | src/tracefork/divergence.py:45-112 | They do for all documents without such a leaf. |
| `FieldPath.TokenizeFieldPath` | src/tracefork/field_oracle.py:50-67 | The tokenizer's loop against the scanner. |
| `FieldPath.ResolveFieldPath` | src/tracefork/field_oracle.py:70-88 | The resolver's loop against structured resolution; every exception is a failure. |
| `FieldPath.LeftmostKey` | src/tracefork/field_oracle.py:43-67 | Where no token stands earlier, the next one is the key that stands there, as far as it goes, with its dot; and scanning goes on right behind it. |
| `FieldPath.LeftmostIndex` | src/tracefork/field_oracle.py:43-67 | The same of a bracketed number. |
| `FieldPath.NoTokensIff` | src/tracefork/field_oracle.py:43-67 | There are no tokens exactly where neither stands anywhere. |
| `FieldPath.StripIs` | src/tracefork/field_oracle.py:50-54 | Trimming removes all white space at both ends and nothing else. |
| `FieldPath.SpacesAre` | src/tracefork/field_oracle.py:50-54 | Which characters are white space. |
| `FieldPath.RootIsOptional` | src/tracefork/field_oracle.py:50-58 | A printed path reads back without its root sign as well. |
| `FieldPath.FirstDotIsOptional` | src/tracefork/field_oracle.py:50-58 | And without its first dot, unless its first key begins with white space or the root sign. |
| `FieldPath.PrintedForm` | src/tracefork/divergence.py:91-109 | Paths are printed as `.a[0].b`. |
| `FieldPath.ReadsBackIffPrintable` | src/tracefork/field_oracle.py:50-67 | A printed path tokenizes back to itself if and only if its keys are non-empty, free of `.`, `[`, `]`, and it does not end in white space. |
| `FieldPath.ReportedPathsResolve` | src/tracefork/field_oracle.py:70-88 | Each printable reported path resolves to exactly the reported value on each side, and fails exactly where the report says missing. |
| `FieldPath.ReportDeterminesDiffs` | src/tracefork/field_oracle.py:50-67 | Where all paths are printable and no difference carries the sentinel's text, the report determines the differences. |
| `Intervals.WilsonIsClosedForm` | src/tracefork/blame.py:256-268 | The clamped and snapped interval is the closed form, lies in [0, 1] and contains the estimate. |
| `Intervals.WilsonInvertsScoreTest` | src/tracefork/blame.py:256-268 | The interval is exactly the set of rates q with (x - n q)^2 at most z^2 n q (1 - q): those the score test keeps; without trials it is [0, 1]. |
| `Intervals.WilsonMirrors` | src/tracefork/blame.py:256-268 | Counting failures instead of successes reflects the interval about 1/2. |
| `Intervals.AgrestiCoullContainsWilson` | src/tracefork/blame.py:302-306 | The Agresti-Coull interval contains the Wilson interval. |
| `Intervals.AgrestiCoullIsAdjustedWald` | src/tracefork/blame.py:302-306 | The Agresti-Coull interval is exactly the set of rates within z standard errors of (x + z^2/2) / (n + z^2) over n + z^2 trials. |
| `Judge.CalibrateOracle` | src/tracefork/judge.py:254-298 | The four counts and the abstentions are the tallies of the gold set and partition it; rates, kappa and the alert follow. |
| `Judge.TallyIsCell` | src/tracefork/judge.py:267-280 | Each of the four counts and the abstentions is the number of gold examples with that label and that verdict. |
| `Judge.RatioIs` | src/tracefork/judge.py:282-285 | An error rate is the share of the errors among the examples of that label, and 0 where there are none. |
| `Judge.KappaIsDeterminant` | src/tracefork/judge.py:238-251 | Kappa times the sum of the products of opposite margins is 2 (tp tn - fp fn): agreement is counted above chance. |
| `Judge.KappaSign` | src/tracefork/judge.py:238-251 | Kappa is positive, 0 or negative exactly as tp tn is above, at or below fp fn. |
| `Judge.AlwaysYesIsChance` | src/tracefork/judge.py:238-251 | A judge that always says yes, rightly and wrongly at least once each, has kappa 0 and raises the alert. |
| `Judge.ChanceBelowOne` | src/tracefork/judge.py:238-251 | Expected agreement reaches 1 exactly when one diagonal cell holds every verdict, and then observed agreement is 1: the 0.0 answer of that branch is unreachable. |
| `Judge.KappaBounds` | src/tracefork/judge.py:238-251 | Kappa lies in [-1, 1] and is 1 if and only if there is a verdict and no error. |
| `Judge.CorrectionInverts` | src/tracefork/judge.py:304-323 | The correction returns the true rate from the rate the judge reports if and only if the judge is away from chance or its two kinds of error cancel at that rate. |
| `Judge.CorrectionIs` | src/tracefork/judge.py:304-323 | Away from chance the corrected rate is the rate in [0, 1] nearest to the one that would be reported as the observed one; at chance it is nearest to the observed one itself. |

## Left out

- ForkEngine.Fork: the agent is driven for at most n requests, for any n; an agent that never stops has no branch, and its reachable states are covered by `Transports.Drive`.
- ForkEngine.ForkCoalition: the same bound, and no `boundary_guard`, confinement, digests or mutation description.
- ForkEngine.RebaseBranch: the same, with the old branch taken as a value.
- ShapleyRun.Run: results stay in step order, where the source finally sorts them by value; the dollar budget gate, the confidence interval from the normal or Student-t quantile, the progress callback and the interpretation text are not modelled.
- ShapleyEfficiency.Efficiency: states the sum as the held final value, which `ShapleyEfficiency.FinalBase` relates to the full coalition's estimate; sufficient for one game at a time; the exact condition over all games is `ShapleyNoise.EfficientIffSingletons`, and the exact gap of each is `ShapleyEfficiency.EfficiencyIdentity`.
- ShapleyFormula.BlockMarginalIsShapley: needs a deterministic, defined rate, which the formula is about.
- Budget.RunStaysWithinEstimate: token prices are not modelled. The condition on each fork is the exact one of `Budget.SingleForkPays` and `Budget.CoalitionForkPays`; a run with some forks over and others under it may still stay within the sum.
- Spend.LongRunStaysWithinIff: without batches; with them the cost factor leaves slack that can absorb an overspent fork.
- Archetypes.LinearAgent: the SDK client, HTTP and JSON parsing are the `Wire` of `Conversations`, which reads back the text it wrote; contents need no JSON escaping in the modelled conversations.
- PerturbedRuns.RuleTail.HandleRequest: the tail's answer is a text, without ids, models and token counts.
- PerturbedRuns.RunTrial: a fork that raises is undefined; whether its exception chain holds a divergence is not modelled, and no result of `shapley_rank` depends on it.
- ConcurrentValidate.RunShapleyMultiBranch: the recorded batch of siblings is taken as given; the asyncio recording that produces it is not part of this model.
- SessionOrder.TopologicalOrder: the store's queries are given tables; `cross_tape_causal_edges` only filters and sorts, and is left out.
- Checkpoint.StreamCheckpoint: the endless loop is run along any finite sequence of rounds; server-sent event text is left out.
- Checkpoint.FinalizedLogIff: covers runs whose finalizations save the whole log; `Checkpoint.FinalizedSessionIff` covers those that save their own process's part.
- Checkpoint.CrashRecovery: a commit is one atomic step, without SQLite's journal. Of the six statements that replace the tape tables, all but the last leave a file from which no tape loads, and are one step.
- Nondet.RecordingNondet.Serve: the clock, random source, environment and files are an arbitrary function of the draw's number; base64 and decimal text round trips are assumed of the codec.
- EventStream.MessageRoundTrip: CRC and UTF-8 are opaque functions, the latter with its round trip assumed.
- FieldPath.TokenizeFieldPath: `\d` is an ASCII digit where Python also accepts other Unicode decimal digits.
- JsonDiff.EmptyIffSame: numbers are reals with one NaN; float rounding and infinities are not modelled.
- Intervals.WilsonIsClosedForm: exact reals and an exact square root.
- Intervals.AgrestiCoullContainsWilson: as above; the dispatch and argument checks of `proportion_ci` and its Clopper-Pearson and Jeffreys intervals are left out.
- BenjaminiHochberg.PermutationInvariant: exact reals; p-values lie in [0, 1], as the binomial tail gives them.
- Judge.KappaBounds: exact reals; the prompt, parsing and voting of the judge itself and the Monte Carlo interval are left out.
- Tool exchanges, request headers and status codes, provider adapters and the header-canonicalizing matchers beyond the invariant they keep.
- The record proxy, the FastAPI and uvicorn wiring, path confinement, the command line, reports and web templates.
- OTel export and import in `interop.py` apart from the recomputed correction.
- Certificates, convergence, effects, location, receipts, queries and fsck.
- The fixed-size fixtures of `bench.py`, `faults.py` and `competing_faults.py`.
