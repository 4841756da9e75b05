# Validator rounds, score ledger and miner loop: a verified model

This project models the decision-making core of a subnet validator and of its reference
miner, and proves what that core is for. Everything outside it is arbitrary: the problem
server, the miners, the chain, the clock, the disk, the container runtime, random shuffles
and the order in which concurrent grading tasks run are inputs or free choices, so every
result holds for all of them. `dafny verify dfyconfig.toml` checks the whole project.

## How the modules fit

| part | modules |
|---|---|
| one round: lease, dispatch, quorum, commit, reveal, concurrent grading | `Rounds`, `RoundProtocol`, `SharedGrading`, `Grading`, `Evaluations` |
| who is offered, round after round | `Offers` |
| payments, the score ledger, its record, its file, the payout | `Scoring`, `Ledger`, `ScoreLog`, `ScoreState`, `Ranking` |
| the whole callback of the validator | `Validator` |
| when rounds start and weights go out | `Cadence` |
| fair dealing of problems to solvers | `Rotation` |
| canonical JSON that task identities hash | `Unicode`, `Canonical`, `CanonicalLaws`, `CanonicalIdentity`, `CanonicalSpacing`, `CanonicalShortest` |
| replay defence | `Nonces` |
| the miner: model loop, trajectory, patch repair, workspace walk | `Agent`, `Trajectories`, `Hunks`, `Workspace`, `WalkOrder` |
| archives | `Archive`, `Extraction` |
| shared facts | `Seqs`, `Sorting` |

Objects the program updates in place are classes (`EvalEngine`, `RotationSampler`,
`OfferState`, `ValidatorState`, `ValidatorNeuron`, `NonceCache`, `FileSystem`); their methods
are proved against relations or functions on values, and the theorems over whole runs are
about those. Scores, payments and clocks are real numbers.

## The main results

- **A round is all or nothing** (`RoundProtocol.EvaluateRound`). For every interleaving of the
  grading tasks a round completes exactly when a stated condition on the outside world holds;
  a completed round carries exactly one evaluation per miner at the front of the offer, each
  told about its own submission, and an abandoned round names something that happened. Once
  the round was dispatched, a missed quorum depends only on what those miners answered.
- **A verdict becomes its payment** (`Validator.ValidatorState.RoundCallback`,
  `Scoring.ApplyRoundScores`): after a completed round the newest observation of every miner
  evaluated that still serves is what its evaluation earned.
- **Grading identical bytes once changes no verdict** (`SharedGrading.GroupingChangesNoVerdict`).
  With an unknown digest that does not collide on the submitted bytes and an unknown verdict on
  bytes, grading per digest and grading every submission by itself, each with its own
  downloads, clocks, faults and durations, give every miner the same result, latency and
  trajectory whenever both are sound.
- **The ledger is the tail of an unbounded record** (`ScoreLog.EngineIsTheTail`), over every
  run of metagraph refreshes, completed rounds and restarts from any file saved before or from
  a refused one; a reused slot inherits nothing (`ScoreLog.NothingIsInherited`); any reachable
  state survives a restart (`ScoreLog.RunsSurviveRestarts`); and the whole callback keeps this
  (`Validator.ValidatorState.RoundCallback`).
- **Nothing the server does changes the draw** (`Offers.SameMinersUntilRedraw`). While the front
  of an offer stays eligible, every dispatched lease until the next fresh draw is for all of it;
  if the offer was too short to fill the front, newcomers join, and nobody else.
- **Canonical bytes identify values** (`CanonicalIdentity.RoundTrip`,
  `CanonicalIdentity.BytesIdentifyValues`): printing and strict parsing are inverse, down to
  the UTF-8 bytes, and bytes are equal exactly when the values are.
- **Canonical means shortest** (`CanonicalShortest.CanonicalExactly`): of everything the strict
  parser reads as a value, the canonical bytes are exactly those that are as short as any, with
  keys in order and escapes in lower case.
- **What the miner uploads** (`Agent.RunExactly`, `Agent.AcceptedIsUploaded`) is told from the
  replies alone, without the loop.
- **Fair dealing** (`Rotation.LoadsStayWithinOne`) over any calls, shuffles and churn.
- **The run loop's deadline and anchors are functions of its history** (`Cadence`), with the
  exact conditions for a round to start and for weights to go out (`Cadence.RoundsExactly`,
  `Cadence.WeightsExactly`), and the rates that follow.
- **Payout by rank** equals a counting form, is a ladder of equal ratios, ignores scale, and
  never punishes a rise (`Ranking`).

## Where the program and its descriptions differ

- The nonce cache's description says a window equal to the allowed skew is enough. That is
  false for requests dated ahead of the receiver: `Nonces.EqualWindowIsNotEnough` is a replay
  with the deployed values. The receiver also reads the clock twice, once to verify the
  signature and once to consult the cache, and with a gap of a millisecond between the two even
  a request that is not dated ahead can be replayed (`Nonces.GapsLetReplaysIn`).
  `Nonces.ReplayNeedsAheadOfTime` and `Nonces.AheadOfTimeCanBeReplayed` give the exact condition
  for every window, skew and gap. A window of twice the skew and the gap is enough for every
  request (`Nonces.AcceptedAtMostOnce`).
- The file walk's description says it descends into a directory when its name comes up. The
  code lists a directory's files first and then its subdirectories in name order; the model
  follows the code. `WalkOrder.DescribedOrderDiffers` is a tree where the two orders differ, and
  by `WalkOrder.DescribedOrderExactly` they agree iff, in every directory, no subdirectory with
  files in it sorts before a regular file.
- A score file may hold a history without an owner if it sums to zero, and such a history is
  handed to whoever holds the slot next (`ScoreState.WhatARestartHandsOver`, with the file of
  `ScoreState.AnUnownedHistoryIsHandedOver`).
- The miner's loop keeps an already checked reply when it runs out of time. It loses it exactly
  when the run stops because the model raises, a later reply cannot be read or checked without
  an error, the model asks for tools beyond the budget once the reasks are used up, or a call
  within the budget raises (`Agent.ReplyIsLostExactly`, with the runs of
  `Agent.OverBudgetLosesReply` and `Agent.UncheckableReplyLosesReply`). While the model sends no
  calls and neither it nor a check raises, the reply is kept (`Agent.WithoutCallsReplyIsKept`).
- The round policy allows up to 1024 miners per task, but the lease request names at most 256,
  so under a larger policy no lease is ever requested (`Offers.OfferIsSendable`).

## Model

| member | source | states |
|---|---|---|
| Rotation.RotationSampler.Sample | rlvr/orchestrator.py:55-79 | terminates for every shuffle, and the call is a step of the dealing relation: what was queued is served first, then the rest of one fresh shuffle |
| Rotation.SampleIsExact | rlvr/orchestrator.py:55-79 | for 0 < k < pool size exactly k solvers with distinct uids from the pool, otherwise the whole pool; the queue never repeats a uid |
| Rotation.DrawIsExact | rlvr/orchestrator.py:65-79 | a draw with at most one refill gives k distinct members and leaves a duplicate-free queue inside the pool |
| Rotation.StepBalance | rlvr/orchestrator.py:55-79 | one call moves every present uid by the same lift, up to being queued or not |
| Rotation.RunBalance | rlvr/orchestrator.py:41-79 | after any run the load of a uid present throughout is e if it is queued and e + 1 otherwise, for one e |
| Rotation.LoadsStayWithinOne | rlvr/orchestrator.py:41-79 | over any run, with any k, shuffles and churn, the loads of two uids present in every call differ by at most one |
| Ranking.RankWeights | rlvr/scoring/eval_engine.py:32-38 | the array written through the sorted index is decay to the number of positive scores that beat this one, ties to the lower uid |
| Ranking.PositionIsRank | rlvr/scoring/eval_engine.py:32-38 | position in the sorted order equals the counting rank |
| Ranking.TotalIsGeometric | rlvr/scoring/eval_engine.py:32-38 | raw weights add up to one geometric term per positive score |
| Ranking.GetWeights | rlvr/scoring/eval_engine.py:270-302 | aligned to n, clamped, ranked and normalised |
| Ranking.WeightsAreADistribution | rlvr/scoring/eval_engine.py:270-302 | after alignment the weights sum to 1, or are all zero exactly when no aligned score is positive |
| Ranking.OrderDecidesWeights | rlvr/scoring/eval_engine.py:32-38 | only the comparisons between positive scores matter |
| Ranking.PayoutIgnoresScale | rlvr/scoring/eval_engine.py:270-302 | any strictly increasing rescaling of the positive scores leaves the aligned weights unchanged |
| Ranking.PayoutRewardsARise | rlvr/scoring/eval_engine.py:270-302 | raising one score never lowers that miner's weight and never raises anyone else's |
| Ranking.PayoutIsALadder | rlvr/scoring/eval_engine.py:270-302 | no positive score earns nothing; anyone else earns something, at most decay times what whoever is ahead of it earns (better score, or equal at a lower uid), and exactly that much of what the next one ahead earns |
| Ranking.UnrankedIsProportional | rlvr/scoring/eval_engine.py:284-302 | without ranking every share is the part of the total that the clamped score is |
| Ledger.EvalEngine.Record | rlvr/scoring/eval_engine.py:114-125 | appends one clamped observation within the cap and refreshes exactly that score |
| Ledger.EvalEngine.RefreshScore | rlvr/scoring/eval_engine.py:104-112 | the cached score becomes sum over max(length, min_samples) of the history |
| Ledger.EvalEngine.Sync | rlvr/scoring/eval_engine.py:154-176 | resets exactly the slots whose tracked hotkey changed and reports them |
| Ledger.EvalEngine.Resize | rlvr/scoring/eval_engine.py:178-199 | grows with zeros or drops everything beyond n |
| Ledger.EvalEngine.Update | rlvr/scoring/eval_engine.py:201-245 | notes the hotkeys, then records every reward and a zero for each dispatched uid without one |
| Ledger.UpdateExactly | rlvr/scoring/eval_engine.py:201-245 | uid by uid: a reward is one more observation, cut off at zero; with decay a dispatched uid without one gains a zero, and without a list of dispatched uids so does everyone observed; everyone else keeps history and score |
| Ledger.EvalEngine.RecordNonserving | rlvr/scoring/eval_engine.py:247-268 | one zero for each observed uid that is not active, only when decay is on |
| Ledger.EvalEngine.Restore | rlvr/scoring/eval_engine.py:127-145 | the engine becomes the saved histories, trimmed, with scores recomputed |
| Ledger.RecordsCompose | rlvr/scoring/eval_engine.py:201-268 | recordings for disjoint uids compose into one recording |
| Ledger.SyncsCompose | rlvr/scoring/eval_engine.py:154-176 | the loop over hotkeys composes slot by slot |
| Scoring.ComputeRoundPayments | rlvr/v3/round.py:241-263 | of a completed round with nobody twice: an entry for each miner and nobody else, 0 for a non-pass, between the floor and 1 for a pass, 1 for the fastest timed pass, never less for a faster pass, and in between the share of the bonus the curve leaves; empty otherwise |
| Scoring.PaymentsAreFair | rlvr/v3/round.py:241-263 | payments lie in [0, 1]; a non-pass earns 0, a pass at least the floor, the fastest pass 1, and a faster pass never less than a slower one |
| Scoring.ApplyRoundScores | rlvr/v3/round.py:266-294 | changes nothing unless the round completed; then every miner whose hotkey still holds its uid gains its fair payment as newest observation, every other observed one that no longer serves a zero if decay is on, and nobody else anything |
| Scoring.RoundMovesOneSlot | rlvr/v3/round.py:266-294 | a completed round appends at most one observation per history: payments of graded uids with a matching hotkey, one zero for observed uids not serving, nothing else |
| ScoreLog.RefinesRefresh | rlvr/neurons/decentralized.py:577-579 | resize and sync keep the engine the tail of the record |
| ScoreLog.RefinesRound | rlvr/neurons/decentralized.py:621-628 | scoring a round keeps the engine the tail of the record |
| ScoreLog.RestartRefines | rlvr/neurons/decentralized.py:324-490 | loading a saved state into an empty engine makes it the tail of the record it was saved with |
| ScoreLog.EngineIsTheTail | rlvr/scoring/eval_engine.py:104-125 | over every run, restarts included, histories are the last max_samples observations since the slot's last reset and every score is their sum over max(length, min_samples) |
| ScoreLog.NothingIsInherited | rlvr/scoring/eval_engine.py:147-245 | over every run, restarts included, each observation behind a history was made while the uid was held by the hotkey tracked and listed now |
| ScoreLog.NothingIsForgotten | rlvr/scoring/eval_engine.py:154-199 | between restarts the record of a slot in the same hands only grows |
| ScoreLog.RunsSurviveRestarts | rlvr/neurons/decentralized.py:493-529 | every reachable state is restored exactly by saving and loading |
| ScoreState.AcceptedIsSound | rlvr/neurons/decentralized.py:324-461 | no accepted file has a uid without a slot or twice, an empty or overlong window, anything negative, or an owner without a name |
| ScoreState.ReadHistories | rlvr/neurons/decentralized.py:394-433 | the histories of a file are read iff every one is valid and no uid repeats |
| ScoreState.LoadScores | rlvr/neurons/decentralized.py:324-490 | a refused file leaves the engine unchanged; an accepted one replaces it by the state it stands for |
| ScoreState.SaveScores | rlvr/neurons/decentralized.py:493-529 | writes every history and every tracked hotkey once |
| ScoreState.SavedThenLoaded | rlvr/neurons/decentralized.py:324-529 | a saved state is accepted, also under another cap, exactly when its tracked hotkeys are names of existing slots and its positive histories have owners |
| ScoreState.RestartIsExact | rlvr/neurons/decentralized.py:324-529 | with the same bounds the restored engine equals the saved one |
| ScoreState.RestartUnderAnotherCap | rlvr/neurons/decentralized.py:324-529 | another max_samples keeps the newest observations, with matching scores |
| ScoreState.MigrationKeepsScores | rlvr/neurons/decentralized.py:362-373 | a version 1 file keeps every score |
| ScoreState.WhatARestartHandsOver | rlvr/neurons/decentralized.py:463-480 | which restored histories survive the first sync, and that an unowned survivor sums to zero |
| ScoreState.AnUnownedHistoryIsHandedOver | rlvr/neurons/decentralized.py:463-480 | a concrete accepted file whose history passes to a newcomer |
| Grading.CleanExactly | rlvr/v3/grading.py:225-357 | what a pass takes: in time, within limits, exactly the expected exit code and output, and for an invocation a directory to run in and a sound tree after |
| Grading.BlameIsTrue | rlvr/v3/grading.py:225-357 | the reason a candidate is given names something that happened, and the validator is blamed only for what it provides |
| Grading.SetupExactly | rlvr/v3/grading.py:378-423 | the task goes on iff there is no setup or it returned zero within its limits, and the validator is to blame iff the container could not run |
| Grading.RunOneCheck | rlvr/v3/grading.py:225-367 | when one check ends the run, who is blamed, and what is left on record |
| Grading.RunChecks | rlvr/v3/grading.py:197-375 | passes iff the tree is valid and every check is clean; otherwise the first unclean check decides, later ones are skipped, and a check is on record as passed iff it and all before it were clean, so never one the validator could not finish |
| Grading.TreeFaultsBlameTheMiner | rlvr/v3/grading.py:343-357 | any error of inspecting the tree after an invocation that did everything else right fails the miner and overwrites its pass |
| Grading.EvaluateRepository | rlvr/v3/grading.py:426-501 | the exact conditions for an exception to leave (a fault of the patch scratch space), for abandonment, for rejection with its reason, and for a pass |
| Grading.EvaluateTerminal | rlvr/v3/grading.py:504-618 | no exception leaves; the exact conditions for abandonment, for rejection and for a pass, with the script's exit code |
| Rounds.UniqueSlots | rlvr/v3/api.py:121-133 | the loop over the slot pool accepts iff no uid and no hotkey repeats |
| Rounds.UniqueResultsIsDistinct | rlvr/v3/api.py:271-302 | comparing list and set lengths is the same condition for commits and reveals |
| Rounds.GroupsPartition | rlvr/v3/round.py:561-566 | the groups hold every grant exactly once, one group per digest |
| Rounds.GroupGrants | rlvr/v3/round.py:564-566 | the loop builds those groups |
| Rounds.GroupsHaveLeaders | rlvr/v3/round.py:561-590 | each group is led by the first grant with its digest |
| Rounds.EvaluateSubmission | rlvr/v3/round.py:617-646 | an evaluation raises iff the patch scratch space of a repository task faults, and is never abandoned while everything the validator provides is ready |
| Rounds.GradeSubmission | rlvr/v3/round.py:589-669 | grading one group around the evaluation is the modelled task: graded iff nothing on the validator's side failed |
| Rounds.EnterKeepsInv | rlvr/v3/round.py:579-583 | taking the semaphore keeps the grading invariant |
| Rounds.LeaveKeepsInv | rlvr/v3/round.py:583-587 | ending a task, with or without a fault, keeps the grading invariant |
| Rounds.SlotsAreUsed | rlvr/v3/round.py:558-583 | a waiting task can take the semaphore iff fewer tasks than the policy allows hold it |
| Rounds.SomeTaskCanMove | rlvr/v3/round.py:558-588 | while a task is unfinished some task can move |
| Rounds.EveryInterleaving | rlvr/v3/round.py:558-674 | for every schedule the round is dead iff some group is unsound, iff some task faulted; if not dead every group was graded; a skipped task always comes with a fault |
| Rounds.RunGrading | rlvr/v3/round.py:671-674 | gathering the tasks under any scheduler terminates with a fault iff some group is unsound, and otherwise with every verdict; each outcome is what grading that group gives, or it never started |
| RoundProtocol.Dispatch | rlvr/v3/round.py:428-477 | one submission per slot and the signed responses by registration |
| RoundProtocol.QuorumCountsAnswers | rlvr/v3/round.py:473-479 | the size the quorum looks at counts the slots that answered with a signature |
| RoundProtocol.AcceptLease | rlvr/v3/round.py:309-468 | a lease is used iff it is well formed, for exactly the first N offered, under the released terms, and in time; unavailable iff nothing was offered or no usable lease came; otherwise the code names what is wrong |
| RoundProtocol.CheckGrants | rlvr/v3/round.py:549-553 | grading starts iff every grant has the task's format and is what its miner signed; otherwise the code names a grant that is not |
| RoundProtocol.Collect | rlvr/v3/round.py:680-689 | everything graded is collected and the first fault in grant order decides |
| RoundProtocol.GradedCoversReveal | rlvr/v3/round.py:527-577 | rejections and graded groups cover the reveal exactly, with no repeats |
| RoundProtocol.DigestGroups | rlvr/v3/round.py:561-590 | the digest groups partition the grants, and every member meets what its group's first grant meets |
| RoundProtocol.VerdictsAreRecorded | rlvr/v3/round.py:561-577 | however the grants are grouped, exactly the rejections and each grant's verdict are recorded, with its own latency and trajectory |
| RoundProtocol.ContextIsOwn | rlvr/v3/round.py:473-477 | the latency and trajectory on record for a miner are those of its own answer |
| RoundProtocol.RecordIsOwn | rlvr/v3/round.py:527-577 | whatever is on record for a miner is its own: a refused one is told the reason and nothing was graded, a granted one gets the grading its digest's first grant led, with its own latency and signed trajectory |
| RoundProtocol.JudgeReveal | rlvr/v3/round.py:494-702 | from the reveal to the result: the exact condition to complete, each miner's own evaluation, and for an abandoned round a cause that happened, with every refused miner reported |
| RoundProtocol.GradeReveal | rlvr/v3/round.py:558-702 | completed iff the grading of every digest's first grant is sound, then exactly one evaluation per revealed miner, by uid; otherwise what was graded so far is reported, and an exception leaves only if some grading raised it |
| SharedGrading.SharedVerdictIsOwn | rlvr/v3/round.py:561-577 | with no collision among the submitted bytes, the shared verdict is the verdict of the miner's own bytes |
| SharedGrading.GroupingChangesNoVerdict | rlvr/v3/round.py:561-668 | grading once per digest and grading each submission by itself, in two worlds that may differ in everything but the bytes, give the same result, latency and trajectory whenever both are sound |
| SharedGrading.RoundGradesOwnBytes | rlvr/v3/round.py:561-702 | a completed round tells each graded miner what its own bytes deserve |
| RoundProtocol.EvaluateRound | rlvr/v3/round.py:297-716 | the exact condition to complete; then one evaluation per offered front miner: refused ones rejected with their reason and no checks, granted ones as their own bytes were graded, passes only for grants; unavailable iff there is no usable lease; an abandoned round names something that happened; a missed quorum is decided by the offered miners' own answers |
| Offers.EligibleMiners | rlvr/v3/selection.py:20-56 | exactly the serving miners that are neither the owner nor validating |
| Offers.EligibleExactly | rlvr/v3/selection.py:20-56 | a serving miner is left out iff it has the owner's hotkey, or a permit and not a trust known to be zero or less |
| Offers.EligibleKeepOrder | rlvr/v3/selection.py:52-56 | eligible miners stand in the order they serve in |
| Offers.ComputeNextOffer | rlvr/v3/selection.py:59-80 | the previous order minus departed miners, then the newcomers in some order, cut at the limit |
| Offers.OfferIsExact | rlvr/v3/selection.py:59-80 | an offer repeats nobody, names only eligible miners and as many as the limit allows |
| Offers.OfferIsSendable | rlvr/v3/api.py:66-83 | the lease request takes every offer iff the policy asks for at most 256 miners |
| Offers.OrderIsKept | rlvr/neurons/decentralized.py:587-619 | between fresh draws every order starts with the first one minus whoever ever left |
| Offers.SameMinersUntilRedraw | rlvr/v3/round.py:353-359 | while the front stays eligible every dispatched lease until the next fresh draw is for all of it: for exactly those miners if the offer filled the front, and otherwise joined only by miners that were not eligible when the offer was made |
| Offers.OfferState.RoundCallback | rlvr/neurons/decentralized.py:587-619 | a fresh draw is earned iff the round completed or was dispatched and got too few answers from the front |
| Validator.SolverClients | rlvr/neurons/live.py:415-441 | exactly the serving miners of the metagraph, by increasing uid |
| Validator.ActiveAreServing | rlvr/neurons/decentralized.py:621-628 | a round is scored for exactly the serving miners, under their hotkeys on the chain |
| Validator.ValidatorState.Restart | rlvr/neurons/decentralized.py:324-490 | a new process that loads a saved file goes on with the record the file was saved with, and with a refused file starts a new one |
| Validator.ValidatorState.RoundCallback | rlvr/neurons/decentralized.py:575-639 | one whole callback keeps the ledger the tail of the record; the record gains a round only if it completed, with one evaluation per offered front miner, and every one still serving has what its verdict earned as newest observation; it defers exactly when the server asked for a pause, and saves the state it reached |
| Validator.CallbackPacesTheLoop | rlvr/neurons/validator.py:165-180 | after a callback a poll starts a round iff a full interval of blocks has passed; if the server asked for a pause, iff the clamped pause and its cushion have |
| Cadence.BaseNeuron.ShouldRun | rlvr/neurons/base.py:118-131 | when the gate opens and when it moves its anchor |
| Cadence.ValidatorNeuron.DeferRoundsUntil | rlvr/neurons/validator.py:82-94 | a deadline is only ever extended |
| Cadence.ValidatorNeuron.Run | rlvr/neurons/validator.py:157-190 | every run over any polls, until told to stop or ended by a raise or the round limit, is a lawful history: a round starts iff the deadline the last round set has passed, or there is none and the last round is an interval back; weights iff a round has run and the last weights are an interval back |
| Cadence.NoRoundBeforeADeadline | rlvr/neurons/validator.py:165-180 | no round starts before any deadline any earlier round set, nor the initial one |
| Cadence.OrdinaryRoundsAreSpaced | rlvr/neurons/validator.py:165-180 | a round no deadline asked for is at least an interval after the previous round, however many polls were suppressed |
| Cadence.OrdinaryRoundsAreRare | rlvr/neurons/validator.py:157-190 | over any run such rounds number at most one per interval of blocks, plus one |
| Cadence.WeightsAreRare | rlvr/neurons/validator.py:183-189 | weights go out only after a first round and at most once per interval of blocks, plus one |
| Cadence.RoundsExactly | rlvr/neurons/validator.py:157-182 | a poll starts a round iff the clock has passed every deadline the last round set, or there is none and a full interval of blocks lies behind the last round, or there was no round yet |
| Cadence.WeightsExactly | rlvr/neurons/validator.py:183-189 | weights go out iff a round has run, this one did not end the loop, and a full interval of blocks lies behind the last weights, if any |
| Cadence.PauseIsExact | rlvr/neurons/decentralized.py:692-699 | after a pause the server asked for, rounds resume exactly once the clamped wait and its cushion have passed |
| Unicode.DecodeEncoded | rlvr/v3/canonical.py:74-134 | UTF-8 decoding inverts encoding |
| Unicode.EncodeDecoded | rlvr/v3/canonical.py:75-78 | only encodings decode |
| Unicode.KnownEncodings | rlvr/v3/canonical.py:114-128 | one character of each length in UTF-8 and UTF-16 |
| Unicode.BytesCompareUnits | rlvr/v3/canonical.py:114-114 | comparing big-endian UTF-16 bytes compares code units, as section 3.2.3 of RFC 8785 asks |
| Unicode.Utf16Injective | rlvr/v3/canonical.py:114-114 | different keys have different encodings |
| Canonical.ObjectFromPairs | rlvr/v3/canonical.py:28-34 | the dictionary of the pairs, refused iff a key repeats |
| CanonicalLaws.StringReadsBack | rlvr/v3/canonical.py:101-102 | an escaped string parses back, whatever follows |
| CanonicalLaws.NumberReadsBack | rlvr/v3/canonical.py:21-25 | a printed integer in range parses back |
| CanonicalLaws.PrintedReadsBack | rlvr/v3/canonical.py:74-121 | every valid value's text parses back to it wherever the text stands |
| CanonicalIdentity.ValidatedNeverFails | rlvr/v3/canonical.py:124-134 | canonical bytes exist exactly for validated values: neither serializing nor encoding ever fails on one |
| CanonicalIdentity.RoundTrip | rlvr/v3/canonical.py:74-134 | strictly parsing canonical bytes gives the same value, keys in strictly increasing UTF-16 code unit order |
| CanonicalIdentity.BytesIdentifyValues | rlvr/v3/canonical.py:94-134 | two values have the same bytes iff they are the same value |
| CanonicalIdentity.AcceptedIsCanonicalizable | rlvr/v3/canonical.py:74-91 | whatever the strict parser accepts is valid, has no repeated keys, and canonicalizes to bytes that parse to the same value |
| CanonicalIdentity.CanonPrintsSame | rlvr/v3/canonical.py:111-120 | member order never changes the text |
| CanonicalSpacing.SpacesDoNotMatter | rlvr/v3/canonical.py:74-91 | a value is read as it is written, members in their order, whatever spaces, tabs and line ends stand between the tokens and around them |
| CanonicalShortest.CanonicalIsShortest | rlvr/v3/canonical.py:74-134 | no text the strict parser reads as the value is shorter than the canonical one, and one of the same length with sorted keys and lower case escapes is the canonical one |
| CanonicalShortest.CanonicalExactly | rlvr/v3/canonical.py:94-134 | bytes are the canonical bytes of a value iff they parse to it with keys in order and lower case escapes and are as short as any that parse to it |
| CanonicalShortest.KnownEscapes | tests/test_v3_wire_primitives.py:214-221 | the escapes the tests spell out |
| CanonicalShortest.LimitsAreExact | rlvr/v3/canonical.py:44-71 | canonical bytes exist for an integer iff its magnitude is below 2 ** 53, and for nested arrays iff there are at most 64 |
| Nonces.NonceCache.Prune | rlvr/protocol.py:367-378 | drops the stale prefix |
| Nonces.NonceCache.CheckAndAdd | rlvr/protocol.py:380-392 | the decision and the new cache; the size never exceeds the limit |
| Nonces.FreshAreNeverEvicted | rlvr/protocol.py:367-378 | at any clock, an entry inside the window stays |
| Nonces.PruningIsExact | rlvr/protocol.py:367-378 | in time order, dropping the stale prefix removes every stale entry |
| Nonces.RunRefines | rlvr/protocol.py:347-392 | over every run with a nondecreasing clock the cache is the live part of everything ever accepted |
| Nonces.ReplayNeedsAheadOfTime | rlvr/protocol.py:295-300 | a second acceptance needs a timestamp further ahead than the window exceeds the skew and the gap between the two clock readings |
| Nonces.AcceptedAtMostOnce | rlvr/protocol.py:347-392 | not dated ahead and window at least skew plus gap, or window at least twice the skew plus gap: accepted at most once over any run |
| Nonces.AheadOfTimeCanBeReplayed | rlvr/protocol.py:347-392 | the condition is exact: otherwise some replay within the gap is accepted |
| Nonces.EqualWindowIsNotEnough | rlvr/protocol.py:347-353 | a concrete replay with the deployed window and skew and no gap |
| Nonces.GapsLetReplaysIn | rlvr/neurons/demo_miner.py:940-949 | concrete replays through a gap of one millisecond, of a request not dated ahead and against twice the skew |
| Trajectories.IndexEvents | rlvr/v3/trajectory.py:206-216 | the two dictionaries index calls and results, or an id repeats |
| Trajectories.CountFinite | rlvr/v3/trajectory.py:222-229 | the finite and the total number of alternatives over all model turns |
| Trajectories.FewMayBeMissing | rlvr/v3/trajectory.py:222-231 | enough alternatives are finite iff at most 15 in 100 are not |
| Trajectories.ValidateEvents | rlvr/v3/trajectory.py:192-231 | accepts iff of allowed length, numbered from zero, with a model turn, one matching final submission at the end, every call answered once, later, and at least 85 % of the alternatives finite |
| Agent.Generate | rlvr/neurons/demo_miner.py:796-905 | the loop equals its step-by-step specification for every sequence of replies |
| Agent.RunExactly | rlvr/neurons/demo_miner.py:811-905 | every run told from the replies alone: where it ends, what it uploads, and how many model and tool calls it made |
| Agent.AcceptedIsUploaded | rlvr/neurons/demo_miner.py:835-839 | the first accepted reply a run gets to ends it and is uploaded |
| Agent.UploadedOnlyIf | rlvr/neurons/demo_miner.py:818-847 | what is uploaded was accepted, out of time, or sent after two others were sent back; or time ran out and it is the last rejected reply |
| Agent.RunIsBounded | rlvr/neurons/demo_miner.py:796-905 | at most budget + 2 + 1 model calls and at most budget tool calls, one that raises included |
| Agent.AnswersAreSourced | rlvr/neurons/demo_miner.py:830-841 | every answer's events end in the model turn its submission was extracted from |
| Agent.GivesUpExactly | rlvr/neurons/demo_miner.py:818-905 | where a run stops, that the fallback is then present iff some reply was checked, and that nothing is uploaded iff the model raised, its reply could not be read or checked, it asked for too much after the last reask, a call raised, or time ran out before any reply was checked |
| Agent.ReplyIsLostExactly | rlvr/neurons/demo_miner.py:818-905 | a checked reply is lost iff the run stops at one of those four errors |
| Agent.TimeoutKeepsReply | rlvr/neurons/demo_miner.py:815-829 | running out of time never loses a checked reply |
| Agent.WithoutCallsReplyIsKept | rlvr/neurons/demo_miner.py:818-847 | a checked reply is kept while the model sends no calls and neither it nor a check raises |
| Agent.OverBudgetLosesReply | rlvr/neurons/demo_miner.py:848-859 | a concrete run that loses one to over-long requests |
| Agent.UncheckableReplyLosesReply | rlvr/neurons/demo_miner.py:836-836 | for every budget, a run that loses one to a reply whose check raises |
| Agent.Number | rlvr/neurons/demo_miner.py:770-771 | events are numbered from zero |
| Agent.AnswersAreShort | rlvr/neurons/demo_miner.py:811-893 | an answer has at most one event per model call and two per tool call |
| Agent.TrajectoryIsValid | rlvr/neurons/demo_miner.py:748-785 | under any allowed tool budget, a trajectory assembled from an answer is valid iff enough of the provider's alternatives are finite |
| Archive.ValidateName | rlvr/v3/archive.py:123-135 | accepted names are safe and split into plain segments |
| Archive.NameExactly | rlvr/v3/archive.py:123-135 | a name is accepted iff it is normalised text of bounded size without null or backslash, and no part between slashes is empty, a dot or two dots |
| Archive.InspectMembers | rlvr/v3/archive.py:138-168 | accepts iff within the limits, every name valid, paths distinct, and no file on the way to another member; reports the file bytes |
| Extraction.FileSystem.MakeDirs | rlvr/v3/archive.py:178-183 | succeeds iff nothing on the way is a file, and adds exactly the missing directories |
| Extraction.FileSystem.ExtractMembers | rlvr/v3/archive.py:171-200 | for compatible members in any order the only possible failure is contents that differ from the header; the result holds exactly the members and their directories |
| Extraction.AnyOrderWillDo | rlvr/v3/archive.py:138-200 | an accepted archive is compatible in every member order |
| Extraction.OnlyTheMembers | rlvr/v3/archive.py:171-200 | only paths below the destination are new, the new files are exactly the members, and their bytes stay within the limit |
| Workspace.FilesUnder | rlvr/v3/miner_workspace.py:26-48 | the stack walk with a limit is the first `limit` entries of the recursive listing |
| Workspace.FindFiles | rlvr/v3/miner_workspace.py:77-85 | the page and next offset of that listing |
| Workspace.ListingMember | rlvr/v3/miner_workspace.py:26-48 | the listing holds exactly the regular files |
| Workspace.ListedOnce | rlvr/v3/miner_workspace.py:26-48 | and none twice |
| Workspace.ListingIsOrdered | rlvr/v3/miner_workspace.py:26-48 | in every directory its own files come first, by name, then what is in its subdirectories, by name |
| Workspace.PagesShowEveryFile | rlvr/v3/miner_workspace.py:77-85 | following next_offset from 0 ends and shows every file exactly once |
| WalkOrder.SameLength | rlvr/v3/miner_workspace.py:26-48 | the walk and the described order list equally many files |
| WalkOrder.DescribedOrderExactly | rlvr/v3/miner_workspace.py:26-48 | the walk gives the described order iff, in every directory, no subdirectory with files sorts before a regular file |
| WalkOrder.DescribedOrderDiffers | rlvr/v3/miner_workspace.py:26-48 | a tree where the two orders differ |
| Hunks.ParserIsTheExpression | rlvr/neurons/demo_miner.py:296-296 | the left-to-right reader accepts exactly what the header expression matches, with its groups |
| Hunks.RecountLines | rlvr/neurons/demo_miner.py:309-329 | the loop rewrites each header to the counts of the body under it and copies every other line |
| Hunks.RecountHunks | rlvr/neurons/demo_miner.py:299-330 | the same on bytes; bytes that are not UTF-8 are returned as they are |
| Hunks.RepairKeepsLines | rlvr/neurons/demo_miner.py:299-330 | line count and non-header lines are kept, headers keep their starts and section, and their counts are those of the body under them in the result |
| Hunks.CountsAreSides | rlvr/neurons/demo_miner.py:299-330 | the counts are of the two files: the body without added lines and notes, and without removed lines and notes |
| Hunks.RepairIsIdempotent | rlvr/neurons/demo_miner.py:299-330 | repairing lines twice is repairing once |
| Hunks.BytesRepairIsIdempotent | rlvr/neurons/demo_miner.py:299-330 | the same of the bytes |

## Left out

- RoundProtocol.EvaluateRound: faults of storage, download and extraction are one code each for the workspace, the verifier and grading; failure stages, dispatch failure reasons and the feedback call are not modelled, because no decision depends on them.
- Scoring.PaymentsAreFair: the exponential speed curve is any curve that starts at 1 and does not increase; its exact shape is not modelled, because the released floor of 1 switches it off.
- Ledger.EvalEngine.Record: uids are natural numbers, so the error for a negative uid is not modelled; the wire format cannot carry one.
- Ledger.EvalEngine.RefreshScore: works over real numbers, so rounding, NaN and infinity are not modelled.
- Rounds.UniqueSlots: upload identifiers and the bindings of a slot to its lease are not modelled, because each is one comparison.
- ScoreState.SaveScores: the derived scores written for operators are not modelled, because the loader only compares them; a failed write is the missing file of the callback.
- SharedGrading.GroupingChangesNoVerdict: that an evaluation which ran to its end depends on nothing but the bytes is assumed, because containers are foreign.
- Validator.ValidatorState.RoundCallback: diagnostics, failure notices and trace checks after the save are not modelled, because nothing depends on them.
- Offers.ComputeNextOffer: the sort before the shuffle is dropped, because the shuffle is any permutation.
- Agent.Generate: the messages sent to the model, timeouts inside a call and the outcomes of the submission checks are inputs of the loop.
- Extraction.FileSystem.ExtractMembers: file modes other than the executable bit, and the partial file left by a member that turns out truncated, are not modelled.
- Workspace.FilesUnder: an error from inspecting a single entry, which ends the call with an error value, is not modelled.
- Hunks.ParserIsTheExpression: which characters count as digits is a parameter that includes the ASCII digits and excludes comma, space and newline.
- CanonicalIdentity.RoundTrip: the Unicode NFC test is a parameter; a dictionary key that is not a string counts as an unsupported value.
- HTTP, retries, uploads, signatures, SHA-256, zstd and tar decoding: outside the decisions modelled here.
- Docker execution and the watchdogs around it: a container is any result or an error.
- Wire field limits, settings and policy constants beyond those the results mention: single comparisons.
- Weight submission to the chain and its diagnostics: an unseen library.
- The earlier executors, the dataset writer, benchmarks and log rendering: no state worth a theorem.
