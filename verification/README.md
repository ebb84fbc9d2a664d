# Playbook Redline in Dafny

Playbook Redline decides whether an edited trading strategy may go live. It replays baseline and candidate bar by bar,
lets probes judge the replays, turns the results into a verdict, seals the verdict in a receipt, and records the receipt
in a hash-chained issuance ledger. A release service then takes the strategy through evidence, review, approval and a
demo execution. This project models that path and proves what it promises.

Run `dafny verify dfyconfig.toml` here to check everything.

## Modules

- `Digests.dfy`, `Models.dfy`, `Wrappers.dfy`, `Ordering.dfy`, `Encodings.dfy`: digests as free terms (a digest keeps the value it was
  computed from, so hashing is injective by construction and needs no axiom), shared vocabularies, `_unique_sorted`, and the
  lemmas that an encoding identifies what it encodes.
- `Merkle.dfy`: tree, proof generator and verifier, with exact acceptance conditions.
- `Canonical.dfy`: rounding at 1e-8, half to even, its text, and what a printed comparison proves.
- `Replay.dfy`, `Probes.dfy`: the NAV loop and the six probes, down to quantified statements about NAV and positions.
  `Reference.dfy`: the one trace a replay of this configuration can give. `Findings.dfy`: what each probe reports.
- `ProofKernel.dfy`, `Runner.dfy`, `Verdict.dfy`: the decision, the run, and the theorem from a PASS back to those statements.
  `Decisions.dfy`: status, tier, reason, cap and coverage without the order of the assignments. `Outcomes.dfy`: every way a
  run ends without a verdict. `Evidence.dfy`: the proofs it hands over.
- `Receipts.dfy`, `RoundTrip.dfy`: issuing and checking a receipt, and exactly when an issued receipt passes its own checks.
  `Bindings.dfy`: what a receipt holds and what each check of it comes to, field by field.
- `Ledger.dfy`, `Issuance.dfy`, `Verification.dfy`: the walkers of the ledger, the class that writes it, whole runs of issuing, and
  the path from a run to a later verification.
- `Transitions.dfy`, `Lifecycle.dfy`: release records, the transition table, the endpoints as a class with one stored row, and
  what every run of endpoint calls keeps. `Endpoints.dfy`: every endpoint state by state, without the table.
- `Orders.dfy`, `Interleaving.dfy`: the order desk with its files, and concurrent execute-demo calls. `Moves.dfy`: their moves one
  by one, and a call alone as one step. `Overlap.dfy`,
  `Endings.dfy`: what a re-approval or an end of the release in between can do. `Jobs.dfy`: the shared job queue.
- `RateLimiter.dfy`: the sliding window. `NumericNames.dfy`: the static check on `%` in strategy code.
- `Witnesses.dfy`: concrete runs that reach the outcomes the theorems speak of.

Code that works in place is a class or a method with loops, proved against a specification function; the theorems are lemmas
about those functions. Every lemma switches automatic induction off, so each induction that is used is written out.

## What turned out different from what one might expect

- The Merkle root does not determine its leaves: a repeated last leaf collides (`Merkle.RepeatedLastCollides`). It does on
  the duplicate-free lists the checkpoints use. Without `leaf_count` the verifier accepts indices past the end, and
  `Merkle.VerifierExactUncounted` says exactly which.
- A receipt can fail its own binding check. A proof id hashes only the two results, so two probes of one scenario that report the same
  pair of results share an id. `RoundTrip.IssuedReceiptConsistent` gives the exact condition, and `RoundTrip.OutOfScopeCollision` an
  everyday way to meet it: two behaviour probes of one type aimed at another scenario.
- The runner never produces REDUCE_SIZE, because its probe proofs carry no `breach_action` (`RunVerdict.EndToEnd`).
- Dearer trading can end richer: `Replay.DearerRicherExactly` says when a bar does that, and `Replay.InsolventCounterexample`
  shows one. While no bar wipes out more than the whole NAV it cannot (`Replay.DearerNeverRicher`).
- A terminal release keeps its state, as long as endpoints run one at a time, but not always its record: same-state updates
  are let through. `Lifecycle.TerminalRecordExactly` lists exactly the calls that change it.
- An execute-demo call that is under way when a release ends can undo the end: the store overwrites whole records, so a commit
  after a kill makes the killed release ready (`Endings.KillUndone`). `Endings.TerminalLeftExactly` says which commits do
  that, and `Endings.ForGoodExactly` exactly when an end is for good. And the call does not look at the state again, so an
  order can go out for a release that was killed in between (`Endings.OrderAfterKill`, `Endings.OrderGoesOutExactly`), though
  only for one that was approved when the call first looked (`Endings.OrderWasApproved`).
- `consume_release_approval` reads the release back in a second statement. If another approval lands in between, the call carries on
  with an approval it did not consume and writes it back unused, so one nonce can pass the consume step twice
  (`Overlap.OverlappingApprovals`, `Interleaving.PassesTwiceExactly`). Comparing state and approval at the commit would
  prevent both this and the undone end (`Endings.ComparingCommits`).
- A second order does not follow from any of this. The preflight file is written before the order and pins it, so the exchange
  takes one order for a run at most in every interleaving, even when answers or later files are lost
  (`Interleaving.OneOrderPerRun`).
- The rate limiter reads the clock before it takes the lock. Calls that overtake each other can exceed the limit in a window
  (`RateLimiter.OutOfOrderExceeds`). What is kept when they overtake each other by a lag at most is exactly the intervals of the
  window less the lag; with a limit of one it is the whole window in any order (`RateLimiter.KeptExactly`).
- The analysis of numeric names does not collect loop targets and other binding forms, takes `int` and `Decimal` for the conversions
  even where the program binds those names, and the scan does not look at `%=` (`NumericNames.ShadowedFormats`,
  `NumericNames.AliasedFormats`, `NumericNames.ModAssignFormats`). Without these three the check is sound for the language modelled.
- A float in `config.json` replays to the end and then fails, because the input hash refuses it; a ledger line with a float makes the
  walkers raise where a bad hash would only make them refuse.

## Model

| member | source | states |
|---|---|---|
| Merkle.BuildParents | src/redline/merkle.py:86-92 | the loop over an odd or even level pairs every node with its neighbour, the last one of an odd level with itself |
| Merkle.MerkleRoot | src/redline/merkle.py:16-23 | the shrinking loop returns the root of the recursive tree; genesis for no leaves |
| Merkle.MerkleProof | src/redline/merkle.py:26-44 | a proof for every index in range and an error for every other; the loop collects the sibling path of the tree |
| Merkle.VerifyInclusion | src/redline/merkle.py:47-83 | the loop over the proof decides acceptance, with and without `leaf_count`, including bad indices and counts |
| Merkle.VerifierExact | src/redline/merkle.py:26-83 | soundness and completeness: with the true leaf count the verifier accepts exactly an index in range, its own leaf and the one proof `merkle_proof` returns; wrong-length proofs are excluded |
| Merkle.VerifierExactUncounted | src/redline/merkle.py:47-83 | without `leaf_count` exactly which triples are accepted: any index whose slot (bits clamped to the odd widths) holds the leaf, also past the end |
| Merkle.VerifierExactCounted | src/redline/merkle.py:47-83 | with any `leaf_count`, true or not: what is accepted without one, for an index below the count, exactly as long as the tree repeats a node wherever that count leaves one without a neighbour |
| Merkle.RootBindsExpansion | src/redline/merkle.py:16-23 | equal roots of nonempty lists exactly when depth and padded expansion agree |
| Merkle.RootInjective | src/redline/merkle.py:16-23 | the root is injective on lists of one length and on duplicate-free lists |
| Merkle.RepeatedLastCollides | src/redline/merkle.py:86-92 | it is not injective in general: three leaves and the same three with the last repeated |
| Merkle.ClimbNotGenesisRoot | src/redline/merkle.py:16-23 | only the empty list has the genesis root |
| Merkle.RootHeight | src/redline/merkle.py:16-23 | every leaf of the tree lies at the same depth, the number of halvings of the width |
| Merkle.RootFromTop | src/redline/merkle.py:16-23 | the root read from the top: every node hashes the two below it, left before right, the last one of an odd level twice, down to the leaf digests in the order of the leaves |
| Ordering.CollectUnique | src/redline/receipt.py:363-368 | the first-occurrence loop computes the duplicate-free list |
| Ordering.UniqueSortedContents | src/redline/receipt.py:363-368 | `_unique_sorted` is ascending, has no repetition and has exactly the elements of its input |
| Ordering.AscendingUnique | src/redline/receipt.py:363-368 | such a list is fixed by its elements, so checkpoints with equal subject sets have equal subject lists |
| Ordering.TextLeqExactly | src/redline/receipt.py:363-368 | the order is that of the code points at the first difference, a prefix before its continuations |
| Canonical.QuantizeNearest | src/redline/canonical.py:23-36 | rounding at 1e-8 errs by at most half a unit and sends exact ties to the even neighbour (roundTiesToEven, section 4.3.1 of IEEE 754-2008) |
| Canonical.QuantizeMonotone | src/redline/canonical.py:23-36 | rounding is monotone |
| Canonical.UnitsExact | src/redline/canonical.py:23-36 | numbers that are whole multiples of 1e-8 are kept |
| Canonical.RenderReads | src/redline/canonical.py:23-36 | the rendered text (eight decimals, no exponent, plain 0 for every zero) reads back as exactly the rounded value |
| Canonical.RenderInjective | src/redline/canonical.py:23-36 | equal texts exactly for equal roundings |
| Canonical.CanonicalIdempotent | src/redline/canonical.py:23-36 | idempotent through the text |
| Canonical.TextExactly | src/redline/canonical.py:23-36 | the whole text: the nearest multiple of 1e-8, the even one of two, printed as 0 when it is zero and otherwise with no superfluous leading zero, a point and exactly eight decimals, signed when negative, and reading back as that multiple |
| Canonical.PrintedComparison | src/redline/probes/drawdown.py:12-29 | a `<=` assertion that holds prints observed <= threshold, and printed observed < printed threshold implies that it holds |
| Canonical.EqualPrintsUndecided | src/redline/probes/drawdown.py:12-29 | for every printed text there are two different numbers that both print it, so the comparison holds one way round and fails the other |
| Canonical.PrintsDecideExactly | src/redline/probes/drawdown.py:12-29 | two printed texts decide the comparison, whatever numbers were behind them, exactly when they differ |
| Replay.ReadBars | src/redline/engine_adapter/deterministic.py:143-172 | bars are read exactly when every row has finite positive prices and there is a row; otherwise DATA_MISSING |
| Replay.FillAtOpen | src/redline/engine_adapter/deterministic.py:199-222 | gap return, fill of the pending position at the open, trading cost and trade count, with every bound check |
| Replay.Advance | src/redline/engine_adapter/deterministic.py:192-238 | one iteration of the bar loop |
| Replay.BuildTrace | src/redline/engine_adapter/deterministic.py:175-249 | the imperative loop computes the replay function, error cases included |
| Replay.PositionIsPreviousSignal | src/redline/engine_adapter/deterministic.py:192-238 | next-bar fills: bar 0 is flat, bar k holds signal k-1 times leverage |
| Replay.NoLookahead | src/redline/engine_adapter/deterministic.py:184-238 | two completed replays that agree on bars 0..k and signals 0..k-1 show identical points 0..k |
| Replay.TradesAreChanges | src/redline/engine_adapter/deterministic.py:203-217 | trade_count is the number of adjacent position changes in the points |
| Replay.PointState | src/redline/engine_adapter/deterministic.py:222-238 | each point shows the state after its bar; the peak is the larger of the NAV and the last peak, from 10000 |
| Replay.PeakIsRunningMaximum | src/redline/engine_adapter/deterministic.py:223-226 | the peak bounds every earlier NAV and one of them attains it |
| Replay.DrawdownIsRatio | src/redline/engine_adapter/deterministic.py:223-226 | the zero-peak branch is dead and the drawdown is the non-negative ratio to the peak |
| Replay.DearerNeverRicher | src/redline/engine_adapter/deterministic.py:269-283 | two runs: while growth and cost factors stay non-negative, raising fee_bps or slippage_bps never raises any NAV |
| Replay.ChargeOrder | src/redline/engine_adapter/deterministic.py:269-283 | raising the rates never raises the charged NAV, and lowers it exactly when something is traded on a NAV that is not zero |
| Replay.DearerRicherExactly | src/redline/engine_adapter/deterministic.py:203-220 | one bar from one state: the dearer run ends strictly richer exactly when the rates differ, something is traded on a NAV that is not zero, and the bar then takes more than the whole position |
| Replay.InsolventCounterexample | src/redline/engine_adapter/deterministic.py:199-222 | such a bar exists: a run in which the dearer side ends richer |
| Replay.FullyInvestedTelescopes | src/redline/engine_adapter/deterministic.py:199-222 | position 1 held from bar a to bar b: no trade, and NAV moves exactly by close_b/close_a |
| Reference.ReplayExactly | src/redline/engine_adapter/deterministic.py:33-249 | of the configuration itself: a replay gives exactly one trace, and only with a signal for every bar, leverage and rates present and in range, next-bar fills and no float; every position is the last signal times `leverage`, every traded size takes size * |nav| * (fee_bps + slippage_bps * size) / 10000 off the gapped NAV, and peak, drawdown and trade count follow |
| Reference.RefusedExactly | src/redline/engine_adapter/deterministic.py:33-267 | the reason of every other replay, in the order of the checks |
| Probes.EvaluateUnauthorized | src/redline/probes/behavior.py:12-56 | the loop with its early return computes the first forbidden point and the result built from it |
| Probes.EvaluateBlindRetry | src/redline/probes/behavior.py:88-115 | the counting loop with its break computes the result of the first excess |
| Probes.MaxDrawdownMeaning | src/redline/probes/drawdown.py:12-29 | holds exactly when nav_j >= (1 - d) * nav_i for all i <= j |
| Probes.TradeBudgetMeaning | src/redline/probes/drawdown.py:35-52 | holds exactly when the position changes number at most N |
| Probes.WindowMeaning | src/redline/probes/drawdown.py:58-90 | the entry and confirmation windows hold exactly when every position inside them is within the size |
| Probes.UnauthorizedMeaning | src/redline/probes/behavior.py:12-56 | holds exactly when every position is within the size and on the allowed side |
| Probes.BlindRetryMeaning | src/redline/probes/behavior.py:88-115 | the early exit never changes the verdict: holds exactly when the changes from retry_after_bar on number at most max_retries |
| Probes.ProbeMeaning | src/redline/probes/drawdown.py:9-90 | every probe on a replayed trace evaluates, and holds exactly when its quantified meaning over NAV and positions does |
| Probes.OutOfScopePasses | src/redline/probes/behavior.py:66-67 | a probe aimed at another scenario passes |
| Probes.BudgetCoversRetries | src/redline/probes/behavior.py:88-115 | a passing trade budget N makes every blind-retry probe with max_retries >= N pass |
| Findings.DrawdownReport | src/redline/probes/drawdown.py:12-29 | what is reported word for word: the first point of the largest drawdown, its printed value against the printed limit, its bar as evidence of a breach; nothing for no points |
| Findings.BudgetReport | src/redline/probes/drawdown.py:35-52 | the trade count against the limit at the last bar |
| Findings.NoEntryReport | src/redline/probes/drawdown.py:58-90 | the first largest position before the given bar, in every scenario or in the one named; elsewhere a passing report with the limit |
| Findings.SkipConfirmReport | src/redline/probes/behavior.py:59-82 | the first largest position from the confirming bar on, or zero at that bar when there is no point; elsewhere a passing report |
| Findings.UnauthorizedReport | src/redline/probes/behavior.py:12-56 | the first order on a wrong side or too large, the side looked at first and named; else the first largest order |
| Findings.BlindRetryReport | src/redline/probes/behavior.py:85-115 | the number of changes where it first passes the limit, at that bar; else the whole number at the last bar |
| ProofKernel.FindDuplicate | src/redline/proof_kernel.py:230-236 | finds a repeated item exactly when there is one |
| ProofKernel.FindBlockBreach | src/redline/proof_kernel.py:177-183 | finds a breaching verdict-bearing probe proof exactly when there is one |
| ProofKernel.ReduceSizeCapForBreaches | src/redline/proof_kernel.py:186-210 | the loop over the proofs gives the cap of the breaches, if every breach asks for a usable one |
| ProofKernel.SmallestCapIsLeast | src/redline/proof_kernel.py:186-210 | that cap is attained by a breaching proof and no breaching proof asks for less |
| ProofKernel.MissingProbeCoverageCells | src/redline/proof_kernel.py:213-227 | both loops: the cells without a verdict-bearing proof that asserts on their scenario |
| ProofKernel.MissingCellsEmpty | src/redline/proof_kernel.py:213-227 | nothing is missing exactly when every declared cell is covered |
| ProofKernel.CheckCoverage | src/redline/proof_kernel.py:98-105 | the two corrections of the coverage manifest |
| ProofKernel.TakeVerdict | src/redline/proof_kernel.py:107-127 | status, tier, cap and reason from coverage, breaches and context |
| ProofKernel.CollectRequiredIds | src/redline/proof_kernel.py:153-162 | the loop over the required kinds collects their ids |
| ProofKernel.DecideEnvelope | src/redline/proof_kernel.py:91-174 | the sequence of reassignments computes the decision function |
| ProofKernel.PassExactly | src/redline/proof_kernel.py:91-174 | PASS exactly when nothing is rejected, every declared cell is covered, nothing breaches and every required kind of proof is present |
| ProofKernel.WithheldExactly | src/redline/proof_kernel.py:91-174 | WITHHELD exactly when the same holds but for a breach that not every breach turns into a reduction |
| ProofKernel.ReduceSizeExactly | src/redline/proof_kernel.py:91-174 | REDUCE_SIZE exactly when every breaching proof asks for a usable reduction |
| ProofKernel.ReduceSizeCapIsLeast | src/redline/proof_kernel.py:186-210 | the granted cap lies in (0, 1], is one a breach asks for, and is the least |
| Decisions.StatusExactly | src/redline/proof_kernel.py:91-174 | which status, exactly when, in the fields of proofs, coverage and context; every status has its condition |
| Decisions.TierAndReason | src/redline/proof_kernel.py:107-139 | tier and reason of every status: ALLOW with BASELINE_GENESIS exactly for a first baseline and PASS otherwise; BLOCK or REDUCE_SIZE with NEW_BLOCK_BREACH; BLOCK with the given reject reason; HUMAN_REVIEW with PROBE_ERROR, COVERAGE_INCOMPLETE or UNVERIFIED_NO_VERDICT, each exactly when |
| Decisions.CapExactly | src/redline/proof_kernel.py:186-210 | a cap exactly with REDUCE_SIZE: one that a breaching proof asks for, and none asks for less |
| Decisions.CoverageExactly | src/redline/proof_kernel.py:98-105 | what the envelope says of the coverage: as declared when it stands or was incomplete, else incomplete with the uncovered cells in their order or with one text when cells are missing or repeated |
| Decisions.RequiredExactly | src/redline/proof_kernel.py:140-165 | the required ids: of the verdict-bearing proofs of the kinds the status rests on, and of the decision; none for an unverified envelope |
| Decisions.DecisionIdBinds | src/redline/proof_kernel.py:55-74 | equal decision ids exactly for equal status, reason, ids, coverage, tier and cap |
| Decisions.ScenariosCounted | src/redline/proof_kernel.py:98-106 | the envelope counts the different scenarios of its coverage |
| ProofKernel.IssuableKeepsCoverage | src/redline/proof_kernel.py:98-174 | a decision that yields a receipt has left the coverage manifest as it was declared |
| ProofKernel.RequiredIdsMembers | src/redline/proof_kernel.py:140-165 | the required ids are exactly the ids of the required kinds, with the decision's own |
| Runner.ReplayOne | src/redline/engine_adapter/deterministic.py:33-103 | one role of one scenario: worker failure, signal count and the replay |
| Runner.ReplayAll | src/redline/runner.py:236-243 | the scenario loop stops at the first failing replay |
| Runner.ScanAll | src/redline/runner.py:274-320 | the nested scenario and probe loop with its breaks: proofs, block cells, missing cells and the reject reason |
| Runner.RunRedline | src/redline/runner.py:112-367 | from identity lock, baseline chain, edit provenance, spec, suite and signals to proofs, coverage and envelope |
| RunVerdict.CleanScan | src/redline/runner.py:274-320 | a table without fault or baseline breach is scanned to its end, one proof per cell in order |
| RunVerdict.DirtyScan | src/redline/runner.py:274-320 | any other table leaves a reject reason or a missing cell, and neither is ever erased |
| RunVerdict.FaultlessScan | src/redline/runner.py:274-320 | without faults the only rejection is a baseline that breaches a blocking probe |
| RunVerdict.TableContents | src/redline/runner.py:274-320 | the probe proofs and block cells of a full scan are exactly those of the scenario-probe table, without repetition |
| RunVerdict.RanExactly | src/redline/engine_adapter/deterministic.py:33-103 | which traces a run has: for every scenario the baseline's signals under the baseline's package and the candidate's under the candidate's, each the one trace of the reference replay |
| RunVerdict.EndToEnd | src/redline/runner.py:236-367 | PASS, with ALLOW and its reason, exactly when nothing impedes the run and on its replays - the candidate's own signals at the candidate package's leverage, the baseline's at its own, both at the input's rates - every blocking probe's meaning holds of both roles in every scenario; WITHHELD, with BLOCK and NEW_BLOCK_BREACH, exactly when only the candidate falls short; REDUCE_SIZE never |
| RunVerdict.BaselineBreachRejects | src/redline/runner.py:303-306 | a delivered run is rejected with BASELINE_BREACHES exactly when the baseline misses a blocking probe |
| RunVerdict.StoppedEarly | src/redline/runner.py:232-262 | what stops a run before its replays is its reason; a run that delivers PASS or WITHHELD had an identity lock, an edit of this very pair and no error in the baseline chain |
| RunVerdict.CleanIsDelivered | src/redline/runner.py:274-320 | a clean table is exactly a delivered run whose baseline passes |
| Evidence.EncodeTracesBinds | src/redline/runner.py:252-263 | the digest of the replays pins every pair of traces: role, scenario, counts, and every point up to what is printed of it |
| Evidence.EnvelopeExactly | src/redline/runner.py:362-367 | the envelope of a run is the decision on its own proofs and coverage, for the chain status of the baseline |
| Outcomes.StoppedExactly | src/redline/runner.py:232-235 | what stops a run before its replays: a foreign edit or a missing identity lock, and only then an error of the baseline's chain |
| Outcomes.FailedReplayRejects | src/redline/runner.py:236-243 | a run whose replays fail is rejected for the first failure, the baseline's before the candidate's; otherwise it has all its traces |
| Outcomes.OutcomeExactly | src/redline/runner.py:274-320 | on its replays a run is rejected exactly when a cell ends the scan - an untrusted or tampered probe, or a baseline that misses a blocking one - and for the reason of the first; it is unverified with PROBE_ERROR exactly when none does but a probe could not be evaluated |
| Outcomes.MissingTexts | src/redline/runner.py:274-360 | what the coverage of such a run lists as missing, text by text: the reason, the cell that ended the scan, and every probe before it that could not be evaluated |
| Outcomes.StoppedRun | src/redline/runner.py:167-229 | a run that is stopped before its replays are through has its three opening proofs, no cells, and its reason as what is missing |
| Evidence.RunEvidence | src/redline/runner.py:167-367 | the proofs of a run that ends in PASS or WITHHELD, one by one: one for every cell with what the probe asserts of the candidate, one of each of eight other kinds, well-formedness of every trace, what blocking probes assert of the baselines, drawdown and trade budget of the candidates; the coverage names exactly the blocking cells |
| Encodings.ReceiptHashBinds | src/redline/receipt.py:93-102 | two receipts have one hash exactly when they differ at most in the hash they claim |
| Receipts.MissingRequiredProofIds | src/redline/verifier.py:337-353 | the loop over the required kinds collects absent kinds and one-sided ids |
| Receipts.IssuedNothingMissing | src/redline/verifier.py:337-353 | a receipt issued from a decision over runner-shaped proofs misses no required id |
| Receipts.IssuedBinding | src/redline/verifier.py:356-413 | it has no binding error exactly when the proofs it was issued from have pairwise distinct ids |
| Receipts.IssueVerifyRoundTrip | src/redline/receipt.py:115-220 | issue then verify: hash, required proofs and binding together, exact in the same condition |
| Receipts.TwoPassBinding | src/redline/runner.py:413-420 | after the second pass receipt and report name each other, both hashes check, and no earlier check is disturbed |
| Bindings.ReceiptExactly | src/redline/receipt.py:115-220 | what a receipt is made of, field by field, and when there is one; the decision proof it adds; its breaches are the failing assertions of probe proofs |
| Bindings.BindingExactly | src/redline/verifier.py:356-413 | the binding check field by field: one package hash, distinct ids, at most one proof of each of eight kinds, no verdict from the two kinds that bear none, and result, package, coverage and decision each hashed from what the receipt says |
| Bindings.MissingRequiredExactly | src/redline/verifier.py:337-353 | which kinds and ids are missing: a kind the status rests on without a verdict-bearing proof, and an id that only one side has |
| Bindings.DecisionInputsBind | src/redline/receipt.py:58-90 | equal decision inputs exactly for the same proofs, in any order, and the same coverage |
| Bindings.SummaryExactly | src/redline/receipt.py:355-368 | the summary: the lines of all assertions, each once, in the order of code points, joined and framed |
| Bindings.ReportExactly | src/redline/report.py:9-27 | what the report hash pins: decision, summary, traces, proofs, provenance and gaps, and nothing of the receipt's own hash |
| Bindings.ReportErrorExactly | src/redline/verifier.py:668-684 | a stored report is accepted exactly when it hashes itself, is the one the receipt names, and is the one the receipt gives |
| RoundTrip.RunIsShaped | src/redline/runner.py:167-367 | the proofs of a run that delivers PASS or WITHHELD are of the shape the round trip needs |
| RoundTrip.IssuedReceiptConsistent | src/redline/verifier.py:80-99 | the receipt of such a run passes the verifier's own checks exactly when, within each scenario, no two probes report the same pair of results |
| RoundTrip.OutOfScopeCollision | src/redline/runner.py:474-509 | why it can fail: two behaviour probes of one type aimed at another scenario report the same results and so get the same proof id |
| RoundTrip.OutOfScopeReceiptFails | src/redline/verifier.py:356-413 | the receipt of every such run that delivers PASS or WITHHELD has a binding error |
| Ledger.ReadLedgerEntries | src/redline/receipt.py:336-352 | returns the entries exactly when the file is a chain; otherwise the fault of the first line that breaks it |
| Ledger.NoFaultIsChain | src/redline/receipt.py:336-352 | a reader finds no fault exactly when every line parses, can be hashed and links to the one before |
| Ledger.ChainExactly | src/redline/receipt.py:336-352 | a chain: every entry carries the hash of its own fields and the hash of the entry before it, the first one genesis |
| Ledger.ChainFaultExactly | src/redline/receipt.py:336-352 | the fault of a reader is told by the kind of the first line that breaks the chain |
| Ledger.LedgerKeyBinds | src/redline/receipt.py:316-324 | two receipts have one key exactly when package, candidate, suite lock and spec hash are the same |
| Ledger.FileDigestBinds | src/redline/receipt.py:250-275 | equal file hashes exactly for equal lines |
| Ledger.WalkLedger | src/redline/verifier.py:506-538 | the interleaved chain and anti-reroll walk: clean exactly when the file is a chain with exactly one entry under the key and it records the receipt; raises exactly when a line that is no object, or an object with an entry hash that holds a raw float, comes before any other fault |
| Ledger.WalkBaselineLedger | src/redline/runner.py:627-656 | the runner's own walk, with the same outcomes |
| Ledger.LedgerCheckpointError | src/redline/verifier.py:554-606 | accepts exactly a self-hashed checkpoint of this file, tail, count and root that covers the receipt and is attested where a key or policy asks for it |
| Ledger.LedgerError | src/redline/verifier.py:487-551 | `_ledger_error` is clean exactly when ledger and checkpoint accept the receipt, and when it raises |
| Ledger.BaselineReceiptTrusted | src/redline/runner.py:609-673 | reader agreement: the runner trusts a baseline exactly when the verifier's ledger check is clean under the same policy |
| Ledger.BaselineChain | src/redline/runner.py:580-606 | a baseline counts as chained exactly when its receipt hashes, is a PASS of this very package, and the ledger accepts it under a trust policy; as the first exactly when no receipt is named; otherwise unchained with its error; and exactly when the walk raises |
| Bindings.LedgerAcceptsExactly | src/redline/verifier.py:487-606 | a clean ledger check in full: a chain, one entry under the key and that the receipt's own, and a checkpoint that hashes itself, has the root of its subjects, is of this file, tail and count, names the receipt, and is attested where a key or policy asks for it |
| Bindings.ChainedExactly | src/redline/runner.py:580-673 | a baseline is chained exactly when its receipt hashes itself, is a PASS of this very package and the ledger check is clean under a trust policy |
| Ledger.MatchingIssuanceEntry | src/redline/service/release.py:573-588 | accepts the same chains and returns the last entry with the receipt hash; each error exactly when it applies |
| Ledger.ChainUniqueness | src/redline/receipt.py:336-352 | two chains with one tail hash are the same entries |
| Ledger.CheckpointHashBinds | src/redline/receipt.py:105-112 | two checkpoints have one hash exactly when they differ at most in the hash they claim |
| Ledger.CheckpointPinsLedger | src/redline/verifier.py:554-606 | ledgers accepted under one checkpoint hash hold the same entries |
| Ledger.RootPinsSubjects | src/redline/receipt.py:261-268 | the Merkle root over the unique sorted subjects is equal exactly for equal sets of receipt hashes |
| Issuance.IssuanceLedger.RaiseOnLedgerConflict | src/redline/receipt.py:297-313 | the scan reports the first line that conflicts or does not parse |
| Issuance.IssuanceLedger.AppendLedger | src/redline/receipt.py:282-294 | appends one linked entry exactly when the file is a chain and otherwise leaves it alone |
| Issuance.IssuanceLedger.CreateLedgerCheckpoint | src/redline/receipt.py:250-275 | replaces the checkpoint exactly when the file is a chain; hash, tail, count, subjects and root are those of the file |
| Issuance.IssuanceLedger.AtomicWriteReceipt | src/redline/receipt.py:223-247 | the whole new state: a conflict changes nothing, a broken chain costs the receipt file, success writes receipt, entry and checkpoint |
| Issuance.NoConflictParsed | src/redline/receipt.py:297-313 | no conflict exactly when every line parses and none has the key |
| Issuance.LedgerRuns | src/redline/receipt.py:223-352 | after any run from nothing the ledger is the chain of the first call for every package, candidate, suite and spec with its own checkpoint; a call is refused exactly when an earlier one agrees with it in all four, and then changes nothing |
| Issuance.RefusedExactly | src/redline/receipt.py:223-324 | over every run: a call is refused exactly when an earlier receipt agrees with its own in package, candidate, suite and spec, and then no file changes; otherwise it leaves receipt, entry and checkpoint, each field said |
| Issuance.IssueExactly | src/redline/receipt.py:223-352 | one call on any files: the first line that is no JSON, no object or has the key stops it with that fault and nothing changes; a broken chain gives its fault and costs the file at the path; otherwise receipt, linked entry and a checkpoint of the new file |
| Issuance.ScanExactly | src/redline/receipt.py:297-313 | where the conflict scan stops and with what fault |
| Issuance.AppendOnly | src/redline/receipt.py:282-294 | the ledger of every earlier moment is a prefix of the present one |
| Issuance.CheckpointCovers | src/redline/receipt.py:250-275 | a fresh checkpoint covers exactly the receipt hashes of its ledger and its own subjects |
| Issuance.IssuedExactly | src/redline/verifier.py:487-606 | after any run of self-hashed receipts, the ledger check against the current checkpoint accepts a receipt exactly when a call wrote it and no call before agreed with it in package, candidate, suite and spec, so every receipt ever issued stays clean |
| Issuance.StaleCheckpointRefused | src/redline/verifier.py:554-606 | a checkpoint from before the ledger grew is refused for every receipt |
| Verification.RenderStrengthSummary | src/redline/report.py:30-36 | the nested loops and the sorted set give the very text the receipt was issued with |
| Verification.SummariesAgree | src/redline/receipt.py:355-368 | sorting a set and sorting a duplicate-free list are the same list |
| Verification.VerifyHashOnly | src/redline/verifier.py:80-158 | which of the hash-only outcomes is returned, each exactly when; consistency exactly when every check passes |
| Bindings.ConsistentExactly | src/redline/verifier.py:80-158 | what it takes to be found consistent: own hash, every required proof and no other id, bound together, accepted by the ledger, complete, and the summary its proofs give |
| Verification.PublishedReceiptVerifies | src/redline/verifier.py:51-158 | from run to verification: the receipt of a delivered run, once published first for its key, is found consistent after any further issuing - exactly when no two probes report the same results on one scenario |
| Transitions.MissingLiveGateControls | src/redline/service/transitions.py:140-161 | the appended list of missing live-gate controls |
| Transitions.MissingEvidenceForTarget | src/redline/service/transitions.py:118-137 | the appended list of evidence a target state still lacks |
| Transitions.MissingForExactly | src/redline/service/transitions.py:118-137 | nothing is missing exactly when pass, policy, simulation, approval, execution and live gate are there as the policy and the state ask |
| Transitions.LiveGateAgreement | src/redline/service/release.py:243-259 | the transition check and the tier rule read the live gate alike |
| Transitions.TransitionRelease | src/redline/service/transitions.py:96-115 | same state, terminal state, transition table, then missing evidence |
| Transitions.TransitionReleaseOr409 | src/redline/service/app.py:2385-2401 | missing evidence blocks the release whatever the table says; anything else invalid is a conflict |
| Transitions.FingerprintBinds | src/redline/service/release.py:161-179 | equal fingerprints exactly for equal run, hashes, simulation, policy and strategy version |
| Endpoints.TransitionExactly | src/redline/service/transitions.py:23-115 | the whole table read from its targets: which states each state can be reached from, and what is stored - the record with its tier, or blocked with the list of what its state still lacks |
| Endpoints.TerminalExactly | src/redline/service/transitions.py:8-21 | which states are terminal: all but the eight that can still be left, and exactly those without another state to go to |
| Endpoints.MissingExactly | src/redline/service/transitions.py:118-161 | the list of missing evidence: every item the state lacks and no other, once each, in the order of the checks |
| Endpoints.TierExactly | src/redline/service/release.py:222-259 | the tier: L2 exactly for an open live gate, L1 exactly for pass, simulation, policy and execution |
| Lifecycle.ReleaseService.BindRunEndpoint | src/redline/service/app.py:565-605 | the stored release after binding a run |
| Lifecycle.ReleaseService.ImportSimulationEndpoint | src/redline/service/app.py:608-642 | the stored release after importing simulation evidence (both import endpoints) |
| Lifecycle.ReleaseService.BindPolicyEndpoint | src/redline/service/app.py:720-773 | the stored release after binding a risk policy |
| Lifecycle.ReleaseService.ApproveEndpoint | src/redline/service/app.py:776-833 | the stored release after an approval: role, creator, run, policy, then approval or showcase approval |
| Lifecycle.ReleaseService.RejectEndpoint | src/redline/service/app.py:836-865 | the stored release after a rejection |
| Lifecycle.ReleaseService.ConsumeReleaseApproval | src/redline/service/postgres_store.py:415-437 | the conditional update uses up the approval exactly when it is there under this nonce and unused |
| Lifecycle.ReleaseService.ConsumeReleaseShowcaseApproval | src/redline/service/postgres_store.py:439-462 | the same for the showcase approval |
| Lifecycle.ReleaseService.ExecuteDemoEndpoint | src/redline/service/app.py:868-985 | the stored release after execute-demo in every outcome of checks, policy and exchange |
| Lifecycle.ReleaseService.ShowcaseEndpoint | src/redline/service/app.py:988-1203 | a showcase order uses up its approval and changes nothing else |
| Lifecycle.ReleaseService.KillEndpoint | src/redline/service/app.py:1625-1636 | the stored release after a kill |
| Lifecycle.ReleaseService.EnsureBundle | src/redline/service/app.py:2548-2577 | the bundle refreshes the tier and the manifest and nothing else |
| Endpoints.CreatedExactly | src/redline/service/app.py:505-518 | a new release is a draft of tier L0 with nothing bound |
| Endpoints.BindRunExactly | src/redline/service/app.py:565-605 | the exact states a run can be bound in, what the run's state makes of the release, and the record left |
| Endpoints.ImportExactly | src/redline/service/app.py:608-642 | simulation evidence: the exact states it gets through in, whether it asks for review, and the record left, blocked when review still lacks something |
| Endpoints.PolicyExactly | src/redline/service/app.py:720-773 | a policy: the exact states for a breached one, for one that asks for review and for one that is only collected, and the record left |
| Endpoints.ApproveExactly | src/redline/service/app.py:776-833 | sixteen checks in their order, the first that fails gives the reason; after them the showcase approval of a ready release, an approval in review or approved, or a conflict |
| Endpoints.RejectExactly | src/redline/service/app.py:836-865 | a rejection gets through exactly in review or on a rejected release, and what it leaves |
| Endpoints.ExecuteExactly | src/redline/service/app.py:868-985 | execute-demo: freeze, evidence that is there, eleven checks in their order, and after that the approval is used up whatever happens, with the record and the answer of every outcome |
| Endpoints.ShowcaseExactly | src/redline/service/app.py:988-1203 | a showcase order needs a ready release with its execution and an approval, and uses up the showcase approval or else the release's own |
| Endpoints.KillExactly | src/redline/service/app.py:1625-1636 | a kill gets through exactly in the eight states that can still be left and on a killed release; state, time and tier change and nothing else |
| Endpoints.BundleExactly | src/redline/service/app.py:2548-2577 | the bundle only refreshes tier and manifest |
| Lifecycle.CreatedInvariant | src/redline/service/app.py:505-518 | a new release meets the invariant |
| Lifecycle.StepKeeps | src/redline/service/app.py:564-985 | every endpoint keeps the invariant |
| Lifecycle.EveryRunKeeps | src/redline/service/app.py:564-985 | over every run: REVIEW_REQUIRED, APPROVED and RELEASE_READY lack no evidence; the latter two carry an approval for exactly the present evidence by someone other than the creator; the tier is the computed one |
| Lifecycle.TierMeaning | src/redline/service/release.py:222-240 | L2 is never reached; a ready release is L1 exactly when simulation evidence is attached; before that the tier is L0 |
| Lifecycle.TerminalStays | src/redline/service/transitions.py:8-21 | no endpoint, taken as one step, leaves a terminal state |
| Lifecycle.TerminalRecordExactly | src/redline/service/transitions.py:103-110 | over every reachable terminal release and every call: the record stays exactly as it is unless the call repeats the release's own state with something new, or attaches another manifest |
| Lifecycle.BindingFrozen | src/redline/service/transitions.py:23-76 | from evidence collecting on, no endpoint changes run id, reason code, receipt hash or report hash |
| Lifecycle.BindingFrozenOverRuns | src/redline/service/app.py:564-605 | the same over any stretch of a run that stays in those states |
| Lifecycle.UnboundNeverReviewed | src/redline/service/app.py:607-773 | a release that collects evidence before a pass is bound never reaches review, approval or readiness |
| Lifecycle.ApprovedExactly | src/redline/service/app.py:776-818 | exactly which approval calls succeed, and the record they leave |
| Lifecycle.ExecuteOutcomes | src/redline/service/app.py:868-985 | the record execute-demo leaves on an approved release, outcome by outcome |
| Lifecycle.ReadyExactly | src/redline/service/app.py:868-985 | exactly what makes a release ready: a placed order on an unused, unexpired approval within policy |
| Lifecycle.ReadyWasApproved | src/redline/service/app.py:776-985 | over every run: a ready release was approved by one call on exactly the evidence it carries, by someone other than its creator, and executed by a later one while approved |
| Orders.OrderDesk.ExecuteDemoOrder | src/redline/service/app.py:2728-2783 | one call under the execution lock: evidence that is there is returned only to a request it agrees with, unless its status asks for reconciliation; an order on the run's ledger is not sent again |
| Orders.OrderDesk.PlaceVerified | src/redline/service/app.py:2673-2725 | preflight file, order, ledger, evidence and status in that order, stopping at any stage; a preflight file of another order stops the call |
| Orders.PlaceOrderKeeps | src/redline/service/app.py:2740-2783 | every call keeps the files and the exchange in one story - every order is the one its run's preflight file names, ledger and evidence name it too, the exchange took it - and preflight and evidence that are there stay as they are |
| Orders.OneForEachRun | src/redline/sponsor/bitget_execution.py:500-509 | so the exchange took one order for a run at most, whatever answers or files were lost |
| Orders.SendsExactly | src/redline/service/app.py:2740-2783 | exactly when a call makes the exchange take an order |
| Orders.PlacedExactly | src/redline/service/app.py:2673-2783 | one call in full: the checks in their order, the answer of evidence that is there, and every file after a placement that ends at any stage |
| Orders.EvidenceValueBinds | src/redline/service/app.py:2742-2761 | evidence names receipt, intent and approval, apart from the approval's use |
| Orders.AnswerIsEvidence | src/redline/service/app.py:2742-2761 | a call that answers ok answers with the run's evidence, which agrees in receipt, intent and approval and names an order the exchange took, whoever placed it |
| Interleaving.AtMostOnce | src/redline/service/postgres_store.py:415-437 | however calls interleave, each nonce passes the consume step at most once, as long as every call reads back the approval it consumed |
| Interleaving.ConsumesBounded | src/redline/service/postgres_store.py:415-437 | over every interleaving a nonce passes once, and once more for every commit that writes its approval back unused |
| Interleaving.ReuseExactly | src/redline/service/postgres_store.py:390-437 | exactly when no approval can ever be used again in a run: when no commit writes an approval back as unused whose nonce has passed |
| Interleaving.PassesTwiceExactly | src/redline/service/postgres_store.py:390-437 | over every interleaving: a nonce passes twice exactly when a call or showcase order finds a passed one unused again, which takes an earlier commit that wrote it back |
| Interleaving.ComparingApprovals | src/redline/service/postgres_store.py:390-413 | what the store could compare: when every commit finds the approval it has read back, no approval is used twice |
| Interleaving.OneOrderPerRun | src/redline/service/app.py:2728-2783 | over every interleaving, overlapping approvals, other releases, the run's own endpoint, lost answers and lost files included, the exchange takes one order for a run at most |
| Interleaving.OneOrderPerRelease | src/redline/service/app.py:868-985 | all orders of a release go to one run, so the release gets one order at most, whatever its approvals did |
| Moves.AloneIsAtomic | src/redline/service/app.py:868-985 | a call that nothing overtakes - read, consume, read again, place, commit - leaves the release exactly as the one atomic step does |
| Moves.ReadExactly | src/redline/service/app.py:868-893 | the first read goes on exactly when no freeze is on and every check passes |
| Moves.ConsumeExactly | src/redline/service/postgres_store.py:415-437 | the compare-and-set and what it leaves |
| Moves.PlaceExactly | src/redline/service/app.py:894-975 | where a placement ends for the record read back, and what it asks of the order desk |
| Moves.CommitMoveExactly | src/redline/service/postgres_store.py:390-413 | the commit judges the move from the record read back and writes a whole record over what is stored |
| Interleaving.EvidenceStays | src/redline/service/app.py:2741-2761 | evidence once written for a run stays as it is |
| Interleaving.AtomicConsumeFindsOwn | src/redline/service/postgres_store.py:415-437 | that condition holds when consume and second read are one step |
| Interleaving.ExecuteOnlyOnce | src/redline/service/app.py:868-985 | any interleaving of execute-demo calls alone: one at most passes the consume step |
| Overlap.OverlappingApprovals | src/redline/service/postgres_store.py:436-437 | the second read is a separate statement: on every approved release a re-approval in between lets one nonce pass twice; the evidence of the first order still keeps the exchange from taking a second |
| Endings.EveryInterleavingKeeps | src/redline/service/app.py:868-985 | however calls interleave with each other and with the endpoints, the stored release keeps the invariant but for the used-up mark of a ready release, and so does every record a call holds |
| Endings.CommitExactly | src/redline/service/transitions.py:23-76 | exactly which records a call can write back: those read while approved, collecting evidence, or in the very state they write |
| Endings.TerminalLeftExactly | src/redline/service/postgres_store.py:390-413 | over every interleaving: a terminal state is left exactly by the commit of such a record with another state |
| Endings.TerminalStaysExactly | src/redline/service/postgres_store.py:390-413 | over every run: an ended release stays in its state exactly when no later commit overtakes the end |
| Endings.ForGoodExactly | src/redline/service/app.py:894-985 | exactly when an end is for good, whatever moves come later: when no call holds a record from which it can still write another state, a matter of the record's state and of the files of its run |
| Endings.SettledIsForGood | src/redline/service/postgres_store.py:390-413 | in particular when every call that has read the release back has found it in the state it is in now |
| Endings.ComparingCommits | src/redline/service/postgres_store.py:390-413 | what the store could compare: when every commit finds state and approval as read back, no end is undone and no approval is used twice |
| Endings.OrderGoesOutExactly | src/redline/service/app.py:894-933 | over every interleaving: exactly when an order goes out; new evidence after the first look stops it, an end does not |
| Endings.OrderWasApproved | src/redline/service/app.py:874-933 | every order goes out for the run of a release that was approved when its call first looked, on an approval that was unused until the call used it |
| Endings.OrderAfterKill | src/redline/service/app.py:894-897 | on every executable release: a kill after the consume step lets the order go out, and stays the release's last state |
| Endings.KillUndone | src/redline/service/postgres_store.py:390-413 | on every executable release: a kill after the second read is overwritten by the commit, and the killed release is ready |
| Jobs.NextQueuedMeaning | src/redline/service/postgres_store.py:573-581 | the selected row is the oldest queued one that is not locked |
| Jobs.MovesExactly | src/redline/service/postgres_store.py:515-690 | every move of every worker, row by row, with the locks and the claims |
| Jobs.JobTable.CreateReleaseJob | src/redline/service/postgres_store.py:515-553 | adds a queued row unless the id is taken |
| Jobs.JobTable.ClaimNextReleaseJob | src/redline/service/postgres_store.py:568-594 | returns the oldest free queued job as it was and sets it running |
| Jobs.JobTable.CancelReleaseJob | src/redline/service/postgres_store.py:631-654 | exactly a queued row of this release and id changes, to cancelled with its first end kept; every other row and the order of rows stay; the answer is the row, which is then not queued, or nothing when there is none |
| Jobs.JobTable.MarkReleaseJobStatus | src/redline/service/postgres_store.py:656-690 | exactly the row of this id changes, whatever it held: status and error are replaced, the first start is kept, an end is noted for final states |
| Jobs.JobTable.RecoverInterruptedReleaseJobs | src/redline/service/postgres_store.py:596-629 | the select and the loop of updates together fail exactly the running jobs and return them in order |
| Jobs.ClaimsBounded | src/redline/service/postgres_store.py:568-594 | over every interleaving with row locks, a job is claimed at most once plus once per time it is marked queued |
| Jobs.ClaimedAtMostOnce | src/redline/service/postgres_store.py:568-594 | a job never marked queued is claimed at most once |
| Jobs.CancelledNeverClaimed | src/redline/service/postgres_store.py:631-654 | a job cancelled while queued was never and is never claimed |
| Jobs.StaysCancelledExactly | src/redline/service/postgres_store.py:656-690 | over every run a cancelled job is cancelled at all later moments exactly when no later mark reaches it with another status |
| Jobs.CancelledStays | src/redline/service/app.py:1447-1470 | marks come from the worker that claimed the job, so a job cancelled while queued stays cancelled |
| RateLimiter.SlidingWindowRateLimiter.Allow | src/redline/service/app.py:1939-1951 | for any clock value: what is too old is popped off the left end, the call is let through exactly when fewer than `limit` are left, and no other key changes |
| RateLimiter.AllowStepExactly | src/redline/service/app.py:1939-1951 | one call: times before the cutoff go from the front as far as they reach, and the call is noted exactly when fewer than `limit` are left |
| RateLimiter.LaggingWithinLimit | src/redline/service/app.py:1939-1951 | the clock is read before the lock: when no call lies further than a lag behind an earlier one, no closed interval of the window less the lag holds more than `limit` accepted calls |
| RateLimiter.KeptExactly | src/redline/service/app.py:1939-1951 | exactly the lengths of interval that every such order of calls keeps within the limit: up to the window less the lag, and for a limit of one up to the whole window |
| RateLimiter.OutOfOrderExceeds | src/redline/service/app.py:1942-1944 | an example: five calls of which two reach the deque in the other order put four into one window of limit three |
| RateLimiter.DequeIsRecent | src/redline/service/app.py:1945-1951 | for calls in order the deque is, after each one, exactly the accepted history inside the window |
| RateLimiter.AllowedExactly | src/redline/service/app.py:1946-1951 | for calls in order: the next call is let through exactly when it fits into every window, and refused exactly when the window that ends with it already holds `limit` |
| RateLimiter.EveryWindowWithinLimit | src/redline/service/app.py:1939-1951 | for calls in order no closed window holds more than `limit` accepted calls |
| NumericNames.NumericAssignmentNames | src/redline/engine_adapter/sandbox_worker.py:331-338 | the loop terminates with the least set of names closed under having only numeric values, in whatever order the names come |
| NumericNames.CollectAssignments | src/redline/engine_adapter/sandbox_worker.py:319-330 | the dictionary groups the collected values by name |
| NumericNames.IsNumericExactly | src/redline/engine_adapter/sandbox_worker.py:345-358 | an expression is taken for a number exactly when every operand below its signs, sums, differences, products and floor divisions is an integer literal, a numeric name or a call of `int` or `Decimal` |
| NumericNames.CollectedExactly | src/redline/engine_adapter/sandbox_worker.py:319-330 | a value is collected for a name exactly when some statement of the program assigns it or some walrus in it binds it |
| NumericNames.GroupedExactly | src/redline/engine_adapter/sandbox_worker.py:319-330 | a name has exactly the values collected for it |
| NumericNames.AcceptedExactly | src/redline/engine_adapter/sandbox_worker.py:229-343 | a program is accepted exactly when both sides of every `%` anywhere in it are taken for numbers |
| NumericNames.LeastUnique | src/redline/engine_adapter/sandbox_worker.py:331-338 | there is one such set |
| NumericNames.LeastSupported | src/redline/engine_adapter/sandbox_worker.py:345-358 | every name in it has a value and only numeric ones |
| NumericNames.AcceptedNeverFormats | src/redline/engine_adapter/sandbox_worker.py:229-358 | every run of an accepted program uses `%` for arithmetic only, whatever builtins return, as long as no numeric name is bound in an uncollected form, `int` and `Decimal` are not bound, and `%=` is not used |
| NumericNames.ShadowedFormats | src/redline/engine_adapter/sandbox_worker.py:319-330 | the condition on names is needed: a loop variable that shadows a numeric name reaches `%` with a text |
| NumericNames.ShadowedAccepted | src/redline/engine_adapter/sandbox_worker.py:319-358 | that program is accepted with the least set |
| NumericNames.AliasedFormats | src/redline/engine_adapter/sandbox_worker.py:354-355 | the condition on the conversions is needed: once `int` is `max`, calling it gives a text |
| NumericNames.AliasedAccepted | src/redline/engine_adapter/sandbox_worker.py:345-358 | that program is accepted with the least set and meets the other two conditions |
| NumericNames.ModAssignFormats | src/redline/engine_adapter/sandbox_worker.py:289-290 | so is the one on `%=`, which the scan does not look at |
| Witnesses.VerdictsOccur | src/redline/runner.py:236-367 | PASS, WITHHELD and a rejected baseline all occur: three concrete runs over two bars |
| Witnesses.FailingReceiptOccurs | src/redline/verifier.py:356-413 | a concrete PASS run over two scenarios whose receipt is refused by its own binding check |
| Witnesses.ReadyOccurs | src/redline/service/app.py:564-985 | a concrete run of endpoint calls from draft to RELEASE_READY at tier L1, by way of an approved release as the interleaving results need |

## Left out

- Replay.BuildTrace: `Decimal` arithmetic is modelled as exact reals; Python rounds every operation to 28 digits, so the last digits of a NAV can differ. Non-finite numbers are a `None` in the configuration or a bad row. Of the hashes a trace carries only the refusal of a float is modelled.
- Replay.DearerNeverRicher: one direction, over whole runs; the exact statement is for one bar (`Replay.DearerRicherExactly`), since later bars can undo what an earlier one did.
- Canonical.RenderReads: numbers are finite; the error for non-finite input is not modelled.
- Ordering.UniqueSortedContents: lists that are only sorted before hashing are kept as bags, which is what sorting leaves of them.
- Runner.RunRedline: whether the identity lock loads and what `Ledger.BaselineChain` returns are inputs, the worker's signals and its failures are inputs, and a tampered or failing probe is an entry in a table of faults.
- ProofKernel.DecideEnvelope: caps are reals instead of decimal texts.
- Receipts.IssueVerifyRoundTrip: receipts of version 3.3 only; the `reproduce` command texts of proofs and the names and paths a receipt repeats are one opaque value; the truncation of proof ids to 24 characters counts as injective.
- Ledger.ReadLedgerEntries: two lines that parse alike count as one, so formatting inside a JSON line is not part of a file's hash; a file that is not UTF-8, or nests too deeply to parse, is not modelled.
- Ledger.LedgerCheckpointError: signature checks are a function parameter; a document that is missing or does not parse is one case.
- Issuance.IssuanceLedger.AtomicWriteReceipt: ledger and checkpoint paths are always given, writes do not fail half-way, and a ledger always ends in a newline.
- Verification.VerifyHashOnly: the replayed level, external proof files and the loading of files are not modelled.
- Lifecycle.EveryRunKeeps: endpoints are atomic steps, because a stored release is overwritten as a whole; clocks, expiry and the freeze switches are inputs; whether a policy is breached is part of the policy, or of the order in execute-demo.
- Lifecycle.ReleaseService.ApproveEndpoint: approvals keep reviewer, fingerprint, nonce, use and comment; display names, addresses and time stamps are dropped.
- Lifecycle.ReleaseService.ShowcaseEndpoint: only what it does to the stored release; the order it places and idempotent replays of answers are not modelled.
- Lifecycle.TerminalStays: endpoints as one step; with calls in between the exact statement is `Endings.TerminalStaysExactly`.
- Interleaving.AtMostOnce: one direction only, because a call that picks up another approval may still fail later; the exact condition is the one of `Interleaving.PassesTwiceExactly`.
- Interleaving.OneOrderPerRun: one service process, which is what the lock spans. The exchange is taken to honour a client order id once, and the shortening of the id counts as injective. Files are written whole or not at all; files that do not load, and the removal of old run directories, are not modelled. Showcase orders have their own ids and directories and are not counted.
- Endings.TerminalLeftExactly: execute-demo is split into its steps; the other endpoints, which read and write within one request, are one step each.
- Overlap.OverlappingApprovals: nonces are fresh in the positive results.
- Jobs.ClaimedAtMostOnce: a row lock makes other writes to the row wait; results and events of jobs are not modelled, nor is a worker that marks a job it has not claimed, since both callers claim first.
- RateLimiter.EveryWindowWithinLimit: stated for calls that reach the deque in the order of their times, which the code does not ensure; `RateLimiter.KeptExactly` is the general form.
- NumericNames.AcceptedNeverFormats: a small language without functions, classes, attributes or imports; loops are bounded by fuel, which is arbitrary. The three conditions are each needed but together not necessary: a program may violate one and still never reach a text.
- File, symlink and process handling, resource limits, audit hooks, SHA-256, Ed25519 and JSON encoding: operating-system and library behaviour.
- HTTP routing, sessions, HTML, command line and MCP: no invariant beyond the endpoints modelled here.
- The exchange adapters and the SQLite store are not part of this model; the Postgres statements define the conditional updates.
- Crashes between ledger append and checkpoint, sidecar files, spec compilation, schema export and the violation catalogue.
