/** Every way a run can end without a verdict on the candidate, and the reason it then gives. */
module Outcomes {
  import opened Wrappers
  import opened Models
  import opened Digests
  import opened Ordering
  import opened Replay
  import opened Probes
  import opened ProofKernel
  import opened Runner
  import opened RunVerdict
  import opened Reference
  import opened Decisions
  import Verification

  // ---------- before the replays ----------

  ghost predicate RejectedFor(run: Decided, reason: ReasonCode) {
    run.envelope.status == Reject && run.envelope.tier == Block && run.envelope.reason == reason
  }

  /** An edit provenance of another pair. */
  ghost predicate ForeignEdit(input: Input) {
    && input.editDiff.Some?
    && input.editDiff.value !=
       HashObj(Rec("pair", [Hash(input.identity.baselineHash), Hash(input.identity.candidateHash)]))
  }

  /** A foreign edit or a missing identity lock comes before an error of the baseline's chain. */
  lemma {:induction false} StoppedExactly(input: Input)
    requires ValidInput(input)
    ensures ForeignEdit(input) || !input.locked ==> RejectedFor(RunOf(input), ReceiptBindingFailed)
    ensures !ForeignEdit(input) && input.locked && input.chain.error.Some? ==>
      RejectedFor(RunOf(input), input.chain.error.value)
  {
    hide RunOf, ValidInput;
    StoppedEarly(input);
    StatusDetails(input);
  }

  ghost predicate Starts(input: Input) {
    !ForeignEdit(input) && input.locked && input.chain.error.None?
  }

  // ---------- the replays ----------

  ghost predicate Completes(input: Input, s: Scenario, worker: Worker, package: Package)
    requires ValidBars(s.bars)
  {
    exists trace :: Traced(input, s, worker, package, trace)
  }

  /** The worker's own reason, or the one of the replay. */
  ghost predicate Fails(input: Input, s: Scenario, worker: Worker, package: Package, reason: ReasonCode)
    requires ValidBars(s.bars)
  {
    match worker
    case Failed(own) => reason == own
    case Signals(values) =>
      ReplayOf(s.id, s.bars, Config(package.leverage, input.feeBps, input.slippageBps, input.fillModel,
                                    package.rawFloat), values) == Err(reason)
  }

  /** Scenario `k` is the first with a replay that fails, the baseline before the candidate. */
  ghost predicate FirstFails(input: Input, k: nat, reason: ReasonCode)
    requires ValidInput(input)
  {
    && k < |input.scenarios|
    && (forall i :: 0 <= i < k ==> BothComplete(input, i))
    && var s := input.scenarios[k];
       || Fails(input, s, s.baseline, input.baselinePackage, reason)
       || (Completes(input, s, s.baseline, input.baselinePackage)
           && Fails(input, s, s.candidate, input.candidatePackage, reason))
  }

  ghost predicate BothComplete(input: Input, i: nat)
    requires ValidInput(input) && i < |input.scenarios|
  {
    var s := input.scenarios[i];
    Completes(input, s, s.baseline, input.baselinePackage) && Completes(input, s, s.candidate, input.candidatePackage)
  }

  lemma {:induction false} RoleExactly(input: Input, s: Scenario, worker: Worker, package: Package)
    requires ValidBars(s.bars)
    ensures Completes(input, s, worker, package) <==> ReplayRole(input, s, worker, package).Ok?
    ensures forall e :: Fails(input, s, worker, package, e) <==> ReplayRole(input, s, worker, package) == Err(e)
  {
    hide Traced, ReplayOf;
    forall trace ensures Traced(input, s, worker, package, trace) <==>
      ReplayRole(input, s, worker, package) == Ok(trace)
    {
      TracedExactly(input, s, worker, package, trace);
    }
  }

  lemma {:induction false} FailureExactly(input: Input, n: nat, reason: ReasonCode)
    requires ValidInput(input) && n <= |input.scenarios|
    ensures Replays(input, n) == Err(reason) <==> exists k: nat :: k < n && FirstFails(input, k, reason)
    ensures Replays(input, n).Ok? <==> forall i: nat :: i < n ==> BothComplete(input, i)
  {
    hide Completes, Fails, ReplayRole;
    if n > 0 {
      FailureExactly(input, n - 1, reason);
      var s := input.scenarios[n - 1];
      RoleExactly(input, s, s.baseline, input.baselinePackage);
      RoleExactly(input, s, s.candidate, input.candidatePackage);
      assert (forall i: nat :: i < n ==> BothComplete(input, i)) <==>
        (forall i: nat :: i < n - 1 ==> BothComplete(input, i)) && BothComplete(input, n - 1);
      if Replays(input, n - 1).Ok? {
        assert BothComplete(input, n - 1) <==> Replays(input, n).Ok?;
        assert FirstFails(input, n - 1, reason) <==> Replays(input, n) == Err(reason);
        forall k: nat | k < n - 1 ensures !FirstFails(input, k, reason) { NotBoth(input, k, reason); }
      } else {
        assert Replays(input, n) == Replays(input, n - 1);
      }
    }
  }

  lemma {:induction false} NotBoth(input: Input, k: nat, reason: ReasonCode)
    requires ValidInput(input) && k < |input.scenarios| && BothComplete(input, k)
    ensures !FirstFails(input, k, reason)
  {
    hide Completes, Fails;
    var s := input.scenarios[k];
    RoleExactly(input, s, s.baseline, input.baselinePackage);
    RoleExactly(input, s, s.candidate, input.candidatePackage);
  }

  /** A run whose replays fail is rejected for the first failure; otherwise it has a pair of traces for every
      scenario. */
  lemma {:induction false} FailedReplayRejects(input: Input, reason: ReasonCode)
    requires ValidInput(input) && Starts(input)
    ensures (exists k: nat :: FirstFails(input, k, reason)) ==> RejectedFor(RunOf(input), reason)
    ensures (exists pairs :: Ran(input, pairs)) <==>
      forall i: nat :: i < |input.scenarios| ==> BothComplete(input, i)
  {
    hide FirstFails, BothComplete, Ran, Replays, RunOf;
    FailureExactly(input, |input.scenarios|, reason);
    forall pairs ensures Ran(input, pairs) <==> Replays(input, |input.scenarios|) == Ok(pairs) {
      RanExactly(input, pairs);
    }
    if k: nat :| FirstFails(input, k, reason) {
      assert k < |input.scenarios| by { FailsInRange(input, k, reason); }
      ReplayErrorRejects(input, reason);
    }
    if Replays(input, |input.scenarios|).Ok? { assert Ran(input, Replays(input, |input.scenarios|).value); }
  }

  lemma {:induction false} FailsInRange(input: Input, k: nat, reason: ReasonCode)
    requires ValidInput(input) && FirstFails(input, k, reason)
    ensures k < |input.scenarios|
  {
  }

  lemma {:induction false} ReplayErrorRejects(input: Input, reason: ReasonCode)
    requires ValidInput(input) && Starts(input) && Replays(input, |input.scenarios|) == Err(reason)
    ensures RejectedFor(RunOf(input), reason)
  {
    hide Replays, Checked, RequiredIds, DecisionId, ScenarioCount, Refused, AllIds, OpeningProofs, KindsPresent;
  }

  // ---------- the probes ----------

  /** The cell ends the scan: an untrusted or tampered probe, or a baseline that misses a blocking one. */
  ghost predicate Rejects(input: Input, pairs: seq<Pair>, a: nat, b: nat)
    requires |pairs| == |input.scenarios| && a < |pairs| && b < |input.probes|
  {
    var cell := (input.scenarios[a].id, input.probes[b].id);
    if cell in input.faults then input.faults[cell] in {Untrusted, Tripwire}
    else input.probes[b].block && !Meaning(input.probes[b].check, pairs[a].baseline)
  }

  /** The first such cell, scenario by scenario and probe by probe. */
  ghost predicate FirstRejects(input: Input, pairs: seq<Pair>, a: nat, b: nat)
    requires |pairs| == |input.scenarios|
  {
    && a < |pairs| && b < |input.probes| && Rejects(input, pairs, a, b)
    && forall x: nat, y: nat :: x < |pairs| && y < |input.probes| && (x < a || (x == a && y < b)) ==>
         !Rejects(input, pairs, x, y)
  }

  ghost predicate NoneRejects(input: Input, pairs: seq<Pair>, i: nat, k: nat)
    requires |pairs| == |input.scenarios|
  {
    forall x: nat, y: nat :: x < |pairs| && y < |input.probes| && (x < i || (x == i && y < k)) ==>
      !Rejects(input, pairs, x, y)
  }

  /** The probe of the cell could not be evaluated. */
  ghost predicate Faulty(input: Input, a: nat, b: nat)
    requires a < |input.scenarios| && b < |input.probes|
  {
    (input.scenarios[a].id, input.probes[b].id) in input.faults
  }

  ghost predicate AnyFaulty(input: Input, i: nat, k: nat) {
    exists x: nat, y: nat :: x < |input.scenarios| && y < |input.probes| && (x < i || (x == i && y < k)) &&
      Faulty(input, x, y)
  }

  ghost predicate AllErrored(texts: seq<string>) {
    forall m :: m in texts ==> MentionsErrored(m)
  }

  function ReasonAt(input: Input, a: nat, b: nat): ReasonCode
    requires a < |input.scenarios| && b < |input.probes|
  {
    if (input.scenarios[a].id, input.probes[b].id) in input.faults then VerdictPathViolation else BaselineBreaches
  }

  lemma {:induction false} ErroredText(cell: Cell)
    ensures MentionsErrored(CellText(cell, "errored"))
  {
    var head := cell.0 + ":" + cell.1 + ":";
    assert CellText(cell, "errored") == head + "errored";
    assert ErroredAt(CellText(cell, "errored"), |head|);
  }

  /** One cell of the scan. */
  lemma {:induction false} CellStep(input: Input, pairs: seq<Pair>, a: nat, b: nat, before: Scan)
    requires ValidInput(input) && Cellular(input, pairs, a, b) && before.reject.None? && AllErrored(before.missing)
    ensures var scan := ScanCell(input, input.scenarios[a].id, pairs[a], input.probes[b], before);
      && scan.reject == (if Rejects(input, pairs, a, b) then Some(ReasonAt(input, a, b)) else None)
      && (scan.reject.None? ==> AllErrored(scan.missing) && (scan.missing != [] <==>
                                                             before.missing != [] || Faulty(input, a, b)))
  {
    hide Evaluate, FromReplay, Meaning, MentionsErrored, CellText, ValidInput;
    assert ValidCheck(input.probes[b].check) by { ChecksValid(input, b); }
    EvaluateShape(input.probes[b].check, pairs[a].baseline);
    EvaluateShape(input.probes[b].check, pairs[a].candidate);
    HoldsIsMeaning(input.probes[b].check, pairs[a].baseline, input.scenarios[a].id);
    ErroredText(CellOf(input, a, b));
  }

  lemma {:induction false} ChecksValid(input: Input, b: nat)
    requires ValidInput(input) && b < |input.probes|
    ensures ValidCheck(input.probes[b].check)
  {
  }

  lemma {:induction false} ScanExactly(input: Input, pairs: seq<Pair>, i: nat, k: nat)
    requires ValidInput(input) && GoodPairs(input, pairs) && InTable(input, pairs, i, k)
    ensures var scan := After(input, pairs, i, k);
      && (scan.reject.None? <==> NoneRejects(input, pairs, i, k))
      && (scan.reject.Some? ==>
            exists a: nat, b: nat :: FirstRejects(input, pairs, a, b) && scan.reject == Some(ReasonAt(input, a, b)))
      && (scan.reject.None? ==> AllErrored(scan.missing) && (scan.missing != [] <==> AnyFaulty(input, i, k)))
    decreases i, k
  {
    hide ScanCell, Rejects, Faulty, FromReplay, AllErrored, Start, ValidInput, ReasonAt;
    if k > 0 {
      ScanExactly(input, pairs, i, k - 1);
      var before := After(input, pairs, i, k - 1);
      if before.reject.None? {
        assert Cellular(input, pairs, i, k - 1);
        CellStep(input, pairs, i, k - 1, before);
        if Rejects(input, pairs, i, k - 1) { assert FirstRejects(input, pairs, i, k - 1); }
        assert AnyFaulty(input, i, k) <==> AnyFaulty(input, i, k - 1) || Faulty(input, i, k - 1);
      }
    } else if i > 0 {
      ScanExactly(input, pairs, i - 1, |input.probes|);
      assert AnyFaulty(input, i, 0) <==> AnyFaulty(input, i - 1, |input.probes|);
    } else {
      NothingScanned(input, pairs);
    }
  }

  lemma {:induction false} NothingScanned(input: Input, pairs: seq<Pair>)
    ensures Start(input, pairs).reject.None? && Start(input, pairs).missing == [] && AllErrored([])
  {
  }

  lemma {:induction false} OneFirst(input: Input, pairs: seq<Pair>, a: nat, b: nat, c: nat, d: nat)
    requires |pairs| == |input.scenarios| && FirstRejects(input, pairs, a, b) && FirstRejects(input, pairs, c, d)
    ensures a == c && b == d
  {
    hide Rejects;
  }

  /** On its replays a run is rejected exactly when some cell ends the scan, and for the reason of the first; it is
      unverified with PROBE_ERROR exactly when none does but some probe could not be evaluated. */
  lemma {:induction false} OutcomeExactly(input: Input, pairs: seq<Pair>)
    requires ValidInput(input) && Starts(input) && Ran(input, pairs)
    ensures forall a: nat, b: nat :: FirstRejects(input, pairs, a, b) ==>
      RejectedFor(RunOf(input), ReasonAt(input, a, b))
    ensures RunOf(input).envelope.status == Reject <==> !NoneRejects(input, pairs, |pairs|, 0)
    ensures RunOf(input).envelope.status == UnverifiedNoVerdict <==>
      NoneRejects(input, pairs, |pairs|, 0) && AnyFaulty(input, |pairs|, 0)
    ensures RunOf(input).envelope.status == UnverifiedNoVerdict ==>
      RunOf(input).envelope.tier == HumanReview && RunOf(input).envelope.reason == ProbeError
  {
    hide Ran, Replays, After, Rejects, Faulty, NoneRejects, AnyFaulty, FromReplay, AllErrored, Conclude, ReasonAt,
      OpeningProofs, Refused, Decide, FirstRejects;
    RanExactly(input, pairs);
    PairsGood(input, pairs);
    ScanExactly(input, pairs, |pairs|, 0);
    var scan := After(input, pairs, |pairs|, 0);
    assert RunOf(input) == Conclude(input, pairs, scan);
    forall a: nat, b: nat, c: nat, d: nat | FirstRejects(input, pairs, a, b) && FirstRejects(input, pairs, c, d)
      ensures a == c && b == d
    {
      OneFirst(input, pairs, a, b, c, d);
    }
    forall a: nat, b: nat | FirstRejects(input, pairs, a, b) ensures !NoneRejects(input, pairs, |pairs|, 0) {
      FirstIsOne(input, pairs, a, b);
    }
    if scan.reject.Some? {
      ScanRejects(input, pairs, scan);
    } else if scan.missing != [] {
      ScanIncomplete(input, pairs, scan);
    } else {
      FaultlessTable(input, pairs);
      CleanVerdict(input, pairs);
    }
  }

  lemma {:induction false} FirstIsOne(input: Input, pairs: seq<Pair>, a: nat, b: nat)
    requires |pairs| == |input.scenarios| && FirstRejects(input, pairs, a, b)
    ensures !NoneRejects(input, pairs, |pairs|, 0)
  {
    hide Rejects;
  }

  lemma {:induction false} PairsGood(input: Input, pairs: seq<Pair>)
    requires ValidInput(input) && Replays(input, |input.scenarios|) == Ok(pairs)
    ensures GoodPairs(input, pairs) && |pairs| == |input.scenarios|
  {
    hide Replays, FromReplay;
    ReplaysAreGood(input, |input.scenarios|);
    assert input.scenarios[..|input.scenarios|] == input.scenarios;
  }

  lemma {:induction false} ScanRejects(input: Input, pairs: seq<Pair>, scan: Scan)
    requires scan.reject.Some?
    ensures RejectedFor(Conclude(input, pairs, scan), scan.reject.value)
  {
    hide Checked, RequiredIds, DecisionId, ScenarioCount, Refused, AllIds, KindsPresent;
  }

  lemma {:induction false} ScanIncomplete(input: Input, pairs: seq<Pair>, scan: Scan)
    requires scan.reject.None? && scan.missing != [] && AllErrored(scan.missing)
    ensures var e := Conclude(input, pairs, scan).envelope;
      e.status == UnverifiedNoVerdict && e.tier == HumanReview && e.reason == ProbeError
  {
    hide RequiredIds, DecisionId, ScenarioCount, AllIds, KindsPresent, ClosingProofs, MentionsErrored, MissingCells,
      HasDuplicates;
    assert scan.missing[0] in scan.missing;
  }

  lemma {:induction false} FaultlessTable(input: Input, pairs: seq<Pair>)
    requires ValidInput(input) && GoodPairs(input, pairs)
    requires NoneRejects(input, pairs, |pairs|, 0) && !AnyFaulty(input, |pairs|, 0)
    ensures AllClean(input, pairs, |pairs|, 0)
  {
    hide Meaning, Holds, FromReplay, ValidInput;
    forall a: nat, b: nat | Cellular(input, pairs, a, b) && Earlier(a, b, |pairs|, 0)
      ensures Clean(input, pairs, a, b) {
      assert !Faulty(input, a, b) && !Rejects(input, pairs, a, b);
      ChecksValid(input, b);
      HoldsIsMeaning(input.probes[b].check, pairs[a].baseline, input.scenarios[a].id);
    }
  }

  // ---------- what the coverage then says ----------

  ghost predicate ErroredCell(input: Input, m: string, a: nat, b: nat) {
    && a < |input.scenarios| && b < |input.probes| && Faulty(input, a, b)
    && m == input.scenarios[a].id + ":" + input.probes[b].id + ":errored"
  }

  /** A probe before probe `k` of scenario `i` could not be evaluated, and the text says which. */
  ghost predicate ErroredBefore(input: Input, m: string, i: nat, k: nat) {
    exists a, b :: ErroredCell(input, m, a, b) && Earlier(a, b, i, k)
  }

  /** What is noted of the cell that ends the scan. */
  function EndText(input: Input, a: nat, b: nat): string
    requires a < |input.scenarios| && b < |input.probes|
  {
    var cell := (input.scenarios[a].id, input.probes[b].id);
    cell.0 + ":" + cell.1 + ":" +
    if cell !in input.faults then "baseline_breach"
    else if input.faults[cell] == Untrusted then "untrusted_probe" else "verdict_path_violation"
  }

  lemma {:induction false} NotedStep(input: Input, pairs: seq<Pair>, a: nat, b: nat, before: Scan)
    requires ValidInput(input) && Cellular(input, pairs, a, b) && before.reject.None?
    ensures var scan := ScanCell(input, input.scenarios[a].id, pairs[a], input.probes[b], before);
      scan.missing == before.missing +
        if Rejects(input, pairs, a, b) then [EndText(input, a, b)]
        else if Faulty(input, a, b) then [input.scenarios[a].id + ":" + input.probes[b].id + ":errored"] else []
  {
    hide Evaluate, FromReplay, Meaning, ValidInput;
    assert ValidCheck(input.probes[b].check) by { ChecksValid(input, b); }
    EvaluateShape(input.probes[b].check, pairs[a].baseline);
    EvaluateShape(input.probes[b].check, pairs[a].candidate);
    HoldsIsMeaning(input.probes[b].check, pairs[a].baseline, input.scenarios[a].id);
    assert before.missing + [] == before.missing;
    assert CellText(CellOf(input, a, b), "errored") == input.scenarios[a].id + ":" + input.probes[b].id + ":errored";
  }

  lemma {:induction false} ErroredStep(input: Input, m: string, i: nat, k: nat)
    requires k > 0
    ensures ErroredBefore(input, m, i, k) <==> ErroredBefore(input, m, i, k - 1) || ErroredCell(input, m, i, k - 1)
  {
    hide ErroredCell;
  }

  lemma {:induction false} ErroredRow(input: Input, m: string, i: nat)
    requires i > 0
    ensures ErroredBefore(input, m, i, 0) <==> ErroredBefore(input, m, i - 1, |input.probes|)
  {
    hide Faulty;
    if ErroredBefore(input, m, i, 0) {
      var a, b :| ErroredCell(input, m, a, b) && Earlier(a, b, i, 0);
      assert Earlier(a, b, i - 1, |input.probes|);
    }
    if ErroredBefore(input, m, i - 1, |input.probes|) {
      var a, b :| ErroredCell(input, m, a, b) && Earlier(a, b, i - 1, |input.probes|);
      assert Earlier(a, b, i, 0);
    }
  }

  /** What the scan has noted: the probes that could not be evaluated, and the cell that ended it. */
  lemma {:induction false} NotedExactly(input: Input, pairs: seq<Pair>, i: nat, k: nat, m: string)
    requires ValidInput(input) && GoodPairs(input, pairs) && InTable(input, pairs, i, k)
    ensures var scan := After(input, pairs, i, k);
      && (scan.reject.None? ==> (m in scan.missing <==> ErroredBefore(input, m, i, k)))
      && (scan.reject.Some? ==>
            exists a: nat, b: nat ::
              && FirstRejects(input, pairs, a, b)
              && (m in scan.missing <==> m == EndText(input, a, b) || ErroredBefore(input, m, a, b)))
    decreases i, k
  {
    hide ScanCell, Rejects, FromReplay, Start, ValidInput, EndText, ErroredBefore, ReasonAt, AllErrored;
    if k > 0 {
      NotedExactly(input, pairs, i, k - 1, m);
      var before := After(input, pairs, i, k - 1);
      if before.reject.None? {
        assert Cellular(input, pairs, i, k - 1);
        NotedStep(input, pairs, i, k - 1, before);
        ErroredStep(input, m, i, k);
        ScanExactly(input, pairs, i, k - 1);
        ScanExactly(input, pairs, i, k);
        if Rejects(input, pairs, i, k - 1) { assert FirstRejects(input, pairs, i, k - 1); }
      }
    } else if i > 0 {
      NotedExactly(input, pairs, i - 1, |input.probes|, m);
      ErroredRow(input, m, i);
    } else {
      NothingNoted(input, pairs, m);
    }
  }

  lemma {:induction false} NothingNoted(input: Input, pairs: seq<Pair>, m: string)
    ensures Start(input, pairs).reject.None? && Start(input, pairs).missing == [] && !ErroredBefore(input, m, 0, 0)
  {
  }

  /** What the coverage of a run says is missing: the text of the reason, when there is one, the cell that ended the
      scan, and before that every probe that could not be evaluated. */
  lemma {:induction false} MissingTexts(input: Input, pairs: seq<Pair>, m: string)
    requires ValidInput(input) && Starts(input) && Ran(input, pairs)
    ensures var run := RunOf(input);
      && (NoneRejects(input, pairs, |pairs|, 0) ==>
            (m in run.coverage.missing <==> ErroredBefore(input, m, |pairs|, 0))
            && (run.coverage.complete <==> !AnyFaulty(input, |pairs|, 0)))
      && (forall a: nat, b: nat :: FirstRejects(input, pairs, a, b) ==>
            && !run.coverage.complete
            && (m in run.coverage.missing <==>
                  || m == (if Faulty(input, a, b) then "VERDICT_PATH_VIOLATION" else "BASELINE_BREACHES")
                  || m == EndText(input, a, b) || ErroredBefore(input, m, a, b)))
  {
    hide Ran, Replays, After, Rejects, NoneRejects, AnyFaulty, FromReplay, AllErrored, OpeningProofs, ClosingProofs,
      Decide, FirstRejects, EndText, ErroredBefore, TextLeq, UniqueSorted;
    RanExactly(input, pairs);
    PairsGood(input, pairs);
    var scan := After(input, pairs, |pairs|, 0);
    ScanExactly(input, pairs, |pairs|, 0);
    NotedExactly(input, pairs, |pairs|, 0, m);
    assert RunOf(input) == Conclude(input, pairs, scan);
    forall a: nat, b: nat, c: nat, d: nat | FirstRejects(input, pairs, a, b) && FirstRejects(input, pairs, c, d)
      ensures a == c && b == d
    {
      OneFirst(input, pairs, a, b, c, d);
    }
    forall a: nat, b: nat | FirstRejects(input, pairs, a, b) ensures !NoneRejects(input, pairs, |pairs|, 0) {
      FirstIsOne(input, pairs, a, b);
    }
    if scan.reject.Some? { RefusedTexts(scan.cells, scan.reject.value, scan.missing, m); }
  }

  lemma {:induction false} RefusedTexts(cells: seq<Cell>, reason: ReasonCode, missing: seq<string>, m: string)
    ensures m in Refused(cells, reason, missing).missing <==> m == ReasonText(reason) || m in missing
    ensures !Refused(cells, reason, missing).complete
  {
    hide TextLeq, UniqueSorted, ReasonText;
    Verification.TextOrder();
    UniqueSortedContents([ReasonText(reason)] + missing, TextLeq);
  }

  /** A run that is stopped before its replays are through has nothing but its opening proofs - the package, the
      edit and the compiled spec - and covers nothing. */
  lemma {:induction false} StoppedRun(input: Input)
    requires ValidInput(input) && (!Starts(input) || !exists pairs :: Ran(input, pairs))
    ensures var run := RunOf(input);
      && |run.proofs| == 3 && run.proofs[0].kind == PackageCanonical && run.proofs[1].kind == EditProvenance
      && run.proofs[2].kind == SpecCompile && run.pairs == []
      && run.coverage.cells == [] && !run.coverage.complete && run.reject.Some?
      && forall m :: m in run.coverage.missing <==> m == ReasonText(run.reject.value)
  {
    hide Replays, Ran, After, Decide, TextLeq, UniqueSorted, EncodeTraces, PackageArtifact, ReasonText, Refused;
    if Replays(input, |input.scenarios|).Ok? { RanExactly(input, Replays(input, |input.scenarios|).value); }
    var reject := RunOf(input).reject.value;
    forall m ensures m in RunOf(input).coverage.missing <==> m == ReasonText(reject) {
      RefusedTexts([], reject, [], m);
    }
    NoCells(reject);
  }

  lemma {:induction false} NoCells(reason: ReasonCode)
    ensures Refused([], reason, []).cells == [] && !Refused([], reason, []).complete
  {
    hide UniqueSorted;
  }
}
