/** `verify` at the hash-only level, and what it says of a receipt that a run issued and published. */
module Verification {
  import opened Wrappers
  import opened Models
  import opened Digests
  import opened Ordering
  import opened ProofKernel
  import opened Runner
  import opened RunVerdict
  import opened Receipts
  import opened Ledger
  import opened Issuance
  import RoundTrip

  // ---------- the strength summary, read back ----------

  function InsertNew(x: string, s: seq<string>): seq<string> {
    if s == [] then [x]
    else if x == s[0] then s
    else if TextLeq(x, s[0]) then [x] + s
    else [s[0]] + InsertNew(x, s[1..])
  }

  /** `sorted(set(items))`: a second way to the list `_unique_sorted` gives. */
  function SortedSet(items: seq<string>): seq<string> {
    if items == [] then [] else InsertNew(items[|items| - 1], SortedSet(items[..|items| - 1]))
  }

  lemma {:induction false} TextLeqReflexive(a: string)
    ensures TextLeq(a, a)
  {
    if a != "" { TextLeqReflexive(a[1..]); }
  }

  lemma {:induction false} TextLeqTotal(a: string, b: string)
    ensures TextLeq(a, b) || TextLeq(b, a)
    ensures TextLeq(a, b) && TextLeq(b, a) ==> a == b
  {
    if a != "" && b != "" && a[0] == b[0] {
      TextLeqTotal(a[1..], b[1..]);
      assert a == [a[0]] + a[1..] && b == [b[0]] + b[1..];
    }
  }

  lemma {:induction false} TextLeqTransitive(a: string, b: string, c: string)
    requires TextLeq(a, b) && TextLeq(b, c)
    ensures TextLeq(a, c)
  {
    if a != "" && b != "" && c != "" && a[0] == b[0] == c[0] {
      TextLeqTransitive(a[1..], b[1..], c[1..]);
    }
  }

  lemma {:induction false} TextOrder()
    ensures TotalOrder(TextLeq)
  {
    forall x, y ensures (TextLeq(x, y) || TextLeq(y, x)) && (TextLeq(x, y) && TextLeq(y, x) ==> x == y) {
      TextLeqTotal(x, y);
    }
    forall x, y, z | TextLeq(x, y) && TextLeq(y, z) ensures TextLeq(x, z) { TextLeqTransitive(x, y, z); }
  }

  lemma {:induction false} InsertNewContents(x: string, s: seq<string>)
    requires TotalOrder(TextLeq) && Ascending(s, TextLeq) && Distinct(s)
    ensures Ascending(InsertNew(x, s), TextLeq) && Distinct(InsertNew(x, s))
    ensures forall y :: y in InsertNew(x, s) <==> y == x || y in s
  {
    if s != [] && x != s[0] {
      if TextLeq(x, s[0]) {
        assert forall i :: 0 <= i < |s| ==> TextLeq(x, s[i]);
        assert forall i :: 0 <= i < |s| ==> TextLeq(s[0], s[i]);
        assert x !in s;
        AscendingCons(x, s, TextLeq);
      } else {
        InsertNewContents(x, s[1..]);
        var rest := InsertNew(x, s[1..]);
        assert s == [s[0]] + s[1..];
        assert s[0] !in s[1..];
        forall i | 0 <= i < |rest| ensures TextLeq(s[0], rest[i]) {
          assert rest[i] in rest;
        }
        AscendingCons(s[0], rest, TextLeq);
      }
    }
  }

  lemma {:induction false} SortedSetContents(items: seq<string>)
    requires TotalOrder(TextLeq)
    ensures Ascending(SortedSet(items), TextLeq) && Distinct(SortedSet(items))
    ensures forall y :: y in SortedSet(items) <==> y in items
  {
    hide InsertNew;
    if items != [] {
      var front := items[..|items| - 1];
      SortedSetContents(front);
      InsertNewContents(items[|items| - 1], SortedSet(front));
      assert items == front + [items[|items| - 1]];
    }
  }

  /** The report sorts a set, the receipt sorts a list it made free of repetitions: the same list. */
  lemma {:induction false} SummariesAgree(items: seq<string>)
    ensures SortedSet(items) == UniqueSorted(items, TextLeq)
  {
    TextOrder();
    SortedSetContents(items);
    UniqueSortedContents(items, TextLeq);
    AscendingUnique(SortedSet(items), UniqueSorted(items, TextLeq), TextLeq);
  }

  /** `render_strength_summary`. */
  method RenderStrengthSummary(r: Receipt) returns (text: string)
    ensures text == StrengthSummary(r.proofs, |r.scenarioIds|)
  {
    var metrics: seq<string> := [];
    for i := 0 to |r.proofs|
      invariant metrics == StrengthItems(r.proofs[..i])
    {
      assert r.proofs[..i + 1][..i] == r.proofs[..i];
      var found := r.proofs[i].assertions;
      ghost var before := metrics;
      for j := 0 to |found|
        invariant metrics == before + AssertionTexts(found[..j])
      {
        assert AssertionTexts(found[..j + 1]) == AssertionTexts(found[..j]) + [AssertionText(found[j])];
        metrics := metrics + [AssertionText(found[j])];
      }
      assert found[..|found|] == found;
    }
    assert r.proofs[..|r.proofs|] == r.proofs;
    SummariesAgree(metrics);
    text := SummaryText(SortedSet(metrics), |r.scenarioIds|);
  }

  // ---------- hash-only verification ----------

  datatype Verification =
    | Rejected(reason: ReasonCode)
    | ProofsMissing(missing: set<MissingItem>)
    | CoverageGap(cells: seq<string>)
    | Consistent       // UNVERIFIED_NO_VERDICT with coverage "complete": this level never says more
    | WalkCrashed           // the ledger walk met a line that is not an object, or one with a raw float

  ghost predicate HashOnlyClean(r: Receipt, ledger: Option<seq<Line>>, checkpoint: Document<Checkpoint>, t: Trust) {
    && SelfConsistent(r) && LedgerAccepts(ledger, r, checkpoint, t)
    && r.coverage.complete && r.strength == StrengthSummary(r.proofs, |r.scenarioIds|)
  }

  method VerifyHashOnly(r: Receipt, ledger: Option<seq<Line>>, checkpoint: Document<Checkpoint>, t: Trust)
    returns (v: Verification)
    ensures v == Consistent <==> HashOnlyClean(r, ledger, checkpoint, t)
    ensures v.ProofsMissing? <==> ComputeReceiptHash(r) == r.receiptHash && MissingRequired(r) != {}
    ensures v.ProofsMissing? ==> v.missing == MissingRequired(r)
    ensures v.CoverageGap? <==> SelfConsistent(r) && LedgerAccepts(ledger, r, checkpoint, t) && !r.coverage.complete
    ensures v.CoverageGap? ==> v.cells == r.coverage.missing
    ensures v.Rejected? ==> v.reason == ReceiptMismatch
    ensures v == WalkCrashed <==> SelfConsistent(r) && ledger.Some? && exists k: nat :: CrashesAt(ledger.value, r, k)
  {
    hide ComputeReceiptHash, MissingRequired, LedgerAccepts, StrengthSummary, CrashesAt;
    if ComputeReceiptHash(r) != r.receiptHash { return Rejected(ReceiptMismatch); }
    var missing := MissingRequiredProofIds(r);
    if missing != {} { return ProofsMissing(missing); }
    var binding := BindingError(r);
    if binding.Some? { return Rejected(binding.value); }
    var outcome := LedgerError(r, ledger, checkpoint, t);
    match outcome {
      case Mismatch => return Rejected(ReceiptMismatch);
      case Crash => return WalkCrashed;
      case Clean =>
    }
    if !r.coverage.complete { return CoverageGap(r.coverage.missing); }
    var rendered := RenderStrengthSummary(r);
    if rendered != r.strength { return Rejected(ReceiptMismatch); }
    return Consistent;
  }

  /** The receipt a run hands over: issued, then bound to its report. */
  function FinalReceipt(input: Input, s: Setting, traces: Value): Option<Receipt>
    requires ValidInput(input)
  {
    var run := RunOf(input);
    var issued := IssueReceipt(run.envelope, run.proofs, run.coverage, s);
    if issued.None? then None else Some(Finalize(run.envelope, issued.value, traces, run.proofs).0)
  }

  /** Within each scenario, no two probes report the same pair of results. */
  ghost predicate DistinctResults(input: Input, pairs: seq<Pair>)
    requires GoodPairs(input, pairs)
  {
    forall a: nat, b: nat, b': nat :: a < |pairs| && b < b' < |input.probes| ==>
      !RoundTrip.SameResults(input, pairs, a, b, b')
  }

  /** A valid input whose run ends in PASS or WITHHELD. */
  ghost predicate Issues(input: Input) {
    ValidInput(input) && RunOf(input).envelope.status in {Pass, Withheld}
  }

  lemma {:induction false} FinalReceiptFacts(input: Input, s: Setting, traces: Value)
    requires Issues(input) && s.identity == input.identity
    ensures GoodPairs(input, RunOf(input).pairs)
    ensures var final := FinalReceipt(input, s, traces);
      && final.Some? && SelfHashed(final.value) && final.value.coverage.complete
      && final.value.strength == StrengthSummary(final.value.proofs, |final.value.scenarioIds|)
      && (SelfConsistent(final.value) <==> DistinctResults(input, RunOf(input).pairs))
  {
    hide RunOf, IssueReceipt, Finalize, MissingRequired, BindingError, ComputeReceiptHash, StrengthSummary,
         RoundTrip.SameResults, ExternalReportError, Decides, RunnerShaped, ToReport;
    var run := RunOf(input);
    RoundTrip.IssuedReceiptConsistent(input, s);
    RoundTrip.RunIsShaped(input);
    var issued := IssueReceipt(run.envelope, run.proofs, run.coverage, s).value;
    TwoPassBinding(run.envelope, issued, traces, run.proofs);
    IssuedFacts(run.envelope, run.proofs, run.coverage, Context(input.chain.status, run.reject), s);
    IssueVerifyRoundTrip(run.envelope, run.proofs, run.coverage, Context(input.chain.status, run.reject), s);
  }

  /** The receipt is the first for its key among the published ones. */
  ghost predicate FirstForKey(receipt: Option<Receipt>, writes: seq<Write>) {
    receipt.Some? ==> FirstWrite(writes, receipt.value)
  }

  /** What hash-only verification finds of the receipt against these files. */
  ghost predicate Verifies(receipt: Option<Receipt>, files: Files, t: Trust) {
    && receipt.Some? && files.checkpoint.Some?
    && HashOnlyClean(receipt.value, files.ledger, Loaded(files.checkpoint.value), t)
  }

  /** From run to verification: a run that delivered PASS or WITHHELD yields a receipt which, once
      published as the first for its key, every later hash-only verification finds consistent -
      exactly when no two probes report the same results on one scenario. */
  lemma {:induction false} PublishedReceiptVerifies(input: Input, s: Setting, traces: Value, writes: seq<Write>,
                                                    leq: HashOrder, t: Trust)
    requires Issues(input) && s.identity == input.identity && t.key.None? && t.policy.NoPath?
    requires TotalOrder(leq) && forall i :: 0 <= i < |writes| ==> SelfHashed(writes[i].receipt)
    requires FirstForKey(FinalReceipt(input, s, traces), writes)
    ensures FinalReceipt(input, s, traces).Some? && FilesAfter(writes, leq).checkpoint.Some?
    ensures GoodPairs(input, RunOf(input).pairs)
    ensures Verifies(FinalReceipt(input, s, traces), FilesAfter(writes, leq), t) <==>
      DistinctResults(input, RunOf(input).pairs)
  {
    hide RunOf, FilesAfter, Firsts, FinalReceipt, SelfConsistent, SelfHashed, LedgerAccepts, StrengthSummary,
      DistinctResults, FirstWrite, GoodPairs;
    FinalReceiptFacts(input, s, traces);
    var final := FinalReceipt(input, s, traces).value;
    SomethingWritten(writes, final);
    IssuedExactly(writes, final, leq, t);
  }

  lemma {:induction false} SomethingWritten(writes: seq<Write>, r: Receipt)
    requires FirstWrite(writes, r)
    ensures writes != []
  {
  }

  lemma {:induction false} IssuedFacts(e: Envelope, ps: seq<Proof>, coverage: Manifest, context: Context, s: Setting)
    requires Decides(e, ps, coverage, context) && e.status in {Pass, Withheld}
    ensures var issued := IssueReceipt(e, ps, coverage, s);
      && issued.Some? && issued.value.coverage.complete
      && issued.value.strength == StrengthSummary(issued.value.proofs, |issued.value.scenarioIds|)
  {
  }
}
