/** What a receipt says of itself, and what the verifier's checks of it come to, in the fields of the receipt. */
module Bindings {
  import opened Wrappers
  import opened Models
  import opened Digests
  import opened Ordering
  import opened Canonical
  import opened Probes
  import opened ProofKernel
  import opened Runner
  import opened Receipts
  import opened Decisions
  import opened Encodings
  import opened Ledger
  import Merkle
  import Verification

  // ---------- issuing ----------

  /** A breach of the receipt: an assertion of a probe proof that does not hold. */
  lemma {:induction false} BreachesExactly(ps: seq<Proof>, x: Assertion)
    ensures x in Breaches(ps) <==> !x.holds && exists p :: p in ps && p.kind == Probe && x in p.assertions
  {
    if ps != [] {
      var front, last := ps[..|ps| - 1], ps[|ps| - 1];
      assert ps == front + [last];
      BreachesExactly(front, x);
      FailingExactly(last.assertions, x);
    }
  }

  lemma {:induction false} FailingExactly(s: seq<Assertion>, x: Assertion)
    ensures x in Failing(s) <==> x in s && !x.holds
  {
    if s != [] {
      assert s == s[..|s| - 1] + [s[|s| - 1]];
      FailingExactly(s[..|s| - 1], x);
    }
  }

  /** Breaches are listed proof by proof, in the order of the assertions. */
  lemma {:induction false} BreachesInOrder(ps: seq<Proof>, p: Proof, s: seq<Assertion>, x: Assertion)
    ensures Breaches(ps + [p]) == Breaches(ps) + if p.kind == Probe then Failing(p.assertions) else []
    ensures Failing(s + [x]) == Failing(s) + if x.holds then [] else [x]
    ensures Breaches([]) == [] && Failing([]) == []
  {
    assert (ps + [p])[..|ps|] == ps && (s + [x])[..|s|] == s;
  }

  /** What a receipt is made of.  Only the three statuses of a verdict get one; its proofs are the run's and the
      decision proof, which is added unless the run has that id already. */
  lemma {:induction false} ReceiptExactly(e: Envelope, ps: seq<Proof>, coverage: Manifest, s: Setting)
    ensures var issued, d := IssueReceipt(e, ps, coverage, s), MakeDecisionProof(e, ps);
      && (issued.Some? <==> e.status == Pass || e.status == Withheld || e.status == ReduceSize)
      && (issued.Some? ==>
            var r := issued.value;
            && r.identityHash == s.identity.packageHash == r.manifestHash && r.adapterId == s.identity.adapterId
            && r.lockHash == s.identity.lockHash && r.baselineHash == s.identity.baselineHash
            && r.candidateHash == s.identity.candidateHash && r.prevReceiptHash == s.prevReceiptHash
            && r.specHash == s.specHash && r.suiteLockHash == s.suiteLockHash && r.scenarioIds == s.scenarioIds
            && r.chainStatus == e.chainStatus && r.status == e.status && r.coverage == coverage
            && r.reason == e.reason && r.tier == e.tier && r.sizeCap == e.sizeCap && r.capabilities == e.capabilities
            && r.required == e.required && r.satisfied == e.satisfied
            && r.proofs == ps + (if exists p :: p in ps && p.id == d.id then [] else [d])
            && (forall x :: x in r.breaches <==>
                  !x.holds && exists p :: p in r.proofs && p.kind == Probe && x in p.assertions)
            && r.resultHash == HashObj(Rec("result", [OfStatus(r.status), EncodeAssertions(r.breaches)]))
            && r.strength == StrengthSummary(r.proofs, |s.scenarioIds|) && r.reportHash == Pending
            && r.provenance == s.provenance && r.other == s.other && r.receiptHash == ComputeReceiptHash(r))
      && d.kind == Decision && d.verdictBearing && d.phase == "decide" && d.assertions == [] && d.meta == NO_META
      && d.id == DecisionId(e.status, e.reason, AllIds(ps), e.coverage, e.tier, e.sizeCap)
      && d.inputsHash == DecisionInputs(ps, e.coverage) && d.artifactHash == HashObj(EncodeEnvelope(e))
  {
    hide EncodeReceipt, StrengthSummary, Breaches, DecisionInputs, EncodeEnvelope, EncodeAssertions, DecisionId;
    var issued := IssueReceipt(e, ps, coverage, s);
    assert ps + [] == ps;
    if issued.Some? {
      forall x ensures x in issued.value.breaches <==>
        !x.holds && exists p :: p in issued.value.proofs && p.kind == Probe && x in p.assertions
      {
        BreachesExactly(issued.value.proofs, x);
      }
    }
  }

  // ---------- hashes ----------

  lemma {:induction false} ResultDigestBinds(s: Status, t: Status, xs: seq<Assertion>, ys: seq<Assertion>)
    ensures ResultDigest(s, xs) == ResultDigest(t, ys) <==> s == t && xs == ys
  {
    hide EncodeAssertions;
    if ResultDigest(s, xs) == ResultDigest(t, ys) {
      var x, y := ResultDigest(s, xs).payload.fields, ResultDigest(t, ys).payload.fields;
      assert x[0] == y[0] && x[1] == y[1];
      AssertionsEncodeInjective(xs, ys);
    }
  }

  lemma {:induction false} EnvelopeBinds(e: Envelope, f: Envelope)
    ensures HashObj(EncodeEnvelope(e)) == HashObj(EncodeEnvelope(f)) <==> e == f
  {
    hide EncodeManifest;
    if HashObj(EncodeEnvelope(e)) == HashObj(EncodeEnvelope(f)) {
      var x, y := EncodeEnvelope(e).fields, EncodeEnvelope(f).fields;
      assert x[0] == y[0] && x[1] == y[1] && x[2] == y[2] && x[3] == y[3] && x[4] == y[4] && x[5] == y[5] &&
        x[6] == y[6]
        && x[7] == y[7] && x[8] == y[8];
      assert x[8].fields[0] == y[8].fields[0] && x[8].fields[1] == y[8].fields[1];
      ManifestEncodeInjective(e.coverage, f.coverage);
    }
  }

  lemma {:induction false} PackageBinds(a: Identity, b: Identity)
    ensures HashObj(PackageArtifact(a)) == HashObj(PackageArtifact(b)) <==> a == b
  {
    if PackageArtifact(a) == PackageArtifact(b) {
      var x, y := PackageArtifact(a).fields, PackageArtifact(b).fields;
      assert x[0] == y[0] && x[1] == y[1] && x[2] == y[2] && x[3] == y[3] && x[4] == y[4];
    }
  }

  /** The inputs of a decision are the proofs, in any order, and the coverage. */
  lemma {:induction false} DecisionInputsBind(ps: seq<Proof>, qs: seq<Proof>, c: Manifest, d: Manifest)
    ensures DecisionInputs(ps, c) == DecisionInputs(qs, d) <==> multiset(ps) == multiset(qs) && c == d
  {
    hide EncodeManifest, Fingerprints, AllIds;
    if DecisionInputs(ps, c) == DecisionInputs(qs, d) {
      var x, y := DecisionInputs(ps, c).payload.fields, DecisionInputs(qs, d).payload.fields;
      assert x[0] == y[0] && x[2] == y[2];
      ManifestEncodeInjective(c, d);
      SameFingerprints(ps, qs);
    }
    if multiset(ps) == multiset(qs) { SameBags(ps, qs); }
  }

  lemma {:induction false} FingerprintsSnoc(ps: seq<Proof>, p: Proof)
    ensures Fingerprints(ps + [p]) == Fingerprints(ps) + multiset{HashObj(EncodeProof(p))}
    ensures AllIds(ps + [p]) == AllIds(ps) + multiset{p.id}
  {
    hide EncodeProof;
    var a := seq(|ps|, i requires 0 <= i < |ps| => HashObj(EncodeProof(ps[i])));
    var b := seq(|ps| + 1, i requires 0 <= i < |ps| + 1 => HashObj(EncodeProof((ps + [p])[i])));
    assert b == a + [HashObj(EncodeProof(p))];
    var c := seq(|ps|, i requires 0 <= i < |ps| => ps[i].id);
    var d := seq(|ps| + 1, i requires 0 <= i < |ps| + 1 => (ps + [p])[i].id);
    assert d == c + [p.id];
  }

  /** How often a proof occurs is how often its fingerprint does. */
  lemma {:induction false} FingerprintCount(ps: seq<Proof>, p: Proof)
    ensures Fingerprints(ps)[HashObj(EncodeProof(p))] == multiset(ps)[p]
  {
    hide EncodeProof;
    if ps != [] {
      var front, last := ps[..|ps| - 1], ps[|ps| - 1];
      assert ps == front + [last];
      FingerprintCount(front, p);
      FingerprintsSnoc(front, last);
      if EncodeProof(last) == EncodeProof(p) { ProofEncodeInjective(last, p); }
    }
  }

  lemma {:induction false} SameFingerprints(ps: seq<Proof>, qs: seq<Proof>)
    requires Fingerprints(ps) == Fingerprints(qs)
    ensures multiset(ps) == multiset(qs)
  {
    hide Fingerprints, EncodeProof;
    forall p ensures multiset(ps)[p] == multiset(qs)[p] {
      FingerprintCount(ps, p);
      FingerprintCount(qs, p);
    }
  }

  lemma {:induction false} SameBags(ps: seq<Proof>, qs: seq<Proof>)
    requires multiset(ps) == multiset(qs)
    ensures Fingerprints(ps) == Fingerprints(qs) && AllIds(ps) == AllIds(qs)
    decreases |ps|
  {
    hide Fingerprints, EncodeProof, AllIds;
    if ps == [] {
      EmptyBag(qs);
    } else {
      var front, last := ps[..|ps| - 1], ps[|ps| - 1];
      assert ps == front + [last];
      assert last in multiset(ps);
      var before, after := TakenOut(qs, last);
      assert multiset(ps) == multiset(front) + multiset{last};
      assert multiset(front) == multiset(ps) - multiset{last};
      SameBags(front, before + after);
      FingerprintsSnoc(front, last);
      Lifted(before, last, after);
    }
  }

  lemma {:induction false} EmptyBag(qs: seq<Proof>)
    requires multiset(qs) == multiset{}
    ensures qs == []
  {
    assert |multiset(qs)| == |qs|;
  }

  lemma {:induction false} TakenOut(qs: seq<Proof>, p: Proof) returns (before: seq<Proof>, after: seq<Proof>)
    requires p in multiset(qs)
    ensures qs == before + [p] + after && multiset(before + after) == multiset(qs) - multiset{p}
  {
    var k :| 0 <= k < |qs| && qs[k] == p;
    before, after := qs[..k], qs[k + 1..];
    assert qs == before + [p] + after;
    assert multiset(qs) == multiset(before) + multiset{p} + multiset(after);
  }

  lemma {:induction false} Lifted(before: seq<Proof>, p: Proof, after: seq<Proof>)
    ensures Fingerprints(before + [p] + after) == Fingerprints(before + after) + multiset{HashObj(EncodeProof(p))}
    ensures AllIds(before + [p] + after) == AllIds(before + after) + multiset{p.id}
    decreases |after|
  {
    hide Fingerprints, EncodeProof, AllIds;
    if after == [] {
      assert before + [p] + after == before + [p] && before + after == before;
      FingerprintsSnoc(before, p);
    } else {
      var front, last := after[..|after| - 1], after[|after| - 1];
      Lifted(before, p, front);
      assert before + [p] + after == (before + [p] + front) + [last] && before + after == (before + front) + [last];
      FingerprintsSnoc(before + [p] + front, last);
      FingerprintsSnoc(before + front, last);
    }
  }

  // ---------- the binding check ----------

  predicate OnceOnly(kind: ProofKind) {
    kind in {PackageCanonical, SpecCompile, ReplayRun, ReplayWellformed, ProofKind.Coverage, BaselineCalibration,
             CandidateAbsolute, Decision}
  }

  /** No two proofs have one id, and no two are of one of the kinds that occur once. */
  ghost predicate Apart(ps: seq<Proof>) {
    forall i, j :: 0 <= i < j < |ps| ==> ps[i].id != ps[j].id && !(ps[i].kind == ps[j].kind && OnceOnly(ps[i].kind))
  }

  /** The decision proof was made for what the receipt says, from the receipt's other proofs. */
  ghost predicate DecidedOn(r: Receipt, p: Proof, others: seq<Proof>) {
    && p.id == DecisionId(r.status, r.reason, AllIds(others), r.coverage, r.tier, r.sizeCap)
    && p.inputsHash == DecisionInputs(others, r.coverage)
    && p.artifactHash == HashObj(EncodeEnvelope(
         Envelope(r.status, r.tier, r.sizeCap, r.reason, r.chainStatus, r.required, r.satisfied, r.coverage,
                  r.capabilities)))
  }

  function Others(ps: seq<Proof>): seq<Proof> {
    if ps == [] then [] else if ps[0].kind == Decision then Others(ps[1..]) else [ps[0]] + Others(ps[1..])
  }

  /** The binding check, field by field. */
  ghost predicate BoundTogether(r: Receipt) {
    && r.manifestHash == r.identityHash && Apart(r.proofs)
    && (forall p :: p in r.proofs && p.kind in {EditProvenance, SponsorReadback} ==> !p.verdictBearing)
    && r.resultHash == ResultDigest(r.status, r.breaches)
    && (forall p :: p in r.proofs && p.kind == PackageCanonical ==>
          p.artifactHash == HashObj(PackageArtifact(
            Identity(r.identityHash, r.baselineHash, r.candidateHash, r.adapterId, r.lockHash))))
    && (forall p :: p in r.proofs && p.kind == ProofKind.Coverage ==>
          p.artifactHash == HashObj(EncodeManifest(r.coverage)))
    && (forall p :: p in r.proofs && p.kind == Decision ==> DecidedOn(r, p, Others(r.proofs)))
  }

  lemma {:induction false} BindingExactly(r: Receipt)
    ensures BindingError(r) == if BoundTogether(r) then None else Some(ReceiptMismatch)
  {
    hide PackageArtifact, EncodeManifest, ResultDigest, DecisionInputs, DecisionId, EncodeEnvelope, ProofsOf, Others,
      NonDecision, Apart, HasDuplicates, AtMostOneEach;
    OthersAre(r.proofs);
    ApartExactly(r.proofs);
    if AtMostOneEach(r.proofs) {
      OneOfKind(r.proofs, PackageCanonical);
      OneOfKind(r.proofs, ProofKind.Coverage);
      OneOfKind(r.proofs, Decision);
    }
  }

  lemma {:induction false} OthersAre(ps: seq<Proof>)
    ensures Others(ps) == NonDecision(ps)
  {
    if ps != [] {
      OthersAre(ps[1..]);
      NonDecisionCons(ps[0], ps[1..]);
      assert ps == [ps[0]] + ps[1..];
    }
  }

  lemma {:induction false} NonDecisionCons(p: Proof, rest: seq<Proof>)
    ensures NonDecision([p] + rest) == (if p.kind == Decision then [] else [p]) + NonDecision(rest)
  {
    var all := [p] + rest;
    if rest == [] {
      assert all == [p] && all[..0] == [];
    } else {
      NonDecisionCons(p, rest[..|rest| - 1]);
      assert all[..|all| - 1] == [p] + rest[..|rest| - 1];
    }
  }

  lemma {:induction false} OneOfKind(ps: seq<Proof>, kind: ProofKind)
    requires AtMostOneEach(ps) && OnceOnly(kind)
    ensures forall p :: p in ps && p.kind == kind <==> |ProofsOf(ps, kind)| == 1 && p == ProofsOf(ps, kind)[0]
  {
    hide ProofsOf;
    ProofsOfMembers(ps, kind);
    var found := ProofsOf(ps, kind);
    assert |found| <= 1;
    assert |found| == 1 ==> found[0] in found;
  }

  lemma {:induction false} ApartExactly(ps: seq<Proof>)
    ensures Apart(ps) <==> !HasDuplicates(Ids(ps)) && AtMostOneEach(ps)
  {
    hide ProofsOf;
    forall kind ensures |ProofsOf(ps, kind)| <= 1 <==> Alone(ps, kind) { AloneExactly(ps, kind); }
    var ids := Ids(ps);
    if Apart(ps) {
      assert forall i, j :: 0 <= i < j < |ids| ==> ps[i].id != ps[j].id;
      assert forall kind :: kind in SINGLETONS ==> Alone(ps, kind);
    }
    if !HasDuplicates(ids) && AtMostOneEach(ps) {
      forall i, j | 0 <= i < j < |ps|
        ensures ps[i].id != ps[j].id && !(ps[i].kind == ps[j].kind && OnceOnly(ps[i].kind))
      {
        assert ids[i] == ps[i].id && ids[j] == ps[j].id;
        if OnceOnly(ps[i].kind) { assert Alone(ps, ps[i].kind); }
      }
    }
  }

  ghost predicate Alone(ps: seq<Proof>, kind: ProofKind) {
    forall i, j :: 0 <= i < j < |ps| ==> !(ps[i].kind == kind && ps[j].kind == kind)
  }

  lemma {:induction false} AloneExactly(ps: seq<Proof>, kind: ProofKind)
    ensures |ProofsOf(ps, kind)| <= 1 <==> Alone(ps, kind)
  {
    hide Alone;
    if ps == [] {
      NoneAlone(kind);
    } else {
      var front, last := ps[..|ps| - 1], ps[|ps| - 1];
      assert ps == front + [last];
      AloneExactly(front, kind);
      NoneExactly(front, kind);
      AloneSnoc(front, last, kind);
    }
  }

  lemma {:induction false} NoneAlone(kind: ProofKind)
    ensures Alone([], kind)
  {
  }

  lemma {:induction false} AloneSnoc(front: seq<Proof>, last: Proof, kind: ProofKind)
    ensures Alone(front + [last], kind) <==>
      Alone(front, kind) && (last.kind == kind ==> forall p :: p in front ==> p.kind != kind)
  {
    var all := front + [last];
    assert all[|front|] == last && forall i :: 0 <= i < |front| ==> all[i] == front[i];
    if Alone(all, kind) {
      assert Alone(front, kind);
    }
  }

  lemma {:induction false} NoneExactly(ps: seq<Proof>, kind: ProofKind)
    ensures ProofsOf(ps, kind) == [] <==> forall p :: p in ps ==> p.kind != kind
  {
    hide ProofsOf;
    NoneOfKind(ps, kind);
    ProofsOfMembers(ps, kind);
    if p :| p in ps && p.kind == kind { assert p in ProofsOf(ps, kind); }
  }

  // ---------- the required proofs ----------

  /** What the verifier expects: an id of every verdict-bearing proof of the kinds the status rests on, the decision
      among them. */
  ghost predicate Expected(r: Receipt, id: ProofId) {
    exists p :: p in r.proofs && p.verdictBearing && p.id == id
             && (p.kind in Rests(r.status) || (p.kind == Decision && r.status != UnverifiedNoVerdict))
  }

  /** A kind is missing when no verdict-bearing proof is of that kind; an id is, when only one side has it. */
  lemma {:induction false} MissingRequiredExactly(r: Receipt)
    ensures forall kind :: MissingKind(kind) in MissingRequired(r) <==>
      && (kind in Rests(r.status) || (kind == Decision && r.status != UnverifiedNoVerdict))
      && forall p :: p in r.proofs && p.kind == kind ==> !p.verdictBearing
    ensures forall id :: OneSided(id) in MissingRequired(r) <==> (id in r.required) != Expected(r, id)
  {
    hide IdsOf, RequiredKinds, ExpectedIds, AbsentKinds, Expected, Rests;
    var kinds := RequiredKinds(r.status);
    RestsAre(r.status);
    AbsentExactly(r.proofs, kinds);
    forall id ensures id in ExpectedIds(r.proofs, kinds) <==> Expected(r, id) { ExpectedExactly(r, id); }
  }

  lemma {:induction false} ExpectedExactly(r: Receipt, id: ProofId)
    ensures id in ExpectedIds(r.proofs, RequiredKinds(r.status)) <==> Expected(r, id)
  {
    hide IdsOf, RequiredKinds, ExpectedIds, Rests;
    var kinds := RequiredKinds(r.status);
    RestsAre(r.status);
    ExpectedMembers(r.proofs, kinds);
    forall kind ensures id in IdsOf(r.proofs, kind) <==>
      exists p :: p in r.proofs && p.verdictBearing && p.kind == kind && p.id == id
    {
      IdsOfMembers(r.proofs, kind);
    }
    if Expected(r, id) {
      var p :| p in r.proofs && p.verdictBearing && p.id == id
            && (p.kind in Rests(r.status) || (p.kind == Decision && r.status != UnverifiedNoVerdict));
      assert p.kind in kinds && id in IdsOf(r.proofs, p.kind);
    }
  }

  lemma {:induction false} AbsentExactly(ps: seq<Proof>, kinds: seq<ProofKind>)
    ensures forall item :: item in AbsentKinds(ps, kinds) <==>
      item.MissingKind? && item.kind in kinds && forall p :: p in ps && p.kind == item.kind ==> !p.verdictBearing
  {
    if kinds != [] {
      var front, last := kinds[..|kinds| - 1], kinds[|kinds| - 1];
      assert kinds == front + [last];
      AbsentExactly(ps, front);
      NoIds(ps, last);
    }
  }

  lemma {:induction false} NoIds(ps: seq<Proof>, kind: ProofKind)
    ensures IdsOf(ps, kind) == multiset{} <==> forall p :: p in ps && p.kind == kind ==> !p.verdictBearing
  {
    if ps != [] {
      assert ps == ps[..|ps| - 1] + [ps[|ps| - 1]];
      NoIds(ps[..|ps| - 1], kind);
    }
  }

  // ---------- the strength summary ----------

  /** The line a proof's assertion contributes. */
  ghost predicate Contributes(ps: seq<Proof>, text: string) {
    exists p, a :: p in ps && a in p.assertions && text == a.metric + " " + a.op + " " + a.threshold + " observed " +
                                                            a.observed
  }

  /** The summary is the lines of all assertions, each once, in the order of their code points. */
  lemma {:induction false} SummaryExactly(ps: seq<Proof>, scenarios: nat)
    ensures exists items: seq<string> ::
      && Ascending(items, TextLeq) && Distinct(items) && (forall text :: text in items <==> Contributes(ps, text))
      && StrengthSummary(ps, scenarios) ==
        "tested: " + Joined(items) + "; " + NatText(scenarios) + " anchored scenarios"
  {
    hide TextLeq, UniqueSorted, StrengthItems, AssertionText, NatText;
    var items := UniqueSorted(StrengthItems(ps), TextLeq);
    Verification.TextOrder();
    UniqueSortedContents(StrengthItems(ps), TextLeq);
    ItemsExactly(ps);
    JoinedIsJoin(items);
  }

  /** With "; " between one and the next. */
  function Joined(items: seq<string>): string {
    if items == [] then ""
    else
      var front, last := items[..|items| - 1], items[|items| - 1];
      if front == [] then last else Joined(front) + "; " + last
  }

  lemma {:induction false} JoinedIsJoin(items: seq<string>)
    ensures Joined(items) == Receipts.Join(items)
  {
    if items != [] {
      var front, last := items[..|items| - 1], items[|items| - 1];
      JoinedIsJoin(front);
      assert items == front + [last];
      if front != [] { JoinSnoc(front, last); }
    }
  }

  lemma {:induction false} JoinSnoc(front: seq<string>, last: string)
    requires front != []
    ensures Receipts.Join(front + [last]) == Receipts.Join(front) + "; " + last
  {
    var all := front + [last];
    if |front| == 1 {
      assert all[1..] == [last];
    } else {
      JoinSnoc(front[1..], last);
      assert all[1..] == front[1..] + [last];
    }
  }

  lemma {:induction false} ItemsExactly(ps: seq<Proof>)
    ensures forall text :: text in StrengthItems(ps) <==> Contributes(ps, text)
  {
    if ps != [] {
      var front, last := ps[..|ps| - 1], ps[|ps| - 1];
      assert ps == front + [last];
      ItemsExactly(front);
      var texts := AssertionTexts(last.assertions);
      assert forall i :: 0 <= i < |texts| ==> texts[i] == AssertionText(last.assertions[i]);
    }
  }

  // ---------- the report ----------

  /** What a report carries when there is a receipt: the decision, the receipt's summary, proofs, provenance and gaps,
      and the traces; its own hash is of all of that, and the receipt hash beside it is not part of it. */
  lemma {:induction false} ReportExactly(e: Envelope, r: Receipt, traces: Value, ps: seq<Proof>, f: Envelope,
                                         q: Receipt, others: Value, qs: seq<Proof>)
    ensures var a, b := ToReport(e, Some(r), traces, ps), ToReport(f, Some(q), others, qs);
      && a.receiptHash == Some(r.receiptHash)
      && (a.reportHash == b.reportHash <==> a.body == b.body)
      && (a.body == b.body <==>
            && e == f && r.strength == q.strength && traces == others && r.proofs == q.proofs
            && r.provenance == q.provenance && r.coverage.missing == q.coverage.missing)
  {
    hide EncodeEnvelope, EncodeProofs, Texts;
    var a, b := ReportBody(e, Some(r), traces, ps), ReportBody(f, Some(q), others, qs);
    if a == b {
      var x, y := a.fields, b.fields;
      assert x[0] == y[0] && x[1] == y[1] && x[2] == y[2] && x[3] == y[3] && x[4] == y[4] && x[5] == y[5];
      EnvelopeBinds(e, f);
      ProofsEncodeInjective(r.proofs, q.proofs);
      TextsInjective(r.coverage.missing, q.coverage.missing);
    }
    ReportDigestBinds(a, b);
  }

  lemma {:induction false} ReportDigestBinds(a: Value, b: Value)
    ensures ReportDigest(a) == ReportDigest(b) <==> a == b
  {
    var x, y := ReportDigest(a).payload.fields, ReportDigest(b).payload.fields;
    assert x == y ==> x[1] == y[1];
  }

  /** A stored report agrees with the receipt exactly when its hash is the hash of its body, is the one the receipt
      names, and the report is the one the receipt gives. */
  lemma {:induction false} ReportErrorExactly(report: Report, expected: Report, r: Receipt)
    ensures ExternalReportError(report, expected, r) ==
      if report.reportHash == HashObj(Rec("report", [Null, report.body])) && report.reportHash == r.reportHash
         && report == expected then None else Some(ReceiptMismatch)
  {
  }

  // ---------- the ledger check ----------

  /** The checkpoint hashes itself, its Merkle root is that of its subjects, and it is of this very ledger file,
      with this tail, this number of entries and this receipt among its subjects. */
  ghost predicate CheckpointStands(c: Checkpoint, lines: seq<Line>, r: Receipt) {
    && c.checkpointHash == CheckpointDigest(c)
    && (c.merkleRoot.Some? ==>
          c.merkleRoot.value == Merkle.Root(seq(|c.subjects|, i requires 0 <= i < |c.subjects| => Hash(c.subjects[i]))))
    && c.ledgerHash == FileDigest(lines) && c.count == |Entries(lines)|
    && c.tail == (if Entries(lines) == [] then Genesis else EntryDigest(Entries(lines)[|Entries(lines)| - 1]))
    && exists i :: 0 <= i < |c.subjects| && c.subjects[i] == r.receiptHash
  }

  /** A key or a policy asks for an attestation that the key or the policy accepts; a policy that cannot be read is not
      accepted. */
  ghost predicate AttestationStands(c: Checkpoint, t: Trust) {
    match t.policy
    case Unusable => false
    case NoPath =>
      t.key.Some? ==> t.attestation.Loaded? && t.attests(c, t.attestation.value, t.key, None)
    case Loaded(policy) => t.attestation.Loaded? && t.attests(c, t.attestation.value, t.key, Some(policy))
  }

  /** The ledger check is clean exactly when the ledger is a chain with one entry under the receipt's key, and that one
      the receipt's, and the checkpoint, if one is asked for, stands and is attested. */
  lemma {:induction false} LedgerAcceptsExactly(ledger: Option<seq<Line>>, r: Receipt, checkpoint: Document<Checkpoint>,
                                                t: Trust)
    ensures LedgerAccepts(ledger, r, checkpoint, t) <==>
      && ledger.Some? && ChainOk(ledger.value) && (exists k: nat :: OnlyEntry(Entries(ledger.value), r, k))
      && match checkpoint
         case NoPath => true
         case Unusable => false
         case Loaded(c) => CheckpointStands(c, ledger.value, r) && AttestationStands(c, t)
  {
    hide ChainOk, Entries, LedgerKey, OnlyEntry, Listed, FileDigest, CheckpointDigest, Merkle.Root, EntryDigest;
    if ledger.Some? { ListedMeans(ledger.value, r); }
    if checkpoint.Loaded? {
      var c := checkpoint.value;
      assert Leaves(c.subjects) == seq(|c.subjects|, i requires 0 <= i < |c.subjects| => Hash(c.subjects[i]));
    }
  }

  /** A baseline is chained exactly when its receipt hashes itself, is a PASS for this very package, and the ledger
      check is clean under a trust policy. */
  lemma {:induction false} ChainedExactly(baselineHash: Digest, r: Receipt, ledger: Option<seq<Line>>,
                                          checkpoint: Document<Checkpoint>, t: Trust)
    ensures ChainedTo(baselineHash, r, ledger, checkpoint, t) <==>
      && ComputeReceiptHash(r) == r.receiptHash && r.status == Pass && r.candidateHash == baselineHash
      && t.policy.Loaded? && LedgerAccepts(ledger, r, checkpoint, t)
  {
    hide ComputeReceiptHash, LedgerAccepts;
  }

  /** What a receipt must be for hash-only verification to find it consistent: the hash of its own fields, with every
      required proof and no other id listed, bound together, accepted by the ledger, complete, and with the summary its
      proofs give. */
  lemma {:induction false} ConsistentExactly(r: Receipt, ledger: Option<seq<Line>>, checkpoint: Document<Checkpoint>,
                                             t: Trust)
    ensures Verification.HashOnlyClean(r, ledger, checkpoint, t) <==>
      && r.receiptHash == HashObj(EncodeReceipt(r.(receiptHash := Unset)))
      && (forall kind :: kind in Rests(r.status) || (kind == Decision && r.status != UnverifiedNoVerdict) ==>
            exists p :: p in r.proofs && p.kind == kind && p.verdictBearing)
      && (forall id :: id in r.required <==> Expected(r, id))
      && BoundTogether(r) && LedgerAccepts(ledger, r, checkpoint, t) && r.coverage.complete
      && r.strength == StrengthSummary(r.proofs, |r.scenarioIds|)
  {
    hide EncodeReceipt, MissingRequired, BindingError, LedgerAccepts, StrengthSummary, Expected, BoundTogether, Rests;
    MissingRequiredExactly(r);
    BindingExactly(r);
    var missing := MissingRequired(r);
    if missing != {} {
      var item :| item in missing;
      assert item == if item.MissingKind? then MissingKind(item.kind) else OneSided(item.id);
    }
  }
}
