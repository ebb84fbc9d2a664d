/** What is hashed identifies what it encodes. */
module Encodings {
  import opened Digests
  import opened Probes
  import opened ProofKernel
  import opened Receipts

  lemma {:induction false} AssertionEncodeInjective(a: Assertion, b: Assertion)
    requires EncodeAssertion(a) == EncodeAssertion(b)
    ensures a == b
  {
  }

  lemma {:induction false} AssertionsEncodeInjective(a: seq<Assertion>, b: seq<Assertion>)
    requires EncodeAssertions(a) == EncodeAssertions(b)
    ensures a == b
  {
    var x, y := EncodeAssertions(a).items, EncodeAssertions(b).items;
    assert |a| == |x| == |y| == |b|;
    forall i | 0 <= i < |a| ensures a[i] == b[i] {
      assert x[i] == EncodeAssertion(a[i]) && y[i] == EncodeAssertion(b[i]);
      AssertionEncodeInjective(a[i], b[i]);
    }
  }

  lemma {:induction false} TextsInjective(a: seq<string>, b: seq<string>)
    requires Texts(a) == Texts(b)
    ensures a == b
  {
    var x, y := Texts(a).items, Texts(b).items;
    assert |a| == |x| == |y| == |b|;
    forall i | 0 <= i < |a| ensures a[i] == b[i] {
      assert x[i] == Text(a[i]) && y[i] == Text(b[i]);
    }
  }

  function EncodeCells(cells: seq<Cell>): Value {
    Arr(seq(|cells|, i requires 0 <= i < |cells| => Arr([Text(cells[i].0), Text(cells[i].1)])))
  }

  lemma {:induction false} CellsEncodeInjective(a: seq<Cell>, b: seq<Cell>)
    requires EncodeCells(a) == EncodeCells(b)
    ensures a == b
  {
    var x, y := EncodeCells(a).items, EncodeCells(b).items;
    assert |a| == |x| == |y| == |b|;
    forall i | 0 <= i < |a| ensures a[i] == b[i] {
      assert x[i] == y[i];
      assert x[i].items[0] == y[i].items[0] && x[i].items[1] == y[i].items[1];
    }
  }

  lemma {:induction false} ManifestEncodeInjective(m: Manifest, n: Manifest)
    requires EncodeManifest(m) == EncodeManifest(n)
    ensures m == n
  {
    hide Texts;
    var x, y := EncodeManifest(m).fields, EncodeManifest(n).fields;
    assert x[0] == y[0] && x[1] == y[1] && x[2] == y[2];
    assert x[0] == EncodeCells(m.cells) && y[0] == EncodeCells(n.cells);
    CellsEncodeInjective(m.cells, n.cells);
    TextsInjective(m.missing, n.missing);
  }

  lemma {:induction false} MetaEncodeInjective(m: Meta, n: Meta)
    requires EncodeMeta(m) == EncodeMeta(n)
    ensures m == n
  {
  }

  lemma {:induction false} IdEncodeInjective(i: ProofId, j: ProofId)
    requires EncodeId(i) == EncodeId(j)
    ensures i == j
  {
  }

  lemma {:induction false} ProofEncodeInjective(p: Proof, q: Proof)
    requires EncodeProof(p) == EncodeProof(q)
    ensures p == q
  {
    hide EncodeAssertions, EncodeMeta, EncodeId;
    var x, y := EncodeProof(p).fields, EncodeProof(q).fields;
    assert x[0] == y[0] && x[1] == y[1] && x[2] == y[2] && x[3] == y[3] && x[4] == y[4] && x[5] == y[5] && x[6] == y[6]
      && x[7] == y[7] && x[8] == y[8];
    IdEncodeInjective(p.id, q.id);
    AssertionsEncodeInjective(p.assertions, q.assertions);
    MetaEncodeInjective(p.meta, q.meta);
  }

  lemma {:induction false} ProofsEncodeInjective(a: seq<Proof>, b: seq<Proof>)
    requires EncodeProofs(a) == EncodeProofs(b)
    ensures a == b
  {
    hide EncodeProof;
    var x, y := EncodeProofs(a).items, EncodeProofs(b).items;
    assert |a| == |x| == |y| == |b|;
    forall i | 0 <= i < |a| ensures a[i] == b[i] {
      assert x[i] == EncodeProof(a[i]) && y[i] == EncodeProof(b[i]);
      ProofEncodeInjective(a[i], b[i]);
    }
  }

  lemma {:induction false} SubjectInjective(r: Receipt, q: Receipt)
    requires EncodeSubject(r) == EncodeSubject(q)
    ensures r.identityHash == q.identityHash && r.manifestHash == q.manifestHash && r.adapterId == q.adapterId &&
      r.lockHash == q.lockHash
    ensures r.baselineHash == q.baselineHash && r.chainStatus == q.chainStatus && r.candidateHash == q.candidateHash
  {
  }

  lemma {:induction false} SuiteInjective(r: Receipt, q: Receipt)
    requires EncodeSuite(r) == EncodeSuite(q)
    ensures r.specHash == q.specHash && r.suiteLockHash == q.suiteLockHash && r.scenarioIds == q.scenarioIds
  {
    hide Texts;
    var x, y := EncodeSuite(r).fields, EncodeSuite(q).fields;
    assert x[0] == y[0] && x[1] == y[1] && x[2] == y[2];
    TextsInjective(r.scenarioIds, q.scenarioIds);
  }

  lemma {:induction false} ResultPartInjective(r: Receipt, q: Receipt)
    requires EncodeResultPart(r) == EncodeResultPart(q)
    ensures r.status == q.status && r.breaches == q.breaches && r.resultHash == q.resultHash && r.coverage == q.coverage
    ensures r.reason == q.reason && r.tier == q.tier && r.sizeCap == q.sizeCap
  {
    hide EncodeAssertions, EncodeManifest;
    var x, y := EncodeResultPart(r).fields, EncodeResultPart(q).fields;
    assert x[0] == y[0] && x[1] == y[1] && x[2] == y[2] && x[3] == y[3] && x[4] == y[4] && x[5] == y[5] && x[6] == y[6];
    AssertionsEncodeInjective(r.breaches, q.breaches);
    ManifestEncodeInjective(r.coverage, q.coverage);
  }

  lemma {:induction false} EvidenceInjective(r: Receipt, q: Receipt)
    requires EncodeEvidence(r) == EncodeEvidence(q)
    ensures r.required == q.required && r.satisfied == q.satisfied && r.proofs == q.proofs
    ensures r.capabilities == q.capabilities && r.strength == q.strength && r.reportHash == q.reportHash
  {
    hide EncodeProofs;
    var x, y := EncodeEvidence(r).fields, EncodeEvidence(q).fields;
    assert x[0] == y[0] && x[1] == y[1] && x[2] == y[2] && x[3] == y[3] && x[4] == y[4] && x[5] == y[5];
    assert x[3].fields[0] == y[3].fields[0] && x[3].fields[1] == y[3].fields[1];
    ProofsEncodeInjective(r.proofs, q.proofs);
  }

  /** Two receipts with the same hash differ at most in what they claim their hash to be. */
  lemma {:induction false} ReceiptHashBinds(r: Receipt, q: Receipt)
    ensures ComputeReceiptHash(r) == ComputeReceiptHash(q) <==> r.(receiptHash := q.receiptHash) == q
  {
    hide EncodeSubject, EncodeSuite, EncodeResultPart, EncodeEvidence;
    var r0, q0 := r.(receiptHash := Unset), q.(receiptHash := Unset);
    if ComputeReceiptHash(r) == ComputeReceiptHash(q) {
      var x, y := EncodeReceipt(r0).fields, EncodeReceipt(q0).fields;
      assert x[0] == y[0] && x[1] == y[1] && x[2] == y[2] && x[3] == y[3] && x[4] == y[4] && x[5] == y[5] &&
        x[6] == y[6];
      SubjectInjective(r0, q0);
      SuiteInjective(r0, q0);
      ResultPartInjective(r0, q0);
      EvidenceInjective(r0, q0);
    }
  }
}
