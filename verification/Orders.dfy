/** Placing a run's demo order (`_execute_bitget_demo_order` in `service/app.py`): one call at a time under the
    execution lock, with files in the run's directory that every later call must agree with. */
module Orders {
  import opened Wrappers
  import opened Digests
  import opened Transitions
  import opened Lifecycle

  /** What the client order id is a digest of. */
  datatype OrderId = OrderId(receipt: string, intent: Value)

  /** `execution-evidence.json`. */
  datatype Evidence = Evidence(id: OrderId, approval: Option<Approval>)

  /** An order the exchange took; `release` tells execute-demo apart from other callers. */
  datatype Sent = Sent(run: string, id: OrderId, release: bool)

  /** The files by run, and the orders the exchange took.  A `status` of false asks for reconciliation. */
  datatype Books = Books(preflight: map<string, OrderId>, ledger: map<string, seq<OrderId>>,
                         evidence: map<string, Evidence>, status: map<string, bool>, sent: seq<Sent>)

  /** One call: the verification of the run is an input, and no approval means the run's own endpoint. */
  datatype Request = Request(runId: string, run: Run, intent: Value, approval: Option<Approval>,
                             verified: bool, release: bool)

  /** How far a placement gets: each stage includes the ones before. */
  datatype Stage =
    | NothingDone | PreflightWritten | OrderTaken | LedgerWritten | EvidenceWritten | StatusWritten(known: bool)

  /** `raises` ends the call in an exception other than a blocked execution. */
  datatype Exchange = Exchange(stage: Stage, raises: bool)

  /** `Stopped` is a blocked execution. */
  datatype Outcome = Placed(evidence: Evidence) | Stopped | Raised

  /** `approval_record_hash` leaves out whether the approval is used up. */
  function Unused(a: Approval): Approval {
    a.(consumed := false)
  }

  function ApprovalDigest(a: Approval): Digest {
    HashObj(Rec("approval", [Text(a.reviewer), Flag(a.service), Hash(a.fingerprint), OptText(a.nonce),
                             Text(a.comment)]))
  }

  function EvidenceValue(e: Evidence): Value {
    Rec("execution_evidence", [Text(e.id.receipt), e.id.intent,
                               OptHash(if e.approval.None? then None else Some(ApprovalDigest(e.approval.value)))])
  }

  predicate Ready(q: Request) {
    q.verified && q.run.state == RunPass && q.run.receiptHash.Some?
  }

  function IdOf(q: Request): OrderId
    requires Ready(q)
  {
    OrderId(q.run.receiptHash.value, q.intent)
  }

  /** The evidence is of this order and, when there is an approval, of this approval. */
  predicate Agrees(e: Evidence, q: Request)
    requires Ready(q)
  {
    e.id == IdOf(q) && (q.approval.Some? ==> e.approval == q.approval)
  }

  predicate Taken(sent: seq<Sent>, id: OrderId) {
    exists o :: o in sent && o.id == id
  }

  function LedgerOf(b: Books, run: string): seq<OrderId> {
    if run in b.ledger then b.ledger[run] else []
  }

  /** A preflight file of another order is in the way. */
  predicate Pinned(b: Books, run: string, id: OrderId) {
    run in b.preflight && b.preflight[run] != id
  }

  /** The exchange takes a client order id once; a repeated one gives back the first order. */
  function Send(b: Books, q: Request): Books
    requires Ready(q)
  {
    if Taken(b.sent, IdOf(q)) then b else b.(sent := b.sent + [Sent(q.runId, IdOf(q), q.release)])
  }

  function MarkPreflight(b: Books, q: Request): Books
    requires Ready(q)
  {
    b.(preflight := b.preflight[q.runId := IdOf(q)])
  }

  function MarkLedger(b: Books, q: Request): Books
    requires Ready(q)
  {
    b.(ledger := b.ledger[q.runId := LedgerOf(b, q.runId) + [IdOf(q)]])
  }

  function MarkEvidence(b: Books, q: Request): Books
    requires Ready(q)
  {
    b.(evidence := b.evidence[q.runId := Evidence(IdOf(q), q.approval)])
  }

  function MarkStatus(b: Books, q: Request, known: bool): Books {
    if q.runId in b.status then b else b.(status := b.status[q.runId := known])
  }

  /** What a placement has done when it ends at this stage. */
  function Written(b: Books, q: Request, stage: Stage): Books
    requires Ready(q)
  {
    match stage
    case NothingDone => b
    case PreflightWritten => MarkPreflight(b, q)
    case OrderTaken => Send(MarkPreflight(b, q), q)
    case LedgerWritten => MarkLedger(Send(MarkPreflight(b, q), q), q)
    case EvidenceWritten => MarkEvidence(MarkLedger(Send(MarkPreflight(b, q), q), q), q)
    case StatusWritten(known) => MarkStatus(MarkEvidence(MarkLedger(Send(MarkPreflight(b, q), q), q), q), q, known)
  }

  function Ended(q: Request, x: Exchange): Outcome
    requires Ready(q)
  {
    if x.raises then Raised
    else if x.stage == StatusWritten(true) then Placed(Evidence(IdOf(q), q.approval)) else Stopped
  }

  /** The new books, and what the call comes to. */
  function PlaceOrder(b: Books, q: Request, x: Exchange): (Books, Outcome) {
    if !Ready(q) then (b, Stopped)
    else if q.runId in b.evidence then
      var e := b.evidence[q.runId];
      if !Agrees(e, q) || (q.runId in b.status && !b.status[q.runId]) then (b, Stopped)
      else (b, if x.raises then Raised else Placed(e))
    else if IdOf(q) in LedgerOf(b, q.runId) then (b, Stopped)
    else if x.stage.NothingDone? then (b, Ended(q, x))
    else if Pinned(b, q.runId, IdOf(q)) then (b, Stopped)
    else (Written(b, q, x.stage), Ended(q, x))
  }

  const NO_BOOKS: Books := Books(map[], map[], map[], map[], [])

  class OrderDesk {
    var preflight: map<string, OrderId>
    var ledger: map<string, seq<OrderId>>
    var evidence: map<string, Evidence>
    var status: map<string, bool>
    ghost var sent: seq<Sent>

    ghost function Contents(): Books
      reads this
    {
      Books(preflight, ledger, evidence, status, sent)
    }

    constructor ()
      ensures Contents() == NO_BOOKS
    {
      preflight, ledger, evidence, status, sent := map[], map[], map[], map[], [];
    }

    /** `_place_verified_bitget_demo_order`: preflight, order, ledger, evidence and status, in that order. */
    method PlaceVerified(q: Request, x: Exchange) returns (outcome: Outcome)
      requires Ready(q)
      modifies this
      ensures outcome == (if !x.stage.NothingDone? && Pinned(old(Contents()), q.runId, IdOf(q)) then Stopped
                          else Ended(q, x))
      ensures Contents() ==
        if Pinned(old(Contents()), q.runId, IdOf(q)) then old(Contents()) else Written(old(Contents()), q, x.stage)
    {
      var id := IdOf(q);
      outcome := if x.raises then Raised else Stopped;
      if x.stage.NothingDone? { return; }
      if q.runId in preflight && preflight[q.runId] != id { return Stopped; }
      preflight := preflight[q.runId := id];
      if x.stage.PreflightWritten? { return; }
      sent := Send(Contents(), q).sent;
      if x.stage.OrderTaken? { return; }
      ledger := ledger[q.runId := (if q.runId in ledger then ledger[q.runId] else []) + [id]];
      if x.stage.LedgerWritten? { return; }
      var found := Evidence(id, q.approval);
      evidence := evidence[q.runId := found];
      if x.stage.EvidenceWritten? { return; }
      if q.runId !in status { status := status[q.runId := x.stage.known]; }
      if x.stage.known && !x.raises { return Placed(found); }
    }

    /** The body under the lock. */
    method ExecuteDemoOrder(q: Request, x: Exchange) returns (outcome: Outcome)
      modifies this
      ensures (Contents(), outcome) == PlaceOrder(old(Contents()), q, x)
    {
      if !q.verified || q.run.state != RunPass || q.run.receiptHash.None? { return Stopped; }
      var id := OrderId(q.run.receiptHash.value, q.intent);
      if q.runId in evidence {
        var found := evidence[q.runId];
        if found.id != id { return Stopped; }
        if q.approval.Some? && found.approval != q.approval { return Stopped; }
        if q.runId in status && !status[q.runId] { return Stopped; }
        return if x.raises then Raised else Placed(found);
      }
      if q.runId in ledger && id in ledger[q.runId] { return Stopped; }
      outcome := PlaceVerified(q, x);
    }
  }

  // ---------- one order per run ----------

  function SentFor(sent: seq<Sent>, run: string): nat {
    if sent == [] then 0
    else SentFor(sent[..|sent| - 1], run) + if sent[|sent| - 1].run == run then 1 else 0
  }

  ghost predicate DistinctIds(sent: seq<Sent>) {
    forall i, j :: 0 <= i < j < |sent| ==> sent[i].id != sent[j].id
  }

  ghost predicate SentPinned(b: Books) {
    forall o :: o in b.sent ==> o.run in b.preflight && b.preflight[o.run] == o.id
  }

  /** A ledger has one entry, of the order the preflight was for and the exchange took. */
  ghost predicate LedgerPinned(b: Books) {
    forall run :: run in b.ledger ==>
      run in b.preflight && b.ledger[run] == [b.preflight[run]] && Taken(b.sent, b.preflight[run])
  }

  ghost predicate EvidencePinned(b: Books) {
    && (forall run :: run in b.evidence ==>
        run in b.ledger && run in b.preflight && b.evidence[run].id == b.preflight[run])
    && (forall run :: run in b.status ==> run in b.evidence)
  }

  /** The files and the exchange tell one story: every order is the one its run's preflight names. */
  ghost predicate Consistent(b: Books) {
    DistinctIds(b.sent) && SentPinned(b) && LedgerPinned(b) && EvidencePinned(b)
  }

  /** Where the call gets as far as writing. */
  predicate Proceeds(b: Books, q: Request, x: Exchange) {
    && Ready(q) && q.runId !in b.evidence && IdOf(q) !in LedgerOf(b, q.runId)
    && !x.stage.NothingDone? && !Pinned(b, q.runId, IdOf(q))
  }

  lemma {:induction false} PreflightKeeps(b: Books, q: Request)
    requires Consistent(b) && Ready(q) && !Pinned(b, q.runId, IdOf(q))
    ensures Consistent(MarkPreflight(b, q))
  {
    hide DistinctIds;
  }

  lemma {:induction false} SendKeeps(b: Books, q: Request)
    requires Consistent(b) && Ready(q) && q.runId in b.preflight && b.preflight[q.runId] == IdOf(q)
    ensures Consistent(Send(b, q)) && Taken(Send(b, q).sent, IdOf(q))
  {
    if !Taken(b.sent, IdOf(q)) {
      var after := Send(b, q);
      assert after.sent[|b.sent|].id == IdOf(q);
      assert forall o :: o in b.sent ==> o in after.sent;
      assert forall i :: 0 <= i < |b.sent| ==> after.sent[i] == b.sent[i] && b.sent[i] in b.sent;
    }
  }

  lemma {:induction false} LedgerKeeps(b: Books, q: Request)
    requires Consistent(b) && Ready(q) && q.runId in b.preflight && b.preflight[q.runId] == IdOf(q)
    requires Taken(b.sent, IdOf(q)) && IdOf(q) !in LedgerOf(b, q.runId)
    ensures Consistent(MarkLedger(b, q)) && q.runId in MarkLedger(b, q).ledger
  {
    hide DistinctIds;
    assert LedgerOf(b, q.runId) == [] && [] + [IdOf(q)] == [IdOf(q)];
  }

  lemma {:induction false} EvidenceKeeps(b: Books, q: Request)
    requires Consistent(b) && Ready(q) && q.runId in b.ledger && b.preflight[q.runId] == IdOf(q)
    ensures Consistent(MarkEvidence(b, q))
  {
    hide DistinctIds, Taken;
  }

  lemma {:induction false} StatusKeeps(b: Books, q: Request, known: bool)
    requires Consistent(b) && q.runId in b.evidence
    ensures Consistent(MarkStatus(b, q, known))
  {
    hide DistinctIds, Taken;
  }

  lemma {:induction false} WrittenKeeps(b: Books, q: Request, x: Exchange)
    requires Consistent(b) && Proceeds(b, q, x)
    ensures Consistent(Written(b, q, x.stage))
  {
    hide Consistent, Taken, IdOf;
    var b1 := MarkPreflight(b, q);
    PreflightKeeps(b, q);
    if !x.stage.PreflightWritten? {
      var b2 := Send(b1, q);
      SendKeeps(b1, q);
      if !x.stage.OrderTaken? {
        var b3 := MarkLedger(b2, q);
        LedgerKeeps(b2, q);
        if !x.stage.LedgerWritten? {
          EvidenceKeeps(b3, q);
          if !x.stage.EvidenceWritten? { StatusKeeps(MarkEvidence(b3, q), q, x.stage.known); }
        }
      }
    }
  }

  /** Orders are only added, and preflight and evidence that are there stay as they are. */
  ghost predicate Grown(b: Books, after: Books) {
    && b.sent <= after.sent
    && (forall run :: run in b.preflight ==> run in after.preflight && after.preflight[run] == b.preflight[run])
    && (forall run :: run in b.evidence ==> run in after.evidence && after.evidence[run] == b.evidence[run])
  }

  lemma {:induction false} GrownFurther(a: Books, b: Books, c: Books)
    requires Grown(a, b) && b.sent <= c.sent && c.preflight == b.preflight && c.evidence == b.evidence
    ensures Grown(a, c)
  {
  }

  lemma {:induction false} WrittenGrows(b: Books, q: Request, x: Exchange)
    requires Proceeds(b, q, x)
    ensures Grown(b, Written(b, q, x.stage))
  {
    hide Grown, Taken, IdOf;
    assert Grown(b, MarkPreflight(b, q)) by { PreflightGrows(b, q); }
    var b1 := MarkPreflight(b, q);
    var b2 := Send(b1, q);
    var b3 := MarkLedger(b2, q);
    GrownFurther(b, b1, b2);
    GrownFurther(b, b2, b3);
    EvidenceGrows(b, b3, q);
    if x.stage.StatusWritten? { GrownFurther(b, MarkEvidence(b3, q), Written(b, q, x.stage)); }
  }

  lemma {:induction false} PreflightGrows(b: Books, q: Request)
    requires Ready(q) && !Pinned(b, q.runId, IdOf(q))
    ensures Grown(b, MarkPreflight(b, q))
  {
  }

  lemma {:induction false} EvidenceGrows(b: Books, c: Books, q: Request)
    requires Ready(q) && q.runId !in b.evidence && Grown(b, c)
    ensures Grown(b, MarkEvidence(c, q))
  {
  }

  /** A call keeps the story straight and only adds to it. */
  lemma {:induction false} PlaceOrderKeeps(b: Books, q: Request, x: Exchange)
    requires Consistent(b)
    ensures Consistent(PlaceOrder(b, q, x).0) && Grown(b, PlaceOrder(b, q, x).0)
  {
    hide Consistent, Written, Agrees, IdOf;
    if Proceeds(b, q, x) {
      WrittenKeeps(b, q, x);
      WrittenGrows(b, q, x);
    }
  }

  /** The order of a run is settled by its preflight file, whatever got lost afterwards. */
  lemma {:induction false} OneForEachRun(b: Books, run: string)
    requires Consistent(b)
    ensures SentFor(b.sent, run) <= 1
  {
    OneId(b.sent, run, if run in b.preflight then b.preflight[run] else OrderId("", Null));
  }

  lemma {:induction false} OneId(sent: seq<Sent>, run: string, id: OrderId)
    requires DistinctIds(sent) && forall o :: o in sent && o.run == run ==> o.id == id
    ensures SentFor(sent, run) <= 1
  {
    if sent != [] {
      var front, last := sent[..|sent| - 1], sent[|sent| - 1];
      assert last in sent && forall o :: o in front ==> o in sent;
      if last.run == run {
        assert forall i :: 0 <= i < |front| ==> front[i] == sent[i];
        NoneSentFor(front, run);
      } else {
        OneId(front, run, id);
      }
    }
  }

  lemma {:induction false} NoneSentFor(sent: seq<Sent>, run: string)
    requires forall o :: o in sent ==> o.run != run
    ensures SentFor(sent, run) == 0
  {
    if sent != [] {
      assert sent[|sent| - 1] in sent && forall o :: o in sent[..|sent| - 1] ==> o in sent;
      NoneSentFor(sent[..|sent| - 1], run);
    }
  }

  /** The answer is the run's evidence, whoever placed the order, and the exchange took the order it names. */
  lemma {:induction false} AnswerIsEvidence(b: Books, q: Request, x: Exchange)
    requires Consistent(b)
    ensures var (after, outcome) := PlaceOrder(b, q, x);
      outcome.Placed? ==>
        && q.runId in after.evidence && after.evidence[q.runId] == outcome.evidence
        && Agrees(outcome.evidence, q) && Taken(after.sent, IdOf(q))
  {
    hide Consistent, Written, Taken;
    PlaceOrderKeeps(b, q, x);
    EvidenceIsTaken(PlaceOrder(b, q, x).0, q.runId);
    if Proceeds(b, q, x) && x.stage.StatusWritten? { EvidenceMarked(b, q, x.stage); }
  }

  lemma {:induction false} EvidenceIsTaken(b: Books, run: string)
    requires Consistent(b)
    ensures run in b.evidence ==> Taken(b.sent, b.evidence[run].id)
  {
    hide DistinctIds, Taken;
  }

  lemma {:induction false} EvidenceMarked(b: Books, q: Request, stage: Stage)
    requires Ready(q) && stage.StatusWritten?
    ensures var after := Written(b, q, stage);
      q.runId in after.evidence && after.evidence[q.runId] == Evidence(IdOf(q), q.approval)
  {
  }

  /** Exactly when a call makes the exchange take an order. */
  predicate Sends(b: Books, q: Request, x: Exchange) {
    && Ready(q) && q.runId !in b.evidence && IdOf(q) !in LedgerOf(b, q.runId) && !Pinned(b, q.runId, IdOf(q))
    && x.stage !in {NothingDone, PreflightWritten} && !Taken(b.sent, IdOf(q))
  }

  lemma {:induction false} SendsExactly(b: Books, q: Request, x: Exchange)
    ensures PlaceOrder(b, q, x).0.sent == b.sent <==> !Sends(b, q, x)
    ensures Sends(b, q, x) ==> PlaceOrder(b, q, x).0.sent == b.sent + [Sent(q.runId, IdOf(q), q.release)]
  {
  }

  // ---------- one call in full ----------

  /** Evidence that is there answers every later call that asks for the same order under the same approval, unless the
      status asks for reconciliation. */
  ghost predicate AnsweredBefore(b: Books, q: Request, id: OrderId, raises: bool, outcome: Outcome)
    requires q.runId in b.evidence
  {
    var e := b.evidence[q.runId];
    outcome ==
      if e.id != id || (q.approval.Some? && e.approval != q.approval) || (q.runId in b.status && !b.status[q.runId])
      then Stopped else if raises then Raised else Placed(e)
  }

  /** What is on file when a placement ends at this stage. */
  ghost predicate OnFile(b: Books, after: Books, q: Request, id: OrderId, stage: Stage) {
    && after.preflight == b.preflight[q.runId := id]
    && after.sent == b.sent + (if stage.PreflightWritten? || exists o :: o in b.sent && o.id == id then []
                               else [Sent(q.runId, id, q.release)])
    && after.ledger ==
      (if stage.PreflightWritten? || stage.OrderTaken? then b.ledger
       else b.ledger[q.runId := (if q.runId in b.ledger then b.ledger[q.runId] else []) + [id]])
    && after.evidence ==
      (if stage.EvidenceWritten? || stage.StatusWritten? then b.evidence[q.runId := Evidence(id, q.approval)]
       else b.evidence)
    && after.status ==
      (if stage.StatusWritten? && q.runId !in b.status then b.status[q.runId := stage.known] else b.status)
  }

  /** One call, in the order in which the code looks: the run must be a verified pass, evidence answers, a ledger that
      names the order or a preflight file that names another stops it, and only then files are written and the order
      goes out - under the digest of receipt and intent, and at most once. */
  lemma {:induction false} PlacedExactly(b: Books, q: Request, x: Exchange)
    ensures var (after, outcome) := PlaceOrder(b, q, x);
      if !q.verified || q.run.state != RunPass || q.run.receiptHash.None? then after == b && outcome == Stopped
      else
        var id := OrderId(q.run.receiptHash.value, q.intent);
        if q.runId in b.evidence then after == b && AnsweredBefore(b, q, id, x.raises, outcome)
        else if q.runId in b.ledger && id in b.ledger[q.runId] then after == b && outcome == Stopped
        else if x.stage.NothingDone? then after == b && outcome == if x.raises then Raised else Stopped
        else if q.runId in b.preflight && b.preflight[q.runId] != id then after == b && outcome == Stopped
        else
          && OnFile(b, after, q, id, x.stage)
          && outcome == if x.raises then Raised
                        else if x.stage == StatusWritten(true) then Placed(Evidence(id, q.approval)) else Stopped
  {
    hide OnFile;
    if Ready(q) && !x.stage.NothingDone? { WrittenOnFile(b, q, x.stage); }
  }

  lemma {:induction false} WrittenOnFile(b: Books, q: Request, stage: Stage)
    requires Ready(q) && !stage.NothingDone?
    ensures OnFile(b, Written(b, q, stage), q, OrderId(q.run.receiptHash.value, q.intent), stage)
  {
    assert b.sent + [] == b.sent;
  }

  /** Evidence names the order and the approval, apart from its use. */
  lemma {:induction false} EvidenceValueBinds(e: Evidence, f: Evidence)
    ensures EvidenceValue(e) == EvidenceValue(f) <==>
      && e.id == f.id && (e.approval.Some? <==> f.approval.Some?)
      && (e.approval.Some? ==> e.approval.value.(consumed := false) == f.approval.value.(consumed := false))
  {
    var x, y := EvidenceValue(e).fields, EvidenceValue(f).fields;
    assert x[0] == Text(e.id.receipt) && x[1] == e.id.intent && y[0] == Text(f.id.receipt) && y[1] == f.id.intent;
    if e.approval.Some? && f.approval.Some? {
      ApprovalDigestBinds(e.approval.value, f.approval.value);
      assert x[2] == Hash(ApprovalDigest(e.approval.value)) && y[2] == Hash(ApprovalDigest(f.approval.value));
    } else if e.approval.Some? {
      assert x[2] != y[2];
    } else if f.approval.Some? {
      assert x[2] != y[2];
    }
  }

  lemma {:induction false} ApprovalDigestBinds(a: Approval, b: Approval)
    ensures ApprovalDigest(a) == ApprovalDigest(b) <==> Unused(a) == Unused(b)
  {
    var x, y := ApprovalDigest(a).payload.fields, ApprovalDigest(b).payload.fields;
    assert x == y ==> x[0] == y[0] && x[1] == y[1] && x[2] == y[2] && x[3] == y[3] && x[4] == y[4];
  }
}
