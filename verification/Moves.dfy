/** The moves of overlapping execute-demo calls one by one, and a call that nothing overtakes as the single step of
    `Lifecycle`. */
module Moves {
  import opened Wrappers
  import opened Digests
  import opened Transitions
  import opened Lifecycle
  import opened Orders
  import opened Interleaving
  import opened Endpoints

  /** The stage of a call. */
  ghost predicate At(s: System, call: nat, phase: Phase) {
    if call in s.calls then s.calls[call] == phase else phase == Idle
  }

  /** Only this call's stage has changed. */
  ghost predicate OnlyStage(s: System, t: System, call: nat, phase: Phase) {
    && t.row == s.row && t.consumed == s.consumed && t.books == s.books
    && At(t, call, phase) && forall other, p :: other != call ==> (At(t, other, p) <==> At(s, other, p))
  }

  /** A first read goes on exactly when nothing freezes it and every check of execute-demo passes, with the nonce of the
      approval it found; otherwise the call is over. */
  lemma {:induction false} ReadExactly(s: System, call: nat, freeze: bool, expired: bool)
    ensures var r, t := s.row, Next(s, Read(call, freeze, expired));
      if !At(s, call, Idle) then t == s
      else if !freeze && r.execution.None? && r.state == Approved && r.approval.Some?
           && NoneFails(ExecutionChecks(r, r.approval, expired)) then
        r.approval.value.nonce.Some? && OnlyStage(s, t, call, HasRead(r.approval.value.nonce.value))
      else OnlyStage(s, t, call, Finished)
  {
    hide Fingerprint, ExecutionChecks, NoneFails;
    ExecutionBlockExactly(s.row, s.row.approval, expired);
  }

  /** The compare-and-set: it uses up the approval that carries the nonce, unless that one is used up already. */
  lemma {:induction false} ConsumeExactly(s: System, call: nat, nonce: string)
    ensures var a, t := s.row.approval, Next(s, Consume(call));
      && (At(s, call, HasRead(nonce)) ==>
            if a.Some? && a.value.nonce == Some(nonce) && !a.value.consumed then
              && t.row == s.row.(approval := Some(a.value.(consumed := true))) && t.consumed == s.consumed + [nonce]
              && OnlyStage(s, t.(row := s.row, consumed := s.consumed), call, HasConsumed(nonce))
            else OnlyStage(s, t, call, Finished))
      && ((forall n :: !At(s, call, HasRead(n))) ==> t == s)
  {
    var t := Next(s, Consume(call));
    if PhaseOf(s, call).HasRead? { assert At(s, call, HasRead(PhaseOf(s, call).nonce)); }
  }

  /** The second read takes whatever is stored. */
  lemma {:induction false} RereadExactly(s: System, call: nat, nonce: string)
    ensures var t := Next(s, Reread(call));
      && (At(s, call, HasConsumed(nonce)) ==> OnlyStage(s, t, call, HasReread(nonce, s.row)))
      && ((forall n :: !At(s, call, HasConsumed(n))) ==> t == s)
  {
    if PhaseOf(s, call).HasConsumed? { assert At(s, call, HasConsumed(PhaseOf(s, call).nonce)); }
  }

  /** Where a placement ends for the record read back; an order is only asked for when the policy is there and not
      breached and the run is known, in the name of the record's own run and approval. */
  lemma {:induction false} PlaceExactly(s: System, call: nat, breach: bool, intent: Value, verified: bool, x: Exchange,
                                        readable: bool, runs: Runs, nonce: string, seen: Release)
    requires At(s, call, HasReread(nonce, seen))
    ensures var t := Next(s, Place(call, breach, intent, verified, x, readable, runs));
      if seen.policy.None? then OnlyStage(s, t, call, Finished)
      else if breach then OnlyStage(s, t, call, HasPlaced(seen.(state := BlockedRiskPolicy), seen))
      else if seen.run.None? || seen.run.value !in runs || seen.approval.None? then OnlyStage(s, t, call, Finished)
      else
        var run, approval := seen.run.value, seen.approval.value.(consumed := false);
        var (books, outcome) := PlaceOrder(s.books, Request(run, runs[run], intent, Some(approval), verified, true), x);
        && t.books == books
        && OnlyStage(s, t.(books := s.books), call,
             match outcome
             case Stopped => HasPlaced(seen.(state := BlockedExchangeError), seen)
             case Raised => Finished
             case Placed(e) =>
               if readable then
                 HasPlaced(seen.(state := ReleaseReady, executionRun := seen.run, execution := Some(EvidenceValue(e)),
                                 manifest := None), seen)
               else Finished)
  {
    hide PlaceOrder, EvidenceValue;
  }

  /** The commit judges the move from the record read back, whatever is stored by then, and writes a whole record. */
  lemma {:induction false} CommitMoveExactly(s: System, call: nat, update: Release, seen: Release)
    requires At(s, call, HasPlaced(update, seen))
    ensures var t, next := Next(s, Commit(call)), Transition(seen, update);
      && t.row == (if next.Some? then next.value else s.row)
      && OnlyStage(s, t.(row := s.row), call, Finished)
  {
    hide Transition;
  }

  /** Another endpoint is its step on the stored release; a showcase order that uses up the release's own approval is
      noted.  Other callers of the order desk touch the books alone, and never in the name of execute-demo. */
  lemma {:induction false} OtherMovesExactly(s: System, e: Event, q: Request, x: Exchange)
    ensures var t := Next(s, Endpoint(e));
      && (e.ExecuteDemo? ==> t == s)
      && (!e.ExecuteDemo? ==>
            && t.row == Step(s.row, e).0 && t.calls == s.calls && t.books == s.books
            && t.consumed ==
              (if e.Showcase? && s.row.showcase.None? && t.row != s.row && s.row.approval.Some?
                  && s.row.approval.value.nonce.Some?
               then s.consumed + [s.row.approval.value.nonce.value] else s.consumed))
    ensures var t := Next(s, Elsewhere(q, x));
      t == s.(books := PlaceOrder(s.books, q.(release := false), x).0)
  {
    hide Step, PlaceOrder;
  }

  // ---------- one call alone ----------

  /** The moves of one call, with nothing in between. */
  function Alone(e: Event, call: nat, intent: Value, verified: bool, x: Exchange, readable: bool): seq<Move>
    requires e.ExecuteDemo?
  {
    [Read(call, e.freeze, e.expired), Consume(call), Reread(call),
     Place(call, e.breach, intent, verified, x, readable, e.runs), Commit(call)]
  }

  /** What the atomic step takes as the answer of the exchange. */
  function OrderOf(s: System, e: Event, intent: Value, verified: bool, x: Exchange, readable: bool): Order
    requires e.ExecuteDemo?
  {
    var r := s.row;
    if r.run.None? || r.run.value !in e.runs || r.approval.None? then OrderFailed
    else
      match PlaceOrder(s.books, RequestOf(r, e.runs, intent, verified), x).1
      case Stopped => OrderFailed
      case Raised => EvidenceUnreadable
      case Placed(evidence) => if readable then OrderPlaced(EvidenceValue(evidence)) else EvidenceUnreadable
  }

  /** A call that nothing overtakes leaves the release as the atomic step leaves it. */
  lemma {:induction false} AloneIsAtomic(s: System, e: Event, call: nat, intent: Value, verified: bool, x: Exchange,
                                         readable: bool)
    requires e.ExecuteDemo? && At(s, call, Idle) && e.order == OrderOf(s, e, intent, verified, x, readable)
    ensures Play(s, Alone(e, call, intent, verified, x, readable)).row == Step(s.row, e).0
  {
    hide Next, Step;
    var moves := Alone(e, call, intent, verified, x, readable);
    var s1 := Next(s, Read(call, e.freeze, e.expired));
    var s2 := Next(s1, Consume(call));
    var s3 := Next(s2, Reread(call));
    var s4 := Next(s3, moves[3]);
    FivePlayed(s, moves);
    if PhaseOf(s1, call).HasRead? {
      AloneToReread(s, e, call);
      AloneFromReread(s3, s, e, call, intent, verified, x, readable);
    } else {
      AloneRefused(s, e, call, intent, verified, x, readable);
    }
  }

  lemma {:induction false} FivePlayed(s: System, moves: seq<Move>)
    requires |moves| == 5
    ensures Play(s, moves) == Next(Next(Next(Next(Next(s, moves[0]), moves[1]), moves[2]), moves[3]), moves[4])
  {
    hide Next;
    var m1, m2, m3, m4 := moves[..1], moves[..2], moves[..3], moves[..4];
    assert m4[..3] == m3 && m3[..2] == m2 && m2[..1] == m1 && m1[..0] == [];
    assert Play(s, m1) == Next(s, moves[0]);
    assert Play(s, m2) == Next(Play(s, m1), moves[1]);
    assert Play(s, m3) == Next(Play(s, m2), moves[2]);
    assert Play(s, m4) == Next(Play(s, m3), moves[3]);
  }

  lemma {:induction false} AloneRefused(s: System, e: Event, call: nat, intent: Value, verified: bool, x: Exchange,
                                        readable: bool)
    requires e.ExecuteDemo? && At(s, call, Idle) && !PhaseOf(Next(s, Read(call, e.freeze, e.expired)), call).HasRead?
    ensures var s1 := Next(s, Read(call, e.freeze, e.expired));
      Next(Next(Next(Next(s1, Consume(call)), Reread(call)),
                Place(call, e.breach, intent, verified, x, readable, e.runs)), Commit(call)) == s1
    ensures Next(s, Read(call, e.freeze, e.expired)).row == s.row == Step(s.row, e).0
  {
    hide ExecutionBlock;
  }

  lemma {:induction false} AloneToReread(s: System, e: Event, call: nat)
    requires e.ExecuteDemo? && At(s, call, Idle) && PhaseOf(Next(s, Read(call, e.freeze, e.expired)), call).HasRead?
    ensures Passed(s.row, e)
    ensures var s3 := Next(Next(Next(s, Read(call, e.freeze, e.expired)), Consume(call)), Reread(call));
      var r1 := s.row.(approval := Some(s.row.approval.value.(consumed := true)));
      && s3.row == r1 && s3.books == s.books && s.row.approval.value.nonce.Some?
      && At(s3, call, HasReread(s.row.approval.value.nonce.value, r1))
  {
    hide Fingerprint;
  }

  /** The checks before the approval is used up. */
  ghost predicate Passed(r: Release, e: Event)
    requires e.ExecuteDemo?
  {
    && !e.freeze && r.execution.None? && r.state == Approved && r.approval.Some?
    && ExecutionBlock(r, r.approval, e.expired).None?
  }

  lemma {:induction false} AloneFromReread(s3: System, s: System, e: Event, call: nat, intent: Value, verified: bool,
                                           x: Exchange, readable: bool)
    requires e.ExecuteDemo? && Passed(s.row, e) && e.order == OrderOf(s, e, intent, verified, x, readable)
    requires s.row.approval.value.nonce.Some?
    requires var r1 := s.row.(approval := Some(s.row.approval.value.(consumed := true)));
      s3.row == r1 && s3.books == s.books && At(s3, call, HasReread(s.row.approval.value.nonce.value, r1))
    ensures Next(Next(s3, Place(call, e.breach, intent, verified, x, readable, e.runs)), Commit(call)).row ==
      Step(s.row, e).0
  {
    hide PlaceOrder, Transition, EvidenceValue, ExecutionBlock;
  }
}
