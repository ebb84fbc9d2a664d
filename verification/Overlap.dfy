/** Why a call must find its own approval when it reads the release back. */
module Overlap {
  import opened Wrappers
  import opened Digests
  import opened Transitions
  import opened Lifecycle
  import opened Orders
  import opened Interleaving

  /** Calls 0 and 1 and 2, and a second approval `e` between call 0's consume and its second read. */
  function Overlapping(e: Event, intent: Value): seq<Move>
    requires e.Approve?
  {
    Overtaken(e) + BothPlace(intent, e.runs)
  }

  function Overtaken(e: Event): seq<Move> {
    [Read(0, false, false), Consume(0), Endpoint(e), Read(1, false, false), Read(2, false, false)]
  }

  function BothPlace(intent: Value, runs: Runs): seq<Move> {
    FirstPlaces(intent, runs) + SecondPlaces(intent, runs)
  }

  function Placing(call: nat, intent: Value, runs: Runs): Move {
    Place(call, false, intent, true, Exchange(StatusWritten(true), false), true, runs)
  }

  function FirstPlaces(intent: Value, runs: Runs): seq<Move> {
    [Reread(0), Placing(0, intent, runs)] + [Consume(1), Commit(0)]
  }

  function SecondPlaces(intent: Value, runs: Runs): seq<Move> {
    [Consume(2), Reread(1), Placing(1, intent, runs)]
  }

  lemma {:induction false} PlayAppend(s: System, a: seq<Move>, b: seq<Move>)
    ensures Play(s, a + b) == Play(Play(s, a), b)
    decreases |b|
  {
    hide Next;
    if b == [] {
      assert a + b == a;
    } else {
      PlayAppend(s, a, b[..|b| - 1]);
      assert (a + b)[..|a + b| - 1] == a + b[..|b| - 1];
    }
  }

  lemma {:induction false} PlayCons(s: System, m: Move, rest: seq<Move>)
    ensures Play(s, [m] + rest) == Play(Next(s, m), rest)
  {
    hide Next;
    PlayAppend(s, [m], rest);
    assert [m][..0] == [];
  }

  lemma {:induction false} ReadEnters(s: System, call: nat, nonce: string)
    requires PhaseOf(s, call) == Idle && Invariant(s.row) && s.row.state == Approved && Live(s.row, nonce) &&
      nonce != ""
    ensures Next(s, Read(call, false, false)) == Enter(s, call, HasRead(nonce))
  {
    hide Fingerprint, MissingFor, PolicyDigest, TierOf;
  }

  /** The row once call 0 has consumed the first approval and `e` has replaced it. */
  function Reapproved(r: Release, e: Event): Release
    requires r.approval.Some?
  {
    Step(r.(approval := Some(Consumed(r.approval.value))), e).0
  }

  ghost predicate Overlappable(r: Release, e: Event) {
    && Invariant(r) && r.state == Approved && r.approval.Some? && !r.approval.value.consumed &&
      Truthy(r.approval.value.nonce)
    && e.Approve? && e.nonce != "" && Step(r, e).1 == Done && r.run.Some? && r.run.value in e.runs
  }

  predicate Passed(runs: Runs, run: Option<string>) {
    run.Some? && run.value in runs && runs[run.value].state == RunPass && runs[run.value].receiptHash.Some?
  }

  lemma {:induction false} ReapprovedFacts(r: Release, e: Event)
    requires Overlappable(r, e)
    ensures var r2 := Reapproved(r, e);
      Invariant(r2) && r2.state == Approved && r2.run == r.run && Live(r2, e.nonce) && r2.policy.Some?
    ensures Passed(e.runs, r.run)
  {
    hide Step, Fingerprint, MissingFor, PolicyDigest, TierOf;
    var r1 := r.(approval := Some(Consumed(r.approval.value)));
    ConsumeSpends(r);
    ApprovedExactly(r, e);
    ApprovedExactly(r1, e);
    StepKeeps(r1, e);
    MissingForExactly(r, Approved);
  }

  lemma {:induction false} FirstHalf(r: Release, e: Event)
    requires Overlappable(r, e)
    ensures Play(Begin(r), Overtaken(e)) ==
      System(Reapproved(r, e), map[0 := HasConsumed(r.approval.value.nonce.value), 1 := HasRead(e.nonce),
                                   2 := HasRead(e.nonce)],
             [r.approval.value.nonce.value], NO_BOOKS)
  {
    hide Invariant, Step, Fingerprint, MissingFor, PolicyDigest, TierOf, Next;
    var n := r.approval.value.nonce.value;
    var r1, r2 := r.(approval := Some(Consumed(r.approval.value))), Reapproved(r, e);
    ReapprovedFacts(r, e);
    var s1 := System(r, map[0 := HasRead(n)], [], NO_BOOKS);
    var s2 := System(r1, map[0 := HasConsumed(n)], [n], NO_BOOKS);
    var s3 := s2.(row := r2);
    var s4 := System(r2, map[0 := HasConsumed(n), 1 := HasRead(e.nonce)], [n], NO_BOOKS);
    var s5 := System(r2, map[0 := HasConsumed(n), 1 := HasRead(e.nonce), 2 := HasRead(e.nonce)], [n], NO_BOOKS);
    assert Next(Begin(r), Read(0, false, false)) == s1 by { ReadEnters(Begin(r), 0, n); }
    assert Next(s1, Consume(0)) == s2 by { ConsumePasses(s1, 0, n); }
    assert Next(s2, Endpoint(e)) == s3 by { EndpointMoves(s2, e); }
    assert Next(s3, Read(1, false, false)) == s4 by { ReadEnters(s3, 1, e.nonce); }
    assert Next(s4, Read(2, false, false)) == s5 by { ReadEnters(s4, 2, e.nonce); }
    var m := Overtaken(e);
    PlayCons(Begin(r), m[0], m[1..]);
    PlayCons(s1, m[1], m[2..]);
    PlayCons(s2, m[2], m[3..]);
    PlayCons(s3, m[3], m[4..]);
    PlayCons(s4, m[4], m[5..]);
    assert [m[0]] + m[1..] == m && [m[1]] + m[2..] == m[1..] && [m[2]] + m[3..] == m[2..] &&
      [m[3]] + m[4..] == m[3..] && [m[4]] + m[5..] == m[4..];
  }

  lemma {:induction false} ConsumePasses(s: System, call: nat, nonce: string)
    requires PhaseOf(s, call) == HasRead(nonce) && Live(s.row, nonce)
    ensures Next(s, Consume(call)) == System(s.row.(approval := Some(Consumed(s.row.approval.value))),
                                             s.calls[call := HasConsumed(nonce)],
                                             s.consumed + [nonce], s.books)
  {
  }

  lemma {:induction false} EndpointMoves(s: System, e: Event)
    requires e.Approve?
    ensures Next(s, Endpoint(e)) == s.(row := Step(s.row, e).0)
  {
  }

  function IdFor(r: Release, intent: Value, runs: Runs): OrderId
    requires Passed(runs, r.run)
  {
    OrderId(runs[r.run.value].receiptHash.value, intent)
  }

  /** What the first order leaves behind. */
  function Proof(r: Release, intent: Value, runs: Runs): Evidence
    requires Passed(runs, r.run) && r.approval.Some?
  {
    Evidence(IdFor(r, intent, runs), Some(Unused(r.approval.value)))
  }

  function OneOrder(r: Release, intent: Value, runs: Runs): Books
    requires Passed(runs, r.run) && r.approval.Some?
  {
    var run, id := r.run.value, IdFor(r, intent, runs);
    Books(map[run := id], map[run := [id]], map[run := Proof(r, intent, runs)], map[run := true], [Sent(run, id, true)])
  }

  /** The first call places the order, a later one under the same approval is told that it is there. */
  lemma {:induction false} Places(s: System, call: nat, r: Release, intent: Value, runs: Runs)
    requires Passed(runs, r.run) && r.approval.Some? && (s.books == NO_BOOKS || s.books == OneOrder(r, intent, runs))
    requires PhaseOf(s, call).HasReread? && PhaseOf(s, call).seen.policy.Some? && PhaseOf(s, call).seen.run == r.run
    requires PhaseOf(s, call).seen.approval.Some? &&
      Unused(PhaseOf(s, call).seen.approval.value) == Unused(r.approval.value)
    ensures Next(s, Placing(call, intent, runs)) ==
      var seen := PhaseOf(s, call).seen;
      System(s.row, s.calls[call := HasPlaced(Executed(seen, EvidenceValue(Proof(r, intent, runs))), seen)],
             s.consumed, OneOrder(r, intent, runs))
  {
    hide Executed, EvidenceValue, PlaceOrder;
    var q := RequestOf(PhaseOf(s, call).seen, runs, intent, true);
    assert PlaceOrder(s.books, q, Exchange(StatusWritten(true), false)) ==
      (OneOrder(r, intent, runs), Placed(Proof(r, intent, runs))) by {
      FirstOrSecond(s.books, q, r, intent, runs);
    }
  }

  lemma {:induction false} FirstOrSecond(b: Books, q: Request, r: Release, intent: Value, runs: Runs)
    requires Passed(runs, r.run) && r.approval.Some? && (b == NO_BOOKS || b == OneOrder(r, intent, runs))
    requires q == Request(r.run.value, runs[r.run.value], intent, Some(Unused(r.approval.value)), true, true)
    ensures PlaceOrder(b, q, Exchange(StatusWritten(true), false)) ==
      (OneOrder(r, intent, runs), Placed(Proof(r, intent, runs)))
  {
    var id := IdFor(r, intent, runs);
    assert [] + [id] == [id] && [] + [Sent(q.runId, id, true)] == [Sent(q.runId, id, true)];
  }

  lemma {:induction false} CommitsReady(s: System, call: nat, r: Release, evidence: Value)
    requires PhaseOf(s, call) == HasPlaced(Executed(r, evidence), r) && Invariant(r) && r.state == Approved
    ensures Next(s, Commit(call)) == s.(row := WithTier(Executed(r, evidence)), calls := s.calls[call := Finished])
  {
    hide MissingFor, TierOf, PolicyDigest, Fingerprint;
    NothingBlocksReady(r, Executed(r, evidence));
  }

  /** Call 0 has placed its order and written the second approval back unconsumed. */
  function WrittenBack(r: Release, nonce: string, first: string, intent: Value, runs: Runs): System
    requires Passed(runs, r.run) && r.approval.Some?
  {
    System(WithTier(Executed(r, EvidenceValue(Proof(r, intent, runs)))),
           map[0 := Finished, 1 := HasConsumed(nonce), 2 := HasRead(nonce)],
           [first, nonce], OneOrder(r, intent, runs))
  }

  /** Call 0 has placed its order and has yet to commit. */
  function OrderTaken(r: Release, nonce: string, first: string, intent: Value, runs: Runs): System
    requires Passed(runs, r.run) && r.approval.Some?
  {
    System(r, map[0 := HasPlaced(Executed(r, EvidenceValue(Proof(r, intent, runs))), r), 1 := HasRead(nonce),
                  2 := HasRead(nonce)],
           [first], OneOrder(r, intent, runs))
  }

  lemma {:induction false} TakesOrder(s5: System, nonce: string, r: Release, first: string, intent: Value, runs: Runs)
    requires Passed(runs, r.run) && Live(r, nonce) && r.policy.Some?
    requires s5 == System(r, map[0 := HasConsumed(first), 1 := HasRead(nonce), 2 := HasRead(nonce)], [first], NO_BOOKS)
    ensures Play(s5, [Reread(0), Placing(0, intent, runs)]) == OrderTaken(r, nonce, first, intent, runs)
  {
    hide Next, Executed, OneOrder, Proof;
    var s6 := System(r, map[0 := HasReread(first, r), 1 := HasRead(nonce), 2 := HasRead(nonce)], [first], NO_BOOKS);
    assert Next(s5, Reread(0)) == s6 by { Rereads(s5, 0, first); }
    assert Next(s6, Placing(0, intent, runs)) == OrderTaken(r, nonce, first, intent, runs) by {
      Places(s6, 0, r, intent, runs);
    }
    var m := [Reread(0), Placing(0, intent, runs)];
    PlayCons(s5, m[0], m[1..]);
    PlayCons(s6, m[1], m[2..]);
    assert [m[0]] + m[1..] == m && [m[1]] + m[2..] == m[1..];
  }

  lemma {:induction false} WritesBack(nonce: string, r: Release, first: string, intent: Value, runs: Runs)
    requires Invariant(r) && r.state == Approved && Passed(runs, r.run) && Live(r, nonce)
    ensures Play(OrderTaken(r, nonce, first, intent, runs), [Consume(1), Commit(0)]) ==
      WrittenBack(r, nonce, first, intent, runs)
  {
    hide Invariant, TierOf, Next, Executed, OneOrder, Proof;
    var s7, proof := OrderTaken(r, nonce, first, intent, runs), EvidenceValue(Proof(r, intent, runs));
    var used := r.(approval := Some(Consumed(r.approval.value)));
    var s8 := System(used, map[0 := HasPlaced(Executed(r, proof), r), 1 := HasConsumed(nonce), 2 := HasRead(nonce)],
                     [first, nonce], OneOrder(r, intent, runs));
    assert Next(s7, Consume(1)) == s8 by { ConsumePasses(s7, 1, nonce); }
    assert Next(s8, Commit(0)) == WrittenBack(r, nonce, first, intent, runs) by { CommitsReady(s8, 0, r, proof); }
    var m := [Consume(1), Commit(0)];
    PlayCons(s7, m[0], m[1..]);
    PlayCons(s8, m[1], m[2..]);
    assert [m[0]] + m[1..] == m && [m[1]] + m[2..] == m[1..];
  }

  lemma {:induction false} FirstOrder(s5: System, nonce: string, r: Release, first: string, intent: Value, runs: Runs)
    requires Invariant(r) && r.state == Approved && Passed(runs, r.run) && Live(r, nonce) && r.policy.Some?
    requires s5 == System(r, map[0 := HasConsumed(first), 1 := HasRead(nonce), 2 := HasRead(nonce)], [first], NO_BOOKS)
    ensures Play(s5, FirstPlaces(intent, runs)) == WrittenBack(r, nonce, first, intent, runs)
  {
    hide Play, Invariant, OrderTaken, WrittenBack;
    TakesOrder(s5, nonce, r, first, intent, runs);
    WritesBack(nonce, r, first, intent, runs);
    PlayAppend(s5, [Reread(0), Placing(0, intent, runs)], [Consume(1), Commit(0)]);
  }

  lemma {:induction false} SecondOrder(nonce: string, r: Release, first: string, intent: Value, runs: Runs)
    requires Passed(runs, r.run) && Live(r, nonce) && r.policy.Some?
    ensures var s := Play(WrittenBack(r, nonce, first, intent, runs), SecondPlaces(intent, runs));
      s.consumed == [first, nonce, nonce] && s.books == OneOrder(r, intent, runs)
  {
    hide TierOf, Next, OneOrder, Proof;
    var ready := WithTier(Executed(r, EvidenceValue(Proof(r, intent, runs))));
    var spent := ready.(approval := Some(Consumed(r.approval.value)));
    var s9, books := WrittenBack(r, nonce, first, intent, runs), OneOrder(r, intent, runs);
    var s10 := System(spent, map[0 := Finished, 1 := HasConsumed(nonce), 2 := HasConsumed(nonce)],
                      [first, nonce, nonce], books);
    var s11 := System(spent, map[0 := Finished, 1 := HasReread(nonce, spent), 2 := HasConsumed(nonce)],
                      [first, nonce, nonce], books);
    assert Next(s9, Consume(2)) == s10 by { ConsumePasses(s9, 2, nonce); }
    assert Next(s10, Reread(1)) == s11 by { Rereads(s10, 1, nonce); }
    Places(s11, 1, r, intent, runs);
    var m := SecondPlaces(intent, runs);
    PlayCons(s9, m[0], m[1..]);
    PlayCons(s10, m[1], m[2..]);
    PlayCons(s11, m[2], m[3..]);
    assert [m[0]] + m[1..] == m && [m[1]] + m[2..] == m[1..] && [m[2]] + m[3..] == m[2..];
  }

  lemma {:induction false} Rereads(s: System, call: nat, nonce: string)
    requires PhaseOf(s, call) == HasConsumed(nonce)
    ensures Next(s, Reread(call)) == Enter(s, call, HasReread(nonce, s.row))
  {
  }

  /** Without that condition it fails, on every approved release: call 0 consumes the first approval, then picks up
      the second one unconsumed and writes it back so, and the second approval passes the consume step twice.  The
      evidence of the first order still keeps the exchange from taking a second one. */
  lemma {:induction false} OverlappingApprovals(r: Release, e: Event, intent: Value)
    requires Overlappable(r, e)
    ensures var s := Play(Begin(r), Overlapping(e, intent));
      s.consumed == [r.approval.value.nonce.value, e.nonce, e.nonce] && |s.books.sent| == 1
  {
    hide Step, Play;
    FirstHalf(r, e);
    ReapprovedFacts(r, e);
    var s5 := Play(Begin(r), Overtaken(e));
    FirstOrder(s5, e.nonce, s5.row, r.approval.value.nonce.value, intent, e.runs);
    SecondOrder(e.nonce, s5.row, r.approval.value.nonce.value, intent, e.runs);
    PlayAppend(s5, FirstPlaces(intent, e.runs), SecondPlaces(intent, e.runs));
    PlayAppend(Begin(r), Overtaken(e), BothPlace(intent, e.runs));
  }
}
