/** Several execute-demo calls at once (`service/app.py`, `service/postgres_store.py`): each reads the release,
    consumes its approval by compare-and-set, reads the release again, places the order and commits a whole
    record.  Every other endpoint, and every other caller of the order desk, is one atomic step in between. */
module Interleaving {
  import opened Wrappers
  import opened Digests
  import opened Ordering
  import opened Transitions
  import opened Lifecycle
  import opened Orders

  datatype Phase =
    | Idle
    | HasRead(nonce: string)
    | HasConsumed(nonce: string)
    | HasReread(nonce: string, seen: Release)
    | HasPlaced(update: Release, seen: Release)
    | Finished

  /** `consumed` lists, in order, the nonces that passed the consume step. */
  datatype System = System(row: Release, calls: map<nat, Phase>, consumed: seq<string>, books: Books)

  datatype Move =
    | Endpoint(event: Event)
    | Read(call: nat, freeze: bool, expired: bool)
    | Consume(call: nat)
    | Reread(call: nat)
    | Place(call: nat, breach: bool, intent: Value, verified: bool, exchange: Exchange, readable: bool, runs: Runs)
    | Commit(call: nat)
    | Elsewhere(request: Request, exchange: Exchange)   // the run's own endpoint, or another release

  function PhaseOf(s: System, call: nat): Phase {
    if call in s.calls then s.calls[call] else Idle
  }

  function Enter(s: System, call: nat, phase: Phase): System {
    s.(calls := s.calls[call := phase])
  }

  function Nonce(r: Release): Option<string> {
    if r.approval.None? then None else r.approval.value.nonce
  }

  /** An approval that the compare-and-set would accept. */
  predicate Live(r: Release, nonce: string) {
    r.approval.Some? && r.approval.value.nonce == Some(nonce) && !r.approval.value.consumed
  }

  function ReadStep(s: System, call: nat, freeze: bool, expired: bool): System {
    var r := s.row;
    if PhaseOf(s, call) != Idle then s
    else if freeze || r.execution.Some? || r.state != Approved || ExecutionBlock(r, r.approval, expired).Some?
    then Enter(s, call, Finished)
    else Enter(s, call, HasRead(r.approval.value.nonce.value))
  }

  function ConsumeStep(s: System, call: nat): System {
    var phase := PhaseOf(s, call);
    if !phase.HasRead? then s
    else if !Live(s.row, phase.nonce) then Enter(s, call, Finished)
    else
      var s1 := Enter(s, call, HasConsumed(phase.nonce));
      s1.(row := s.row.(approval := Some(Consumed(s.row.approval.value))), consumed := s.consumed + [phase.nonce])
  }

  function RereadStep(s: System, call: nat): System {
    var phase := PhaseOf(s, call);
    if !phase.HasConsumed? then s else Enter(s, call, HasReread(phase.nonce, s.row))
  }

  /** What a call asks of the order desk for the record it has read. */
  function RequestOf(r: Release, runs: Runs, intent: Value, verified: bool): Request
    requires r.run.Some? && r.run.value in runs && r.approval.Some?
  {
    Request(r.run.value, runs[r.run.value], intent, Some(Unused(r.approval.value)), verified, true)
  }

  function PlaceStep(s: System, m: Move): System
    requires m.Place?
  {
    var phase := PhaseOf(s, m.call);
    if !phase.HasReread? then s
    else
      var r := phase.seen;
      if r.policy.None? then Enter(s, m.call, Finished)
      else if m.breach then Enter(s, m.call, HasPlaced(r.(state := BlockedRiskPolicy), r))
      else if r.run.None? || r.run.value !in m.runs || r.approval.None? then Enter(s, m.call, Finished)
      else
        var (books, outcome) := PlaceOrder(s.books, RequestOf(r, m.runs, m.intent, m.verified), m.exchange);
        Enter(s.(books := books), m.call, Answered(r, outcome, m.readable))
  }

  /** A blocked order blocks the release; an exception, or evidence that cannot be read again, ends the call. */
  function Answered(r: Release, outcome: Outcome, readable: bool): Phase {
    match outcome
    case Stopped => HasPlaced(r.(state := BlockedExchangeError), r)
    case Raised => Finished
    case Placed(e) => if readable then HasPlaced(Executed(r, EvidenceValue(e)), r) else Finished
  }

  function CommitStep(s: System, call: nat): System {
    var phase := PhaseOf(s, call);
    if !phase.HasPlaced? then s
    else
      var next := Transition(phase.seen, phase.update);
      Enter(if next.None? then s else s.(row := next.value), call, Finished)
  }

  /** Another endpoint; a showcase order without an approval of its own consumes the release's. */
  function EndpointStep(s: System, e: Event): System {
    if e.ExecuteDemo? then s
    else
      var row := Step(s.row, e).0;
      var used := e.Showcase? && row != s.row && s.row.showcase.None? && Nonce(s.row).Some?;
      s.(row := row, consumed := if used then s.consumed + [Nonce(s.row).value] else s.consumed)
  }

  function Next(s: System, m: Move): System {
    match m
    case Endpoint(event) => EndpointStep(s, event)
    case Read(call, freeze, expired) => ReadStep(s, call, freeze, expired)
    case Consume(call) => ConsumeStep(s, call)
    case Reread(call) => RereadStep(s, call)
    case Place(_, _, _, _, _, _, _) => PlaceStep(s, m)
    case Commit(call) => CommitStep(s, call)
    case Elsewhere(request, exchange) => s.(books := PlaceOrder(s.books, request.(release := false), exchange).0)
  }

  function Play(s: System, moves: seq<Move>): System {
    if moves == [] then s else Next(Play(s, moves[..|moves| - 1]), moves[|moves| - 1])
  }

  function Begin(row: Release): System {
    System(row, map[], [], NO_BOOKS)
  }

  /** A nonce is drawn at random, so no approval names one that is already about. */
  ghost predicate Fresh(start: Release, moves: seq<Move>) {
    forall k :: 0 <= k < |moves| ==> FreshAt(start, moves, k)
  }

  ghost predicate FreshAt(start: Release, moves: seq<Move>, k: nat)
    requires k < |moves|
  {
    moves[k].Endpoint? && moves[k].event.Approve? ==>
      Nonce(start) != Some(moves[k].event.nonce) &&
      forall j :: 0 <= j < k && moves[j].Endpoint? && moves[j].event.Approve? ==>
        moves[j].event.nonce != moves[k].event.nonce
  }

  /** The second read finds the approval that the call has just used up. */
  predicate FindsOwn(s: System, m: Move) {
    m.Reread? && PhaseOf(s, m.call).HasConsumed? ==> Nonce(s.row) == Some(PhaseOf(s, m.call).nonce)
  }

  ghost predicate AlwaysFindsOwn(start: Release, moves: seq<Move>) {
    forall k :: 0 <= k < |moves| ==> FindsOwn(Play(Begin(start), moves[..k]), moves[k])
  }

  // ---------- the invariant ----------

  /** Nonces issued so far. */
  function Issued(start: Release, moves: seq<Move>): set<string> {
    (if Nonce(start).Some? then {Nonce(start).value} else {}) +
    (set k | 0 <= k < |moves| && moves[k].Endpoint? && moves[k].event.Approve? :: moves[k].event.nonce)
  }

  ghost predicate RowFits(s: System, issued: set<string>) {
    && (Nonce(s.row).Some? ==> Nonce(s.row).value in issued)
    && (forall n :: Live(s.row, n) ==> n !in s.consumed)
  }

  /** A call holds a used-up approval. */
  ghost predicate UsedUp(r: Release, issued: set<string>) {
    r.approval.Some? && r.approval.value.consumed &&
      (r.approval.value.nonce.Some? ==> r.approval.value.nonce.value in issued)
  }

  ghost predicate PhaseFits(p: Phase, issued: set<string>) {
    match p
    case HasReread(n, seen) => Nonce(seen) == Some(n) && UsedUp(seen, issued)
    case HasPlaced(update, _) => UsedUp(update, issued)
    case _ => true
  }

  ghost predicate CallsFit(s: System, issued: set<string>) {
    forall c :: c in s.calls ==>
      PhaseFits(s.calls[c], issued) && (s.calls[c].HasConsumed? ==> s.calls[c].nonce in s.consumed)
  }

  ghost predicate LogsFit(s: System, issued: set<string>) {
    Distinct(s.consumed) && forall n :: n in s.consumed ==> n in issued
  }

  ghost predicate Fits(s: System, issued: set<string>) {
    RowFits(s, issued) && CallsFit(s, issued) && LogsFit(s, issued)
  }

  lemma {:induction false} ReadFits(s: System, issued: set<string>, m: Move)
    requires Fits(s, issued) && m.Read?
    ensures Fits(Next(s, m), issued)
  {
  }

  lemma {:induction false} DistinctSnoc<T>(s: seq<T>, x: T)
    requires Distinct(s) && x !in s
    ensures Distinct(s + [x])
  {
  }

  lemma {:induction false} ConsumeFits(s: System, issued: set<string>, m: Move)
    requires Fits(s, issued) && m.Consume?
    ensures Fits(Next(s, m), issued)
  {
  }

  lemma {:induction false} RereadFits(s: System, issued: set<string>, m: Move)
    requires Fits(s, issued) && m.Reread? && FindsOwn(s, m)
    ensures Fits(Next(s, m), issued)
  {
    hide Fits;
    var phase := PhaseOf(s, m.call);
    if phase.HasConsumed? {
      OwnIsUsedUp(s, issued, m.call);
      EnterFits(s, issued, m.call, HasReread(phase.nonce, s.row));
    }
  }

  lemma {:induction false} OwnIsUsedUp(s: System, issued: set<string>, call: nat)
    requires Fits(s, issued) && PhaseOf(s, call).HasConsumed? && Nonce(s.row) == Some(PhaseOf(s, call).nonce)
    ensures UsedUp(s.row, issued)
  {
    assert !Live(s.row, PhaseOf(s, call).nonce);
  }

  lemma {:induction false} PlaceFits(s: System, issued: set<string>, m: Move)
    requires Fits(s, issued) && m.Place?
    ensures Fits(Next(s, m), issued)
  {
    hide PlaceOrder, Fits;
    var phase := PhaseOf(s, m.call);
    if phase.HasReread? {
      var r := phase.seen;
      HeldIsUsedUp(s, issued, m.call);
      if r.policy.Some? && m.breach {
        EnterFits(s, issued, m.call, HasPlaced(r.(state := BlockedRiskPolicy), r));
      } else if r.policy.None? || r.run.None? || r.run.value !in m.runs || r.approval.None? {
        EnterFits(s, issued, m.call, Finished);
      } else {
        var (books, outcome) := PlaceOrder(s.books, RequestOf(r, m.runs, m.intent, m.verified), m.exchange);
        BooksFit(s, issued, books);
        EnterFits(s.(books := books), issued, m.call, Answered(r, outcome, m.readable));
      }
    }
  }

  lemma {:induction false} HeldIsUsedUp(s: System, issued: set<string>, call: nat)
    requires Fits(s, issued) && PhaseOf(s, call).HasReread?
    ensures UsedUp(PhaseOf(s, call).seen, issued)
  {
  }

  lemma {:induction false} BooksFit(s: System, issued: set<string>, books: Books)
    requires Fits(s, issued)
    ensures Fits(s.(books := books), issued)
  {
  }

  lemma {:induction false} EnterFits(s: System, issued: set<string>, call: nat, p: Phase)
    requires Fits(s, issued) && PhaseFits(p, issued) && !p.HasConsumed?
    ensures Fits(Enter(s, call, p), issued)
  {
  }

  lemma {:induction false} CommitFits(s: System, issued: set<string>, m: Move)
    requires Fits(s, issued) && m.Commit?
    ensures Fits(Next(s, m), issued)
  {
    hide Transition, TierOf, MissingFor, CallsFit, LogsFit;
    var phase := PhaseOf(s, m.call);
    if phase.HasPlaced? {
      EnterFits(s, issued, m.call, Finished);
      HeldUpdateIsUsedUp(s, issued, m.call);
      if Transition(phase.seen, phase.update).Some? {
        TransitionShape(phase.seen, phase.update);
        UsedUpRowFits(Enter(s, m.call, Finished), issued, Transition(phase.seen, phase.update).value);
      }
    }
  }

  lemma {:induction false} HeldUpdateIsUsedUp(s: System, issued: set<string>, call: nat)
    requires CallsFit(s, issued) && PhaseOf(s, call).HasPlaced?
    ensures UsedUp(PhaseOf(s, call).update, issued)
  {
  }

  lemma {:induction false} UsedUpRowFits(s: System, issued: set<string>, row: Release)
    requires Fits(s, issued) && UsedUp(row, issued)
    ensures Fits(s.(row := row), issued)
  {
  }

  /** What another endpoint can do to the approval. */
  lemma {:induction false} EndpointApproval(r: Release, e: Event)
    requires !e.ExecuteDemo?
    ensures var q := Step(r, e).0;
      if e.Showcase? && q != r && r.showcase.None? then
        r.approval.Some? && Truthy(r.approval.value.nonce) && Live(r, r.approval.value.nonce.value) &&
          q.approval == Some(Consumed(r.approval.value))
      else
        || q.approval.None? || q.approval == r.approval
        || (e.Approve? && q.approval.value.nonce == Some(e.nonce))
        || (e.Reject? && q.approval.value.nonce == None)
  {
    hide MissingFor, Fingerprint, PolicyDigest, TierOf, ApprovalBlock, Transition;
    forall u: Release {:trigger Transition(r, u)} | Transition(r, u).Some?
      ensures Transition(r, u).value.approval == u.approval
    {
      TransitionShape(r, u);
    }
  }

  function NewNonce(m: Move): set<string> {
    if m.Endpoint? && m.event.Approve? then {m.event.nonce} else {}
  }

  lemma {:induction false} MoreIssued(s: System, issued: set<string>, more: set<string>)
    requires Fits(s, issued)
    ensures Fits(s, issued + more)
  {
  }

  lemma {:induction false} EndpointFits(s: System, issued: set<string>, m: Move)
    requires Fits(s, issued) && m.Endpoint? && NewNonce(m) !! issued
    ensures Fits(Next(s, m), issued + NewNonce(m))
  {
    hide Step, PhaseFits, UsedUp;
    MoreIssued(s, issued, NewNonce(m));
    if !m.event.ExecuteDemo? {
      var t := Next(s, m);
      EndpointApproval(s.row, m.event);
      if t.consumed != s.consumed { DistinctSnoc(s.consumed, Nonce(s.row).value); }
      assert CallsFit(t, issued + NewNonce(m)) && LogsFit(t, issued + NewNonce(m));
    }
  }

  lemma {:induction false} ElsewhereFits(s: System, issued: set<string>, m: Move)
    requires Fits(s, issued) && m.Elsewhere?
    ensures Fits(Next(s, m), issued)
  {
    BooksFit(s, issued, PlaceOrder(s.books, m.request.(release := false), m.exchange).0);
  }

  lemma {:induction false} NextFits(s: System, issued: set<string>, m: Move)
    requires Fits(s, issued) && FindsOwn(s, m) && NewNonce(m) !! issued
    ensures Fits(Next(s, m), issued + NewNonce(m))
  {
    hide Fits, Next, FindsOwn;
    assert !m.Endpoint? ==> issued + NewNonce(m) == issued;
    match m {
      case Endpoint(_) => EndpointFits(s, issued, m);
      case Read(_, _, _) => ReadFits(s, issued, m);
      case Consume(_) => ConsumeFits(s, issued, m);
      case Reread(_) => RereadFits(s, issued, m);
      case Place(_, _, _, _, _, _, _) => PlaceFits(s, issued, m);
      case Commit(_) => CommitFits(s, issued, m);
      case Elsewhere(_, _) => ElsewhereFits(s, issued, m);
    }
  }

  lemma {:induction false} BeginFits(start: Release)
    ensures Fits(Begin(start), Issued(start, []))
  {
  }

  lemma {:induction false} IssuedSnoc(start: Release, front: seq<Move>, m: Move)
    ensures Issued(start, front + [m]) == Issued(start, front) + NewNonce(m)
    ensures FreshAt(start, front + [m], |front|) ==> NewNonce(m) !! Issued(start, front)
  {
    var all := front + [m];
    assert all[|front|] == m;
    assert forall k :: 0 <= k < |front| ==> all[k] == front[k];
    forall n ensures n in Issued(start, all) <==> n in Issued(start, front) + NewNonce(m) {
      if n in NewNonce(m) { assert all[|front|].event.nonce == n; }
    }
  }

  lemma {:induction false} EveryPrefixFits(start: Release, moves: seq<Move>)
    requires Fresh(start, moves) && AlwaysFindsOwn(start, moves)
    ensures Fits(Play(Begin(start), moves), Issued(start, moves))
  {
    hide Fits, Next, FindsOwn, FreshAt, Begin, Issued;
    if moves == [] {
      BeginFits(start);
    } else {
      var n := |moves| - 1;
      var front, m := moves[..n], moves[n];
      assert moves == front + [m];
      assert forall k :: 0 <= k < n ==> front[..k] == moves[..k] && front[k] == moves[k];
      forall k | 0 <= k < n ensures FreshAt(start, front, k) {
        assert FreshAt(start, moves, k);
        FreshPrefix(start, moves, n, k);
      }
      EveryPrefixFits(start, front);
      IssuedSnoc(start, front, m);
      assert FreshAt(start, moves, n);
      assert FindsOwn(Play(Begin(start), moves[..n]), m);
      NextFits(Play(Begin(start), front), Issued(start, front), m);
    }
  }

  lemma {:induction false} FreshPrefix(start: Release, moves: seq<Move>, n: nat, k: nat)
    requires k < n <= |moves| && FreshAt(start, moves, k)
    ensures FreshAt(start, moves[..n], k)
  {
  }

  /** However execute-demo calls and other endpoints interleave, every approval passes the consume step at most
      once, as long as each call reads back the approval it consumed. */
  lemma {:induction false} AtMostOnce(start: Release, moves: seq<Move>)
    requires Fresh(start, moves) && AlwaysFindsOwn(start, moves)
    ensures Distinct(Play(Begin(start), moves).consumed)
  {
    EveryPrefixFits(start, moves);
  }

  // ---------- when a call finds its own approval ----------

  /** Consume and second read as one step. */
  ghost predicate ReadBackAtOnce(moves: seq<Move>) {
    && (forall k :: 0 < k < |moves| && moves[k - 1].Consume? ==> moves[k] == Reread(moves[k - 1].call))
    && (forall k :: 0 <= k < |moves| && moves[k].Reread? ==> k > 0 && moves[k - 1] == Consume(moves[k].call))
  }

  /** Nobody is between consume and second read, unless the last step was that consume. */
  ghost predicate NoneWaiting(s: System, last: Option<Move>) {
    forall c :: PhaseOf(s, c).HasConsumed? ==> last == Some(Consume(c)) && Nonce(s.row) == Some(PhaseOf(s, c).nonce)
  }

  lemma {:induction false} WaitingStep(s: System, last: Option<Move>, m: Move)
    requires NoneWaiting(s, last) && (last.Some? && last.value.Consume? ==> m == Reread(last.value.call))
    ensures NoneWaiting(Next(s, m), Some(m))
  {
    hide Step, ExecutionBlock, Transition, Executed, PlaceOrder;
    forall c | PhaseOf(Next(s, m), c).HasConsumed?
      ensures m == Consume(c) && Nonce(Next(s, m).row) == Some(PhaseOf(Next(s, m), c).nonce)
    {
    }
  }

  lemma {:induction false} NoneWaits(start: Release, moves: seq<Move>)
    requires ReadBackAtOnce(moves)
    ensures NoneWaiting(Play(Begin(start), moves), if moves == [] then None else Some(moves[|moves| - 1]))
  {
    hide Next, NoneWaiting;
    if moves == [] {
      assert NoneWaiting(Begin(start), None) by { BeginWaiting(start); }
    } else {
      var front := moves[..|moves| - 1];
      assert forall k :: 0 <= k < |front| ==> front[k] == moves[k];
      NoneWaits(start, front);
      var last := if front == [] then None else Some(front[|front| - 1]);
      WaitingStep(Play(Begin(start), front), last, moves[|moves| - 1]);
    }
  }

  lemma {:induction false} BeginWaiting(start: Release)
    ensures NoneWaiting(Begin(start), None)
  {
  }

  /** If the store returned the consumed record from the same atomic step, every call would find its own approval. */
  lemma {:induction false} AtomicConsumeFindsOwn(start: Release, moves: seq<Move>)
    requires ReadBackAtOnce(moves)
    ensures AlwaysFindsOwn(start, moves)
  {
    hide Next;
    forall k | 0 <= k < |moves| ensures FindsOwn(Play(Begin(start), moves[..k]), moves[k]) {
      var front := moves[..k];
      assert forall j :: 0 <= j < k ==> front[j] == moves[j];
      assert ReadBackAtOnce(front);
      NoneWaits(start, front);
    }
  }

  ghost predicate OnlyExecutes(moves: seq<Move>) {
    forall k :: 0 <= k < |moves| ==> !moves[k].Endpoint?
  }

  /** Every record in play carries one and the same nonce. */
  ghost predicate OneNonce(s: System, nonce: Option<string>) {
    && Nonce(s.row) == nonce
    && (forall c :: c in s.calls ==>
          match s.calls[c]
          case HasRead(n) => nonce == Some(n)
          case HasConsumed(n) => nonce == Some(n)
          case HasReread(n, seen) => nonce == Some(n) && Nonce(seen) == nonce
          case HasPlaced(update, seen) => Nonce(update) == nonce && Nonce(seen) == nonce
          case _ => true)
    && (forall n :: n in s.consumed ==> nonce == Some(n))
  }

  lemma {:induction false} OneNonceCommit(s: System, call: nat, nonce: Option<string>)
    requires OneNonce(s, nonce)
    ensures OneNonce(CommitStep(s, call), nonce)
  {
    hide Transition, TierOf, Fingerprint, MissingFor;
    var phase := PhaseOf(s, call);
    if phase.HasPlaced? && Transition(phase.seen, phase.update).Some? {
      TransitionShape(phase.seen, phase.update);
      assert Transition(phase.seen, phase.update).value.approval == phase.update.approval;
    }
  }

  lemma {:induction false} OneNonceRead(s: System, m: Move, nonce: Option<string>)
    requires OneNonce(s, nonce) && m.Read?
    ensures OneNonce(Next(s, m), nonce)
  {
  }

  lemma {:induction false} OneNonceStep(s: System, m: Move, nonce: Option<string>)
    requires OneNonce(s, nonce) && !m.Endpoint?
    ensures OneNonce(Next(s, m), nonce) && FindsOwn(s, m)
  {
    hide CommitStep, ReadStep, PlaceOrder;
    match m {
      case Commit(call) => OneNonceCommit(s, call, nonce);
      case Read(_, _, _) => OneNonceRead(s, m, nonce);
      case _ =>
    }
  }

  lemma {:induction false} OneNonceRuns(start: Release, moves: seq<Move>)
    requires OnlyExecutes(moves)
    ensures OneNonce(Play(Begin(start), moves), Nonce(start)) && AlwaysFindsOwn(start, moves)
  {
    hide Next, OneNonce, FindsOwn;
    if moves == [] {
      assert OneNonce(Begin(start), Nonce(start)) by { BeginOneNonce(start); }
    } else {
      var n := |moves| - 1;
      var front, m := moves[..n], moves[n];
      assert forall k :: 0 <= k < n ==> front[..k] == moves[..k] && front[k] == moves[k];
      OneNonceRuns(start, front);
      OneNonceStep(Play(Begin(start), front), m, Nonce(start));
      forall k | 0 <= k < |moves| ensures FindsOwn(Play(Begin(start), moves[..k]), moves[k]) {
        if k < n { assert FindsOwn(Play(Begin(start), front[..k]), front[k]); }
      }
    }
  }

  lemma {:induction false} BeginOneNonce(start: Release)
    ensures OneNonce(Begin(start), Nonce(start))
  {
  }

  /** However many execute-demo calls interleave, step by step, on one approved release: one of them at most
      gets past the consume step. */
  lemma {:induction false} ExecuteOnlyOnce(start: Release, moves: seq<Move>)
    requires OnlyExecutes(moves)
    ensures |Play(Begin(start), moves).consumed| <= 1
  {
    var s := Play(Begin(start), moves);
    OneNonceRuns(start, moves);
    AtMostOnce(start, moves);
    AtMostOneValue(s.consumed, if Nonce(start).Some? then Nonce(start).value else "");
  }

  lemma {:induction false} CountSame<T>(s: seq<T>, x: T)
    requires forall y :: y in s ==> y == x
    ensures multiset(s)[x] == |s|
  {
    if s != [] {
      var front, last := s[..|s| - 1], s[|s| - 1];
      assert s == front + [last];
      assert last in s && forall y :: y in front ==> y in s;
      CountSame(front, x);
    }
  }

  lemma {:induction false} AtMostOneValue<T>(s: seq<T>, x: T)
    requires Distinct(s) && forall y :: y in s ==> y == x
    ensures |s| <= 1
  {
    CountSame(s, x);
    DistinctCounts(s, x);
  }

  // ---------- every run: how often an approval passes ----------

  function Count(nonces: seq<string>, n: string): nat {
    if nonces == [] then 0 else Count(nonces[..|nonces| - 1], n) + if nonces[|nonces| - 1] == n then 1 else 0
  }

  /** A commit that writes the approval back as if it were unused. */
  predicate Revives(s: System, m: Move, n: string) {
    m.Commit? && !Live(s.row, n) && Live(Next(s, m).row, n)
  }

  function Revivals(start: Release, moves: seq<Move>, n: string): nat {
    if moves == [] then 0
    else
      var front, m := moves[..|moves| - 1], moves[|moves| - 1];
      Revivals(start, front, n) + if Revives(Play(Begin(start), front), m, n) then 1 else 0
  }

  /** How often the approval has passed, and whether it still can. */
  function Tickets(s: System, n: string): nat {
    Count(s.consumed, n) + if Live(s.row, n) then 1 else 0
  }

  /** Every nonce in play has been issued. */
  ghost predicate Known(s: System, issued: set<string>) {
    && (Nonce(s.row).Some? ==> Nonce(s.row).value in issued)
    && (forall n :: n in s.consumed ==> n in issued)
    && (forall c :: c in s.calls ==>
          match s.calls[c]
          case HasReread(_, seen) => Nonce(seen).Some? ==> Nonce(seen).value in issued
          case HasPlaced(update, _) => Nonce(update).Some? ==> Nonce(update).value in issued
          case _ => true)
  }

  lemma {:induction false} CountSnoc(nonces: seq<string>, x: string, n: string)
    ensures Count(nonces + [x], n) == Count(nonces, n) + if x == n then 1 else 0
  {
    assert (nonces + [x])[..|nonces|] == nonces;
  }

  lemma {:induction false} NotIn(nonces: seq<string>, n: string)
    requires n !in nonces
    ensures Count(nonces, n) == 0
  {
    if nonces != [] {
      assert forall x :: x in nonces[..|nonces| - 1] ==> x in nonces;
      NotIn(nonces[..|nonces| - 1], n);
    }
  }

  lemma {:induction false} EndpointTickets(s: System, issued: set<string>, m: Move, n: string)
    requires Known(s, issued) && m.Endpoint? && NewNonce(m) !! issued
    ensures Known(Next(s, m), issued + NewNonce(m))
    ensures Tickets(Next(s, m), n) <= if n in NewNonce(m) then 1 else Tickets(s, n)
  {
    hide Step, Count;
    if n in NewNonce(m) { NotIn(s.consumed, n); }
    if !m.event.ExecuteDemo? {
      EndpointApproval(s.row, m.event);
      if Nonce(s.row).Some? { CountSnoc(s.consumed, Nonce(s.row).value, n); }
    }
  }

  lemma {:induction false} CommittedApproval(s: System, call: nat)
    ensures var t := CommitStep(s, call);
      && t.consumed == s.consumed && (forall c :: c in t.calls ==>
                                      t.calls[c].Finished? || (c in s.calls && t.calls[c] == s.calls[c]))
      && (t.row == s.row || (PhaseOf(s, call).HasPlaced? && t.row.approval == PhaseOf(s, call).update.approval))
  {
    hide Transition;
    var phase := PhaseOf(s, call);
    if phase.HasPlaced? && Transition(phase.seen, phase.update).Some? { TransitionShape(phase.seen, phase.update); }
  }

  lemma {:induction false} CommitTickets(s: System, issued: set<string>, m: Move, n: string)
    requires Known(s, issued) && m.Commit?
    ensures Known(Next(s, m), issued)
    ensures Tickets(Next(s, m), n) <= Tickets(s, n) + if Revives(s, m, n) then 1 else 0
  {
    hide CommitStep, Count;
    CommittedApproval(s, m.call);
  }

  lemma {:induction false} CallTickets(s: System, issued: set<string>, m: Move, n: string)
    requires Known(s, issued) && !m.Commit? && !m.Endpoint?
    ensures Known(Next(s, m), issued) && Tickets(Next(s, m), n) <= Tickets(s, n)
  {
    hide ExecutionBlock, PlaceOrder, Count;
    if m.Consume? && PhaseOf(s, m.call).HasRead? { CountSnoc(s.consumed, PhaseOf(s, m.call).nonce, n); }
  }

  lemma {:induction false} TicketsBounded(start: Release, moves: seq<Move>, n: string)
    requires Fresh(start, moves)
    ensures Known(Play(Begin(start), moves), Issued(start, moves))
    ensures Tickets(Play(Begin(start), moves), n) <= Revivals(start, moves, n) + if n in Issued(start, moves) then 1
      else 0
  {
    hide Known, Next, Tickets, FreshAt, Issued, Revives;
    if moves == [] {
      BeginKnown(start, n);
    } else {
      var k := |moves| - 1;
      var front, m := moves[..k], moves[k];
      assert moves == front + [m];
      FreshFront(start, moves);
      TicketsBounded(start, front, n);
      IssuedSnoc(start, front, m);
      var s, issued := Play(Begin(start), front), Issued(start, front);
      if m.Endpoint? { EndpointTickets(s, issued, m, n); NeverRevives(s, m, n); }
      else if m.Commit? { CommitTickets(s, issued, m, n); }
      else { CallTickets(s, issued, m, n); NeverRevives(s, m, n); }
      assert !m.Endpoint? ==> issued + NewNonce(m) == issued;
    }
  }

  lemma {:induction false} NeverRevives(s: System, m: Move, n: string)
    ensures !m.Commit? ==> !Revives(s, m, n)
  {
  }

  lemma {:induction false} BeginKnown(start: Release, n: string)
    ensures Known(Begin(start), Issued(start, []))
    ensures Tickets(Begin(start), n) <= if n in Issued(start, []) then 1 else 0
  {
  }

  lemma {:induction false} FreshFront(start: Release, moves: seq<Move>)
    requires moves != [] && Fresh(start, moves)
    ensures Fresh(start, moves[..|moves| - 1]) && FreshAt(start, moves, |moves| - 1)
  {
    hide FreshAt;
    var front := moves[..|moves| - 1];
    forall k | 0 <= k < |front| ensures FreshAt(start, front, k) {
      assert FreshAt(start, moves, k);
      FreshPrefix(start, moves, |front|, k);
    }
  }

  /** Over every interleaving: an approval passes the consume step once, and once more for every commit that
      writes it back unused. */
  lemma {:induction false} ConsumesBounded(start: Release, moves: seq<Move>, n: string)
    requires Fresh(start, moves)
    ensures Count(Play(Begin(start), moves).consumed, n) <= 1 + Revivals(start, moves, n)
  {
    TicketsBounded(start, moves, n);
  }

  /** The row shows no used approval as unused. */
  ghost predicate RowSafe(s: System) {
    forall n :: Live(s.row, n) ==> n !in s.consumed
  }

  /** The record that is about to be committed shows an approval as unused that has already passed. */
  predicate WritesBackUsed(s: System, m: Move) {
    && m.Commit? && PhaseOf(s, m.call).HasPlaced?
    && var phase := PhaseOf(s, m.call);
       Transition(phase.seen, phase.update).Some? && Nonce(phase.update).Some?
       && Live(phase.update, Nonce(phase.update).value) && Nonce(phase.update).value in s.consumed
  }

  lemma {:induction false} CommitSafe(s: System, m: Move)
    requires RowSafe(s) && m.Commit?
    ensures RowSafe(Next(s, m)) <==> !WritesBackUsed(s, m)
  {
    hide Transition;
    var phase := PhaseOf(s, m.call);
    if phase.HasPlaced? && Transition(phase.seen, phase.update).Some? {
      TransitionShape(phase.seen, phase.update);
      var row := Transition(phase.seen, phase.update).value;
      assert row.approval == phase.update.approval;
      if WritesBackUsed(s, m) { assert Live(Next(s, m).row, Nonce(phase.update).value); }
    }
  }

  lemma {:induction false} StepSafe(s: System, issued: set<string>, m: Move)
    requires Known(s, issued) && NewNonce(m) !! issued && RowSafe(s)
    ensures RowSafe(Next(s, m)) <==> !WritesBackUsed(s, m)
  {
    hide Step, ExecutionBlock, PlaceOrder, CommitStep;
    if m.Commit? { CommitSafe(s, m); }
    else if m.Endpoint? && !m.event.ExecuteDemo? { EndpointApproval(s.row, m.event); }
  }

  ghost predicate SafeAt(start: Release, moves: seq<Move>, k: nat) {
    k <= |moves| && RowSafe(Play(Begin(start), moves[..k]))
  }

  ghost predicate HarmsAt(start: Release, moves: seq<Move>, k: nat) {
    k < |moves| && WritesBackUsed(Play(Begin(start), moves[..k]), moves[k])
  }

  lemma {:induction false} FreshPrefixes(start: Release, moves: seq<Move>, k: nat)
    requires k <= |moves| && Fresh(start, moves)
    ensures Fresh(start, moves[..k])
  {
    hide FreshAt;
    var front := moves[..k];
    forall j | 0 <= j < |front| ensures FreshAt(start, front, j) {
      assert FreshAt(start, moves, j);
      FreshPrefix(start, moves, k, j);
    }
  }

  lemma {:induction false} SafeStep(start: Release, moves: seq<Move>, k: nat)
    requires k < |moves| && Fresh(start, moves) && SafeAt(start, moves, k)
    ensures SafeAt(start, moves, k + 1) <==> !HarmsAt(start, moves, k)
  {
    hide RowSafe, WritesBackUsed, Next, Known, FreshAt, Issued;
    var front, all := moves[..k], moves[..k + 1];
    assert all == front + [moves[k]] && all[..k] == front;
    FreshPrefixes(start, moves, k);
    FreshPrefixes(start, moves, k + 1);
    TicketsBounded(start, front, "");
    IssuedSnoc(start, front, moves[k]);
    assert FreshAt(start, all, k);
    StepSafe(Play(Begin(start), front), Issued(start, front), moves[k]);
  }

  lemma {:induction false} SafeUpTo(start: Release, moves: seq<Move>, k: nat)
    requires k <= |moves| && Fresh(start, moves) && forall j: nat :: j < k ==> !HarmsAt(start, moves, j)
    ensures SafeAt(start, moves, k)
  {
    hide HarmsAt, Next;
    if k > 0 {
      SafeUpTo(start, moves, k - 1);
      SafeStep(start, moves, k - 1);
    }
  }

  /** Exactly when no approval can be used again at any moment of a run: when no commit writes an approval back as
      unused whose nonce has passed.  The call cannot see that in the record it writes; comparing the record's
      approval with the row's at the commit would do (`ComparingApprovals`). */
  lemma {:induction false} ReuseExactly(start: Release, moves: seq<Move>)
    requires Fresh(start, moves)
    ensures (forall k: nat :: k <= |moves| ==> SafeAt(start, moves, k)) <==>
      (forall k: nat :: k < |moves| ==> !HarmsAt(start, moves, k))
    ensures (forall k: nat :: k <= |moves| ==> SafeAt(start, moves, k)) ==> Distinct(Play(Begin(start), moves).consumed)
  {
    hide HarmsAt, SafeAt;
    if forall k: nat :: k < |moves| ==> !HarmsAt(start, moves, k) {
      forall k: nat | k <= |moves| ensures SafeAt(start, moves, k) { SafeUpTo(start, moves, k); }
    }
    if forall k: nat :: k <= |moves| ==> SafeAt(start, moves, k) {
      forall k: nat | k < |moves| ensures !HarmsAt(start, moves, k) {
        assert SafeAt(start, moves, k) && SafeAt(start, moves, k + 1);
        SafeStep(start, moves, k);
      }
      SafeDistinct(start, moves, |moves|);
      assert moves[..|moves|] == moves;
    }
  }

  lemma {:induction false} ConsumesOnce(s: System, m: Move)
    requires RowSafe(s) && Distinct(s.consumed)
    ensures Distinct(Next(s, m).consumed)
  {
    hide Step, ExecutionBlock, PlaceOrder, CommitStep;
    if m.Consume? && PhaseOf(s, m.call).HasRead? && Live(s.row, PhaseOf(s, m.call).nonce) {
      DistinctSnoc(s.consumed, PhaseOf(s, m.call).nonce);
    } else if m.Endpoint? && !m.event.ExecuteDemo? {
      EndpointApproval(s.row, m.event);
      if Next(s, m).consumed != s.consumed { DistinctSnoc(s.consumed, Nonce(s.row).value); }
    } else if m.Commit? {
      CommittedApproval(s, m.call);
    }
  }

  lemma {:induction false} SafeDistinct(start: Release, moves: seq<Move>, k: nat)
    requires k <= |moves| && forall j: nat :: j <= |moves| ==> SafeAt(start, moves, j)
    ensures Distinct(Play(Begin(start), moves[..k]).consumed)
  {
    hide Next, RowSafe, Distinct;
    if k > 0 {
      SafeDistinct(start, moves, k - 1);
      assert SafeAt(start, moves, k - 1);
      assert moves[..k][..k - 1] == moves[..k - 1];
      ConsumesOnce(Play(Begin(start), moves[..k - 1]), moves[k - 1]);
    } else {
      BeginDistinct(start);
    }
  }

  lemma {:induction false} BeginDistinct(start: Release)
    ensures Distinct(Begin(start).consumed)
  {
  }

  /** The row's approval is the one the call has read back. */
  predicate ComparesApproval(s: System, m: Move) {
    m.Commit? && PhaseOf(s, m.call).HasPlaced? ==> PhaseOf(s, m.call).seen.approval == s.row.approval
  }

  ghost predicate SameApprovals(s: System) {
    forall c :: c in s.calls && s.calls[c].HasPlaced? ==> s.calls[c].update.approval == s.calls[c].seen.approval
  }

  lemma {:induction false} NextSameApprovals(s: System, m: Move)
    requires SameApprovals(s)
    ensures SameApprovals(Next(s, m))
  {
    hide Step, ExecutionBlock, PlaceOrder, Transition;
  }

  lemma {:induction false} EverSameApprovals(start: Release, moves: seq<Move>)
    ensures SameApprovals(Play(Begin(start), moves))
  {
    hide Next;
    if moves != [] {
      EverSameApprovals(start, moves[..|moves| - 1]);
      NextSameApprovals(Play(Begin(start), moves[..|moves| - 1]), moves[|moves| - 1]);
    }
  }

  lemma {:induction false} ComparedHarmless(s: System, m: Move)
    requires RowSafe(s) && SameApprovals(s) && ComparesApproval(s, m)
    ensures !WritesBackUsed(s, m)
  {
  }

  /** What the store could compare: when every commit finds the approval it has read back, no approval is ever
      used twice. */
  lemma {:induction false} ComparingApprovals(start: Release, moves: seq<Move>, k: nat)
    requires Fresh(start, moves) && k <= |moves|
    requires forall j: nat :: j < |moves| ==> ComparesApproval(Play(Begin(start), moves[..j]), moves[j])
    ensures SafeAt(start, moves, k) && Distinct(Play(Begin(start), moves[..k]).consumed)
  {
    hide Next, RowSafe, WritesBackUsed, ComparesApproval, Distinct, SameApprovals;
    if k == 0 {
      SafeUpTo(start, moves, 0);
      BeginDistinct(start);
    } else {
      var front := moves[..k - 1];
      ComparingApprovals(start, moves, k - 1);
      EverSameApprovals(start, front);
      ComparedHarmless(Play(Begin(start), front), moves[k - 1]);
      SafeStep(start, moves, k - 1);
      ConsumesOnce(Play(Begin(start), front), moves[k - 1]);
      assert moves[..k][..k - 1] == front;
    }
  }

  /** A step that uses an approval whose nonce has passed before. */
  predicate PassesAgain(s: System, m: Move) {
    || (m.Consume? && PhaseOf(s, m.call).HasRead? && Live(s.row, PhaseOf(s, m.call).nonce) &&
        PhaseOf(s, m.call).nonce in s.consumed)
    || (m.Endpoint? && m.event.Showcase? && Step(s.row, m.event).0 != s.row && s.row.showcase.None?
        && Nonce(s.row).Some? && Nonce(s.row).value in s.consumed)
  }

  lemma {:induction false} DistinctFront<T>(s: seq<T>, x: T)
    ensures Distinct(s + [x]) <==> Distinct(s) && x !in s
  {
    var all := s + [x];
    assert forall i :: 0 <= i < |s| ==> all[i] == s[i];
    if Distinct(all) {
      forall i | 0 <= i < |s| ensures s[i] != x { assert all[i] != all[|s|]; }
    }
    if x !in s && Distinct(s) { DistinctSnoc(s, x); }
  }

  lemma {:induction false} StepDistinct(s: System, m: Move)
    ensures Distinct(Next(s, m).consumed) <==> Distinct(s.consumed) && !PassesAgain(s, m)
  {
    hide Step, ExecutionBlock, PlaceOrder, CommitStep, Distinct;
    if m.Consume? && PhaseOf(s, m.call).HasRead? {
      DistinctFront(s.consumed, PhaseOf(s, m.call).nonce);
    } else if m.Endpoint? && Nonce(s.row).Some? {
      DistinctFront(s.consumed, Nonce(s.row).value);
    } else if m.Commit? {
      CommittedApproval(s, m.call);
    }
  }

  ghost predicate AgainAt(start: Release, moves: seq<Move>, k: nat) {
    k < |moves| && PassesAgain(Play(Begin(start), moves[..k]), moves[k])
  }

  /** Exactly when an approval passes twice: when a commit has written it back as unused and a later call or
      showcase order finds it so. */
  lemma {:induction false} PassesTwiceExactly(start: Release, moves: seq<Move>)
    requires Fresh(start, moves)
    ensures !Distinct(Play(Begin(start), moves).consumed) <==> exists k: nat :: AgainAt(start, moves, k)
    ensures forall k: nat :: AgainAt(start, moves, k) ==> exists j: nat :: j < k && HarmsAt(start, moves, j)
  {
    hide AgainAt, HarmsAt, Distinct;
    AgainOverRun(start, moves);
    forall k: nat | AgainAt(start, moves, k) ensures exists j: nat :: j < k && HarmsAt(start, moves, j) {
      if forall j: nat :: j < k ==> !HarmsAt(start, moves, j) {
        AgainUnsafe(start, moves, k);
        SafeUpTo(start, moves, k);
      }
    }
  }

  lemma {:induction false} AgainUnsafe(start: Release, moves: seq<Move>, k: nat)
    requires AgainAt(start, moves, k)
    ensures k < |moves| && !SafeAt(start, moves, k)
  {
    hide Play, Step;
    var s, m := Play(Begin(start), moves[..k]), moves[k];
    if m.Endpoint? { ShowcaseUses(s.row, m.event); }
  }

  lemma {:induction false} ShowcaseUses(r: Release, e: Event)
    ensures e.Showcase? && Step(r, e).0 != r && r.showcase.None? ==> Nonce(r).Some? && Live(r, Nonce(r).value)
  {
    hide Fingerprint;
  }

  lemma {:induction false} AgainOverRun(start: Release, moves: seq<Move>)
    ensures !Distinct(Play(Begin(start), moves).consumed) <==> exists k: nat :: AgainAt(start, moves, k)
  {
    hide Next, PassesAgain, Distinct, Begin;
    if moves == [] {
      BeginDistinct(start);
    } else {
      var n := |moves| - 1;
      var front := moves[..n];
      AgainOverRun(start, front);
      StepDistinct(Play(Begin(start), front), moves[n]);
      assert forall k: nat :: k < n ==> front[..k] == moves[..k] && front[k] == moves[k];
      assert forall k: nat {:trigger AgainAt(start, front, k)} :: AgainAt(start, front, k) ==> AgainAt(start, moves, k);
      assert forall k: nat {:trigger AgainAt(start, moves, k)} :: AgainAt(start, moves, k) && k < n ==>
        AgainAt(start, front, k);
      assert AgainAt(start, moves, n) <==> PassesAgain(Play(Begin(start), front), moves[n]);
    }
  }

  // ---------- every run: orders ----------

  /** Past the states in which a run can still be bound. */
  predicate Past(s: State) {
    s !in {Draft, RedlineRunning, RedlinePassed, BlockedWithheld, BlockedUnverified}
  }

  lemma {:induction false} BindRefused(r: Release, u: Release)
    requires Past(r.state) && u.state in {RedlineRunning, RedlinePassed, BlockedWithheld, BlockedUnverified}
    ensures Transition(r, u).None?
  {
  }

  lemma {:induction false} MovesPast(r: Release, u: Release)
    requires Past(r.state) && Past(u.state) && u.run == r.run
    ensures Past(Settle(r, Transition(r, u)).0.state) && Settle(r, Transition(r, u)).0.run == r.run
  {
    hide MissingFor, TierOf;
    if Transition(r, u).Some? { TransitionShape(r, u); }
  }

  lemma {:induction false} BindStaysPast(r: Release, e: Event)
    requires Past(r.state) && e.BindRun?
    ensures Step(r, e).0 == r
  {
    hide Transition;
    if e.runId in e.runs { BindRefused(r, Bound(r, e.runId, e.runs[e.runId])); }
  }

  lemma {:induction false} PastStays(r: Release, e: Event)
    requires Past(r.state) && !e.ExecuteDemo?
    ensures Past(Step(r, e).0.state) && Step(r, e).0.run == r.run
  {
    hide Fingerprint, PolicyDigest, TierOf, Transition, ApprovalBlock, ExecutionBlock, Settle, StateForBoundRun, Past;
    PastStates();
    if e.BindRun? {
      BindStaysPast(r, e);
    } else {
      forall u: Release {:trigger Transition(r, u)} | Past(u.state) && u.run == r.run
        ensures Past(Settle(r, Transition(r, u)).0.state) && Settle(r, Transition(r, u)).0.run == r.run
      {
        MovesPast(r, u);
      }
    }
  }

  lemma {:induction false} PastStates()
    ensures Past(Approved) && Past(Rejected) && Past(Killed) && Past(EvidenceCollecting) && Past(ReviewRequired) &&
      Past(BlockedRiskPolicy)
  {
  }

  /** A record that carries the release's run and is past binding. */
  predicate Carries(r: Release, run: Option<string>) {
    Past(r.state) && r.run == run
  }

  /** Once a call has seen the release, the row and every record a call holds carry one run, and so does
      every order placed for the release. */
  ghost predicate OneRun(s: System) {
    && (forall c :: c in s.calls && !s.calls[c].Finished? ==> Past(s.row.state))
    && (forall c :: c in s.calls ==>
          match s.calls[c]
          case HasReread(_, seen) => Carries(seen, s.row.run)
          case HasPlaced(update, _) => Carries(update, s.row.run)
          case _ => true)
    && (forall o :: o in s.books.sent && o.release ==> Past(s.row.state) && s.row.run == Some(o.run))
  }

  lemma {:induction false} SentBy(b: Books, q: Request, exchange: Exchange)
    ensures forall o :: o in PlaceOrder(b, q, exchange).0.sent ==>
      o in b.sent || (o.run == q.runId && o.release == q.release)
  {
    hide PlaceOrder, IdOf, Sends;
    SendsExactly(b, q, exchange);
  }

  lemma {:induction false} CommitOneRun(s: System, m: Move)
    requires OneRun(s) && m.Commit?
    ensures OneRun(Next(s, m))
  {
    hide Transition, MissingFor, TierOf;
    var phase := PhaseOf(s, m.call);
    if phase.HasPlaced? && Transition(phase.seen, phase.update).Some? {
      TransitionShape(phase.seen, phase.update);
      var row := Transition(phase.seen, phase.update).value;
      assert Carries(row, s.row.run);
    }
  }

  lemma {:induction false} PlaceOneRun(s: System, m: Move)
    requires OneRun(s) && m.Place?
    ensures OneRun(Next(s, m))
  {
    hide PlaceOrder;
    var phase := PhaseOf(s, m.call);
    if phase.HasReread? {
      var r := phase.seen;
      assert Carries(r, s.row.run) && Past(s.row.state);
      if r.run.Some? && r.run.value in m.runs && r.approval.Some? {
        SentBy(s.books, RequestOf(r, m.runs, m.intent, m.verified), m.exchange);
      }
    }
  }

  lemma {:induction false} NextOneRun(s: System, m: Move)
    requires OneRun(s)
    ensures OneRun(Next(s, m))
  {
    hide Step, PlaceOrder, ExecutionBlock, CommitStep, PlaceStep;
    match m {
      case Endpoint(e) => if Past(s.row.state) && !e.ExecuteDemo? { PastStays(s.row, e); }
      case Place(_, _, _, _, _, _, _) => PlaceOneRun(s, m);
      case Commit(_) => CommitOneRun(s, m);
      case Elsewhere(q, exchange) => SentBy(s.books, q.(release := false), exchange);
      case _ =>
    }
  }

  lemma {:induction false} BooksKept(s: System, m: Move)
    requires Consistent(s.books)
    ensures Consistent(Next(s, m).books) && Grown(s.books, Next(s, m).books)
  {
    hide PlaceOrder, Step, Transition, ExecutionBlock, Consistent;
    if m.Elsewhere? { PlaceOrderKeeps(s.books, m.request.(release := false), m.exchange); }
    if m.Place? && PhaseOf(s, m.call).HasReread? {
      var r := PhaseOf(s, m.call).seen;
      if r.run.Some? && r.run.value in m.runs && r.approval.Some? {
        PlaceOrderKeeps(s.books, RequestOf(r, m.runs, m.intent, m.verified), m.exchange);
      }
    }
  }

  /** Over every interleaving - overlapping approvals, other releases, the run's own endpoint, lost answers and
      lost files included - the exchange takes one order for a run at most. */
  lemma {:induction false} OneOrderPerRun(start: Release, moves: seq<Move>, run: string)
    ensures SentFor(Play(Begin(start), moves).books.sent, run) <= 1
  {
    hide Play;
    BooksConsistent(start, moves);
    OneForEachRun(Play(Begin(start), moves).books, run);
  }

  lemma {:induction false} BooksConsistent(start: Release, moves: seq<Move>)
    ensures Consistent(Play(Begin(start), moves).books)
  {
    hide Next;
    if moves != [] {
      var front := moves[..|moves| - 1];
      BooksConsistent(start, front);
      BooksKept(Play(Begin(start), front), moves[|moves| - 1]);
    }
  }

  /** Evidence once written for a run stays as it is. */
  lemma {:induction false} EvidenceStays(start: Release, moves: seq<Move>, k: nat, run: string)
    requires k <= |moves| && run in Play(Begin(start), moves[..k]).books.evidence
    ensures run in Play(Begin(start), moves).books.evidence
    ensures Play(Begin(start), moves).books.evidence[run] == Play(Begin(start), moves[..k]).books.evidence[run]
  {
    hide Next, Consistent;
    if k < |moves| {
      var front := moves[..|moves| - 1];
      assert front[..k] == moves[..k];
      EvidenceStays(start, front, k, run);
      BooksConsistent(start, front);
      BooksKept(Play(Begin(start), front), moves[|moves| - 1]);
    } else {
      assert moves[..k] == moves;
    }
  }

  lemma {:induction false} EveryRunOneRun(start: Release, moves: seq<Move>)
    ensures OneRun(Play(Begin(start), moves))
  {
    hide Next, OneRun;
    if moves == [] {
      BeginOneRun(start);
    } else {
      EveryRunOneRun(start, moves[..|moves| - 1]);
      NextOneRun(Play(Begin(start), moves[..|moves| - 1]), moves[|moves| - 1]);
    }
  }

  lemma {:induction false} BeginOneRun(start: Release)
    ensures OneRun(Begin(start))
  {
  }

  function ReleaseOrders(sent: seq<Sent>): nat {
    if sent == [] then 0
    else ReleaseOrders(sent[..|sent| - 1]) + if sent[|sent| - 1].release then 1 else 0
  }

  lemma {:induction false} OrdersOfOneRun(sent: seq<Sent>, run: string)
    requires forall o :: o in sent && o.release ==> o.run == run
    ensures ReleaseOrders(sent) <= SentFor(sent, run)
  {
    if sent != [] {
      assert forall o :: o in sent[..|sent| - 1] ==> o in sent;
      assert sent[|sent| - 1] in sent;
      OrdersOfOneRun(sent[..|sent| - 1], run);
    }
  }

  /** All orders of a release go to one run, so the release gets one order at most, whatever its approvals did. */
  lemma {:induction false} OneOrderPerRelease(start: Release, moves: seq<Move>)
    ensures var s := Play(Begin(start), moves);
      ReleaseOrders(s.books.sent) <= 1 && forall o :: o in s.books.sent && o.release ==> Some(o.run) == s.row.run
  {
    hide Play;
    var s := Play(Begin(start), moves);
    EveryRunOneRun(start, moves);
    var run := if s.row.run.Some? then s.row.run.value else "";
    OneOrderPerRun(start, moves, run);
    if s.row.run.Some? { OrdersOfOneRun(s.books.sent, run); } else { NoneSent(s.books.sent); }
  }

  lemma {:induction false} NoneSent(sent: seq<Sent>)
    requires forall o :: o in sent ==> !o.release
    ensures ReleaseOrders(sent) == 0
  {
    if sent != [] {
      assert forall o :: o in sent[..|sent| - 1] ==> o in sent;
      assert sent[|sent| - 1] in sent;
      NoneSent(sent[..|sent| - 1]);
    }
  }
}
