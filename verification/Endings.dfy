/** What becomes of an ended release, and of its orders, while execute-demo calls are still under way: the store
    overwrites whole records (`update_release_candidate` in `service/postgres_store.py`), and a call looks at the
    state only when it first reads the release (`service/app.py`). */
module Endings {
  import opened Wrappers
  import opened Digests
  import opened Ordering
  import opened Transitions
  import opened Lifecycle
  import opened Orders
  import opened Interleaving
  import opened Overlap

  // ---------- the invariant under interleaving ----------

  function Marked(r: Release): Release {
    if r.approval.None? then r else Used(r)
  }

  /** The invariant, but for whether the approval of a ready release is used up. */
  ghost predicate Sound(r: Release) {
    Invariant(Marked(r))
  }

  lemma {:induction false} SoundUpToUse(r: Release)
    ensures Invariant(r) <==> Sound(r) && (r.state == ReleaseReady ==> r.approval.Some? && r.approval.value.consumed)
    ensures Sound(r) && r.state == ReleaseReady ==> r.approval.Some? && r.execution.Some? && r.run.Some?
  {
    hide MissingFor, PolicyDigest, Fingerprint;
    MissingSame(Marked(r), r, ReviewRequired);
    MissingSame(Marked(r), r, Approved);
    MissingSame(Marked(r), r, ReleaseReady);
    FingerprintBinds(Marked(r), r);
  }

  lemma {:induction false} ReadyShows(r: Release, e: Event)
    requires r.state == ReleaseReady && r.approval.Some? && (e.Approve? || e.Showcase?)
    ensures var q := Step(r, e).0;
      if e.Approve? then q == r || q == r.(showcase := Some(NewApproval(r, e.who, e.nonce, e.comment)))
      else q == r || q == Used(r) || (r.showcase.Some? && q == r.(showcase := Some(Consumed(r.showcase.value))))
  {
    hide Fingerprint, ApprovalBlock;
  }

  lemma {:induction false} ReadyKilled(r: Release, at: string)
    requires r.state == ReleaseReady
    ensures Step(r, Kill(at)).0 == WithTier(r.(state := Killed, killedAt := Some(at)))
  {
    hide TierOf;
    NothingAsked(r.(state := Killed, killedAt := Some(at)));
  }

  lemma {:induction false} ReadyBundles(r: Release, manifest: Option<Value>)
    ensures Marked(Step(r, Bundle(manifest)).0) == Step(Marked(r), Bundle(manifest)).0
  {
    hide TierOf;
    TierMarked(r);
  }

  /** Nothing else moves a ready release. */
  lemma {:induction false} ReadyRefuses(r: Release, e: Event)
    requires r.state == ReleaseReady && (e.BindRun? || e.ImportSimulation? || e.BindPolicy? || e.Reject?)
    ensures Step(r, e).0 == r
  {
    hide Transition, Fingerprint, PolicyDigest, SimulationDigest, StateForBoundRun;
    forall u: Release {:trigger Transition(r, u)} | u.state !in {ReleaseReady, ReleasedDemo, ReleasedLiveGated, Killed}
      ensures Transition(r, u).None?
    {
      ReadyOnwards(r, u);
    }
    if e.BindRun? && e.runId in e.runs { BoundStates(e.runs[e.runId]); }
  }

  lemma {:induction false} BoundStates(run: Run)
    ensures StateForBoundRun(run) in {RedlineRunning, RedlinePassed, BlockedWithheld, BlockedUnverified}
  {
  }

  lemma {:induction false} ReadyOnwards(r: Release, u: Release)
    requires r.state == ReleaseReady && u.state !in {ReleaseReady, ReleasedDemo, ReleasedLiveGated, Killed}
    ensures Transition(r, u).None?
  {
  }

  lemma {:induction false} TierMarked(r: Release)
    ensures TierOf(Marked(r)) == TierOf(r)
  {
  }

  lemma {:induction false} KilledSound(r: Release, at: string)
    requires Sound(r) && r.state == ReleaseReady
    ensures Sound(WithTier(r.(state := Killed, killedAt := Some(at))))
  {
    hide Invariant, TierOf;
    var u := r.(state := Killed, killedAt := Some(at));
    SoundUpToUse(r);
    ReadyKilled(Marked(r), at);
    StepKeeps(Marked(r), Kill(at));
    TierMarked(u);
    SoundUpToUse(WithTier(u));
    assert Marked(WithTier(u)) == Step(Marked(r), Kill(at)).0;
  }

  lemma {:induction false} ReadySound(r: Release, e: Event)
    requires Sound(r) && r.state == ReleaseReady && !e.ExecuteDemo?
    ensures Sound(Step(r, e).0)
  {
    hide Invariant, Step, TierOf, NewApproval;
    SoundUpToUse(r);
    match e {
      case Approve(_, _, _, _, _) =>
        ReadyShows(r, e);
        ShownKeeps(Marked(r), NewApproval(r, e.who, e.nonce, e.comment));
      case Showcase(_, _) =>
        ReadyShows(r, e);
        if r.showcase.Some? { ShownKeeps(Marked(r), Consumed(r.showcase.value)); }
      case Kill(at) =>
        ReadyKilled(r, at);
        KilledSound(r, at);
      case Bundle(manifest) =>
        ReadyBundles(r, manifest);
        StepKeeps(Marked(r), e);
      case _ => ReadyRefuses(r, e);
    }
  }

  lemma {:induction false} StepSound(r: Release, e: Event)
    requires Sound(r) && !e.ExecuteDemo?
    ensures Sound(Step(r, e).0)
  {
    hide Invariant, Step, Sound;
    if r.state == ReleaseReady {
      ReadySound(r, e);
    } else {
      SoundUpToUse(r);
      StepKeeps(r, e);
      SoundUpToUse(Step(r, e).0);
    }
  }

  // ---------- commits ----------

  /** What a call can be about to write for the record it has read back. */
  ghost predicate Proposes(seen: Release, update: Release) {
    || update == seen.(state := BlockedRiskPolicy)
    || (seen.approval.Some? && update == seen.(state := BlockedExchangeError))
    || (seen.approval.Some? && seen.run.Some? && update.execution.Some? &&
        update == Executed(seen, update.execution.value))
  }

  /** The transition table lets the record through. */
  predicate Lands(seen: Release, update: Release) {
    seen.state in {Approved, EvidenceCollecting, update.state}
  }

  lemma {:induction false} ReadyAgain(seen: Release, update: Release)
    requires Sound(seen) && seen.state == ReleaseReady && seen.approval.Some? && seen.run.Some?
    requires update.execution.Some? && update == Executed(seen, update.execution.value)
    ensures MissingFor(update, ReleaseReady) == [] && Sound(WithTier(update))
  {
    hide MissingFor, PolicyDigest, Fingerprint;
    SoundUpToUse(seen);
    MissingSame(update, Marked(seen), ReleaseReady);
    var next := WithTier(update);
    MissingSame(Marked(next), Marked(seen), ReleaseReady);
    FingerprintBinds(Marked(next), Marked(seen));
    TierMarked(update);
    TierIgnoresTier(Marked(update), TierOf(update));
  }

  lemma {:induction false} ReadyFirst(seen: Release, update: Release)
    requires Sound(seen) && seen.state == Approved
    requires update.execution.Some? && update == Executed(seen, update.execution.value)
    ensures MissingFor(update, ReleaseReady) == [] && Sound(WithTier(update))
  {
    hide MissingFor, PolicyDigest, Fingerprint, TierOf;
    MissingForExactly(Marked(seen), Approved);
    PlacedKeeps(Marked(seen), update.execution.value);
    NothingBlocksReady(Marked(seen), Marked(update));
    MissingSame(update, Marked(update), ReleaseReady);
    TierMarked(update);
    assert Marked(update) == Executed(Marked(seen), update.execution.value);
    assert Marked(WithTier(update)) == WithTier(Marked(update));
  }

  lemma {:induction false} BlockedSound(seen: Release, target: State)
    requires Sound(seen) && target in {BlockedRiskPolicy, BlockedExchangeError} && Lands(seen, seen.(state := target))
    ensures Sound(WithTier(seen.(state := target)))
  {
    hide MissingFor, PolicyDigest, Fingerprint;
    var u := seen.(state := target);
    TierMarked(u);
    TierIgnoresTier(Marked(u), TierOf(u));
  }

  /** Exactly which proposed records are written, and that they are sound. */
  lemma {:induction false} CommitExactly(seen: Release, update: Release)
    requires Sound(seen) && Past(seen.state) && Proposes(seen, update)
    ensures Transition(seen, update) == if Lands(seen, update) then Some(WithTier(update)) else None
    ensures Lands(seen, update) ==> Sound(WithTier(update))
  {
    hide MissingFor, TierOf, Invariant, PolicyDigest;
    SoundStates(seen);
    if update.state == ReleaseReady {
      if seen.state == ReleaseReady { ReadyAgain(seen, update); }
      if seen.state == Approved { ReadyFirst(seen, update); }
    } else {
      NothingAsked(update);
      if Lands(seen, update) { BlockedSound(seen, update.state); }
    }
  }

  lemma {:induction false} SoundStates(r: Release)
    requires Sound(r)
    ensures r.state !in {DemoExecuted, ReleasedDemo, ReleasedLiveGated, BlockedApproval}
    ensures r.state in {EvidenceCollecting, ReviewRequired} ==> r.approval.None?
    ensures r.state == Approved ==> r.approval.Some? && r.policy.Some? && r.run.Some?
  {
    hide Fingerprint, PolicyDigest;
  }

  // ---------- every interleaving ----------

  /** The row, and every record a call holds. */
  ghost predicate AllSound(s: System) {
    && Sound(s.row)
    && (forall c :: c in s.calls ==>
          match s.calls[c]
          case HasReread(_, seen) => Sound(seen) && Past(seen.state)
          case HasPlaced(update, seen) => Sound(seen) && Past(seen.state) && Proposes(seen, update)
          case _ => true)
  }

  lemma {:induction false} ConsumedSound(r: Release)
    requires r.approval.Some?
    ensures Sound(Used(r)) <==> Sound(r)
  {
  }

  lemma {:induction false} AnsweredProposes(r: Release, outcome: Outcome, readable: bool)
    requires r.approval.Some? && r.run.Some?
    ensures var phase := Answered(r, outcome, readable);
      phase.Finished? || (phase.HasPlaced? && phase.seen == r && Proposes(r, phase.update))
  {
  }

  lemma {:induction false} PlaceSound(s: System, m: Move)
    requires AllSound(s) && m.Place?
    ensures AllSound(Next(s, m))
  {
    hide Sound, PlaceOrder, Proposes, Past, Executed, Answered;
    var phase := PhaseOf(s, m.call);
    if phase.HasReread? {
      var r := phase.seen;
      assert Proposes(r, r.(state := BlockedRiskPolicy)) by { BreachProposes(r); }
      if r.run.Some? && r.run.value in m.runs && r.approval.Some? {
        AnsweredProposes(r, PlaceOrder(s.books, RequestOf(r, m.runs, m.intent, m.verified), m.exchange).1, m.readable);
      }
    }
  }

  lemma {:induction false} BreachProposes(r: Release)
    ensures Proposes(r, r.(state := BlockedRiskPolicy))
  {
  }

  lemma {:induction false} CommitSound(s: System, m: Move)
    requires AllSound(s) && m.Commit?
    ensures AllSound(Next(s, m))
  {
    hide Sound, Transition, Proposes, Past, TierOf;
    var phase := PhaseOf(s, m.call);
    if phase.HasPlaced? { CommitExactly(phase.seen, phase.update); }
  }

  lemma {:induction false} NextSound(s: System, m: Move)
    requires AllSound(s) && OneRun(s)
    ensures AllSound(Next(s, m))
  {
    hide Sound, Step, ExecutionBlock, PlaceStep, CommitStep, Proposes, PlaceOrder, Past;
    match m {
      case Endpoint(e) => if !e.ExecuteDemo? { StepSound(s.row, e); }
      case Consume(_) => if s.row.approval.Some? { ConsumedSound(s.row); }
      case Place(_, _, _, _, _, _, _) => PlaceSound(s, m);
      case Commit(_) => CommitSound(s, m);
      case _ =>
    }
  }

  /** However execute-demo calls interleave with each other and with the endpoints: the stored release lacks no
      evidence its state asks for, is vouched for by someone other than its creator, and has the computed tier. */
  lemma {:induction false} EveryInterleavingKeeps(start: Release, moves: seq<Move>)
    requires Invariant(start)
    ensures AllSound(Play(Begin(start), moves))
  {
    hide Next, AllSound, OneRun, Invariant;
    if moves == [] {
      SoundUpToUse(start);
      BeginSound(start);
    } else {
      var front := moves[..|moves| - 1];
      EveryInterleavingKeeps(start, front);
      EveryRunOneRun(start, front);
      NextSound(Play(Begin(start), front), moves[|moves| - 1]);
    }
  }

  lemma {:induction false} BeginSound(start: Release)
    requires Sound(start)
    ensures AllSound(Begin(start))
  {
  }

  // ---------- when an ended release is left ----------

  /** A commit of a record that was read back before the end, or in the very state it writes. */
  predicate Overtakes(s: System, m: Move) {
    && m.Commit? && PhaseOf(s, m.call).HasPlaced?
    && var phase := PhaseOf(s, m.call);
       Lands(phase.seen, phase.update) && phase.update.state != s.row.state
  }

  lemma {:induction false} LeftExactly(s: System, m: Move)
    requires AllSound(s) && Terminal(s.row.state)
    ensures Next(s, m).row.state != s.row.state <==> Overtakes(s, m)
  {
    hide Sound, Step, ExecutionBlock, PlaceOrder, Proposes, Transition, TierOf, Past, Lands;
    if m.Endpoint? && !m.event.ExecuteDemo? { TerminalStays(s.row, m.event); }
    if m.Commit? && PhaseOf(s, m.call).HasPlaced? {
      CommitExactly(PhaseOf(s, m.call).seen, PhaseOf(s, m.call).update);
    }
  }

  /** Over every interleaving: a terminal state is left exactly by the commit of a call that read the release back
      while it was approved, collecting evidence, or in the state that the call writes. */
  lemma {:induction false} TerminalLeftExactly(start: Release, moves: seq<Move>, m: Move)
    requires Invariant(start) && Terminal(Play(Begin(start), moves).row.state)
    ensures var s := Play(Begin(start), moves); Next(s, m).row.state != s.row.state <==> Overtakes(s, m)
  {
    EveryInterleavingKeeps(start, moves);
    LeftExactly(Play(Begin(start), moves), m);
  }

  function StateAt(start: Release, moves: seq<Move>, k: nat): State
    requires k <= |moves|
  {
    Play(Begin(start), moves[..k]).row.state
  }

  ghost predicate OvertakenAt(start: Release, moves: seq<Move>, k: nat) {
    k < |moves| && Overtakes(Play(Begin(start), moves[..k]), moves[k])
  }

  lemma {:induction false} MovesOn(start: Release, moves: seq<Move>, k: nat)
    requires k < |moves| && Invariant(start) && Terminal(StateAt(start, moves, k))
    ensures StateAt(start, moves, k + 1) != StateAt(start, moves, k) <==> OvertakenAt(start, moves, k)
  {
    hide Invariant, Next, Overtakes;
    assert moves[..k + 1][..k] == moves[..k];
    TerminalLeftExactly(start, moves[..k], moves[k]);
  }

  lemma {:induction false} StaysUpTo(start: Release, moves: seq<Move>, k: nat, j: nat)
    requires k <= j <= |moves| && Invariant(start) && Terminal(StateAt(start, moves, k))
    requires forall i: nat :: k <= i < j ==> !OvertakenAt(start, moves, i)
    ensures StateAt(start, moves, j) == StateAt(start, moves, k)
  {
    hide Invariant, StateAt, OvertakenAt;
    if k < j {
      StaysUpTo(start, moves, k, j - 1);
      MovesOn(start, moves, j - 1);
    }
  }

  /** Over every run: a release that has ended stays in its state exactly when no later commit overtakes the end. */
  lemma {:induction false} TerminalStaysExactly(start: Release, moves: seq<Move>, k: nat)
    requires k <= |moves| && Invariant(start) && Terminal(StateAt(start, moves, k))
    ensures (forall j: nat :: k <= j <= |moves| ==> StateAt(start, moves, j) == StateAt(start, moves, k))
      <==> (forall j: nat :: k <= j < |moves| ==> !OvertakenAt(start, moves, j))
  {
    hide Invariant, StateAt, OvertakenAt;
    if forall j: nat :: k <= j < |moves| ==> !OvertakenAt(start, moves, j) {
      forall j: nat | k <= j <= |moves| ensures StateAt(start, moves, j) == StateAt(start, moves, k) {
        StaysUpTo(start, moves, k, j);
      }
    }
    if forall j: nat :: k <= j <= |moves| ==> StateAt(start, moves, j) == StateAt(start, moves, k) {
      forall j: nat | k <= j < |moves| ensures !OvertakenAt(start, moves, j) {
        assert StateAt(start, moves, j) == StateAt(start, moves, k) == StateAt(start, moves, j + 1);
        MovesOn(start, moves, j);
      }
    }
  }

  // ---------- when an end is for good ----------

  /** Some placement can still be answered with evidence: the one there is, or a new one. */
  predicate CanBePlaced(b: Books, run: string, approval: Approval) {
    if run in b.evidence then
      b.evidence[run].approval == Some(Unused(approval)) && (run in b.status ==> b.status[run])
    else run in b.preflight ==> b.preflight[run] !in LedgerOf(b, run)
  }

  lemma {:induction false} PlacedMeans(b: Books, q: Request, x: Exchange)
    requires Consistent(b) && q.approval.Some? && PlaceOrder(b, q, x).1.Placed?
    ensures q.approval == Some(Unused(q.approval.value)) ==> CanBePlaced(b, q.runId, q.approval.value)
  {
    hide DistinctIds, Taken, Send;
  }

  lemma {:induction false} ProceedsPlaceable(b: Books, q: Request, x: Exchange, approval: Approval)
    requires Proceeds(b, q, x)
    ensures CanBePlaced(b, q.runId, approval)
  {
  }

  /** What cannot be placed any more stays so. */
  lemma {:induction false} StaysUnplaceable(b: Books, q: Request, x: Exchange, run: string, approval: Approval)
    requires Consistent(b) && !CanBePlaced(b, run, approval)
    ensures !CanBePlaced(PlaceOrder(b, q, x).0, run, approval)
  {
    hide DistinctIds, Taken, Consistent, Written, Pinned;
    if Proceeds(b, q, x) {
      if run == q.runId { ProceedsPlaceable(b, q, x, approval); }
      else { WrittenElsewhere(b, q, x.stage, run); }
    }
  }

  /** The same files for this run. */
  predicate SameFiles(b: Books, c: Books, run: string) {
    && (run in c.evidence <==> run in b.evidence) && (run in b.evidence ==> c.evidence[run] == b.evidence[run])
    && (run in c.status <==> run in b.status) && (run in b.status ==> c.status[run] == b.status[run])
    && (run in c.preflight <==> run in b.preflight) && (run in b.preflight ==> c.preflight[run] == b.preflight[run])
    && LedgerOf(c, run) == LedgerOf(b, run)
  }

  lemma {:induction false} MarksElsewhere(b: Books, q: Request, known: bool, run: string)
    requires Ready(q) && run != q.runId
    ensures SameFiles(b, MarkPreflight(b, q), run) && SameFiles(b, Send(b, q), run) &&
      SameFiles(b, MarkLedger(b, q), run)
    ensures SameFiles(b, MarkEvidence(b, q), run) && SameFiles(b, MarkStatus(b, q, known), run)
  {
    hide Taken, IdOf;
  }

  lemma {:induction false} SameFilesOnward(b: Books, c: Books, d: Books, run: string)
    requires SameFiles(b, c, run) && SameFiles(c, d, run)
    ensures SameFiles(b, d, run)
  {
  }

  lemma {:induction false} WrittenElsewhere(b: Books, q: Request, stage: Stage, run: string)
    requires Ready(q) && run != q.runId
    ensures SameFiles(b, Written(b, q, stage), run)
  {
    hide SameFiles, MarkPreflight, Send, MarkLedger, MarkEvidence, MarkStatus;
    assert SameFiles(b, b, run) by { NothingMoves(b, run); }
    var known := stage.StatusWritten? && stage.known;
    var b1 := MarkPreflight(b, q);
    var b2 := Send(b1, q);
    var b3 := MarkLedger(b2, q);
    var b4 := MarkEvidence(b3, q);
    MarksElsewhere(b, q, known, run);
    MarksElsewhere(b1, q, known, run);
    MarksElsewhere(b2, q, known, run);
    MarksElsewhere(b3, q, known, run);
    MarksElsewhere(b4, q, known, run);
    SameFilesOnward(b, b1, b2, run);
    SameFilesOnward(b, b2, b3, run);
    SameFilesOnward(b, b3, b4, run);
    SameFilesOnward(b, b4, MarkStatus(b4, q, known), run);
  }

  lemma {:induction false} NothingMoves(b: Books, run: string)
    ensures SameFiles(b, b, run)
  {
  }

  /** A call that can still take an ended release out of its state. */
  predicate Threatens(s: System, phase: Phase) {
    match phase
    case HasPlaced(update, seen) => Lands(seen, update) && update.state != s.row.state
    case HasReread(_, seen) =>
      seen.policy.Some? && (
        || (seen.state in {Approved, EvidenceCollecting, BlockedRiskPolicy} && s.row.state != BlockedRiskPolicy)
        || (seen.run.Some? && seen.approval.Some? && (
              || (seen.state in {Approved, BlockedExchangeError} && s.row.state != BlockedExchangeError)
              || (seen.state in {Approved, ReleaseReady}
                  && CanBePlaced(s.books, seen.run.value, seen.approval.value)))))
    case _ => false
  }

  ghost predicate Threatened(s: System) {
    exists c :: c in s.calls && Threatens(s, s.calls[c])
  }

  /** What holds at every moment of an interleaving. */
  ghost predicate Reached(s: System) {
    AllSound(s) && OneRun(s) && Consistent(s.books)
  }

  lemma {:induction false} NextReached(s: System, m: Move)
    requires Reached(s)
    ensures Reached(Next(s, m))
  {
    hide Next, AllSound, OneRun, Consistent;
    NextSound(s, m);
    NextOneRun(s, m);
    BooksKept(s, m);
  }

  lemma {:induction false} EveryReached(start: Release, moves: seq<Move>)
    requires Invariant(start)
    ensures Reached(Play(Begin(start), moves))
  {
    hide Play, AllSound, OneRun, Consistent;
    EveryInterleavingKeeps(start, moves);
    EveryRunOneRun(start, moves);
    BooksConsistent(start, moves);
  }

  lemma {:induction false} BooksUnplaceable(s: System, m: Move, run: string, approval: Approval)
    requires Consistent(s.books) && !CanBePlaced(s.books, run, approval)
    ensures !CanBePlaced(Next(s, m).books, run, approval)
  {
    hide Consistent, CanBePlaced, PlaceOrder, Step, Transition, ExecutionBlock;
    if m.Elsewhere? { StaysUnplaceable(s.books, m.request.(release := false), m.exchange, run, approval); }
    if m.Place? && PhaseOf(s, m.call).HasReread? {
      var r := PhaseOf(s, m.call).seen;
      if r.run.Some? && r.run.value in m.runs && r.approval.Some? {
        StaysUnplaceable(s.books, RequestOf(r, m.runs, m.intent, m.verified), m.exchange, run, approval);
      }
    }
  }

  /** A phase that is no threat now is none after a step that keeps the state. */
  lemma {:induction false} StaysHarmless(s: System, m: Move, phase: Phase)
    requires Consistent(s.books) && !Threatens(s, phase) && Next(s, m).row.state == s.row.state
    ensures !Threatens(Next(s, m), phase)
  {
    hide Next, Consistent, CanBePlaced, Lands;
    if phase.HasReread? && phase.seen.run.Some? && phase.seen.approval.Some? {
      var run, approval := phase.seen.run.value, phase.seen.approval.value;
      if !CanBePlaced(s.books, run, approval) { BooksUnplaceable(s, m, run, approval); }
    }
  }

  /** Placing for a record that is no threat leaves none to commit. */
  lemma {:induction false} PlacesHarmless(s: System, m: Move)
    requires Reached(s) && m.Place? && PhaseOf(s, m.call).HasReread? && !Threatens(s, PhaseOf(s, m.call))
    requires Terminal(s.row.state)
    ensures !Threatens(Next(s, m), PhaseOf(Next(s, m), m.call))
  {
    hide Sound, OneRun, Consistent, PlaceOrder, CanBePlaced, Executed, Past;
    var seen := PhaseOf(s, m.call).seen;
    SoundStates(seen);
    if seen.policy.Some? && !m.breach && seen.run.Some? && seen.run.value in m.runs && seen.approval.Some? {
      var q := RequestOf(seen, m.runs, m.intent, m.verified);
      if PlaceOrder(s.books, q, m.exchange).1.Placed? {
        PlacedMeans(s.books, q, m.exchange);
        SameUnused(s.books, seen.run.value, seen.approval.value);
        ExecutedState(seen, EvidenceValue(PlaceOrder(s.books, q, m.exchange).1.evidence));
      }
    }
  }

  lemma {:induction false} SameUnused(b: Books, run: string, approval: Approval)
    ensures CanBePlaced(b, run, Unused(approval)) <==> CanBePlaced(b, run, approval)
  {
  }

  lemma {:induction false} ExecutedState(r: Release, evidence: Value)
    ensures Executed(r, evidence).state == ReleaseReady
  {
  }

  /** The moves of a call leave the other calls alone. */
  lemma {:induction false} OthersStay(s: System, m: Move, call: nat)
    requires call in Next(s, m).calls && (m.Endpoint? || m.Elsewhere? || m.call != call)
    ensures call in s.calls && Next(s, m).calls[call] == s.calls[call]
  {
    hide Step, PlaceOrder, ExecutionBlock, Transition;
  }

  lemma {:induction false} NextHarmless(s: System, m: Move)
    requires Reached(s) && Terminal(s.row.state) && !Threatened(s)
    ensures Next(s, m).row.state == s.row.state && !Threatened(Next(s, m))
  {
    hide Next, AllSound, OneRun, Consistent, Threatens;
    assert !Overtakes(s, m) by { NoneOvertakes(s, m); }
    LeftExactly(s, m);
    var t := Next(s, m);
    forall c | c in t.calls ensures !Threatens(t, t.calls[c]) {
      if m.Endpoint? || m.Elsewhere? || m.call != c {
        OthersStay(s, m, c);
        StaysHarmless(s, m, t.calls[c]);
      } else if m.Place? && PhaseOf(s, c).HasReread? {
        assert PhaseOf(s, c) == s.calls[c] && PhaseOf(t, c) == t.calls[c];
        PlacesHarmless(s, m);
      } else {
        OwnMoveHarmless(s, m);
        if c in s.calls { StaysHarmless(s, m, s.calls[c]); }
      }
    }
  }

  lemma {:induction false} NoneOvertakes(s: System, m: Move)
    requires !Threatened(s)
    ensures !Overtakes(s, m)
  {
    hide Lands;
    if m.Commit? && m.call in s.calls { assert !Threatens(s, s.calls[m.call]); }
  }

  /** Every other move of a call keeps its phase, or enters one that is no threat. */
  lemma {:induction false} OwnMoveHarmless(s: System, m: Move)
    requires Terminal(s.row.state) && (m.Read? || m.Consume? || m.Reread? || m.Commit? || m.Place?)
    requires m.Place? ==> !PhaseOf(s, m.call).HasReread?
    requires m.call in Next(s, m).calls && Next(s, m).row.state == s.row.state
    ensures var t := Next(s, m);
      (m.call in s.calls && t.calls[m.call] == s.calls[m.call]) || !Threatens(t, t.calls[m.call])
  {
    hide Transition, ExecutionBlock, CanBePlaced, PlaceOrder;
  }

  lemma {:induction false} HarmlessForGood(s: System, later: seq<Move>)
    requires Reached(s) && Terminal(s.row.state) && !Threatened(s)
    ensures Reached(Play(s, later)) && Play(s, later).row.state == s.row.state && !Threatened(Play(s, later))
  {
    hide Next, Reached, Threatened;
    if later != [] {
      var front := later[..|later| - 1];
      HarmlessForGood(s, front);
      NextReached(Play(s, front), later[|later| - 1]);
      NextHarmless(Play(s, front), later[|later| - 1]);
    }
  }

  /** The order to ask for so that the answer is evidence. */
  function Agreeable(b: Books, run: string): OrderId {
    if run in b.evidence then b.evidence[run].id
    else if run in b.preflight then b.preflight[run] else OrderId("", Null)
  }

  lemma {:induction false} PlaceableAnswers(b: Books, run: string, approval: Approval, release: bool)
    requires Consistent(b) && CanBePlaced(b, run, approval)
    ensures var id := Agreeable(b, run);
      var q := Request(run, Run(RunPass, None, Some(id.receipt), None), id.intent, Some(Unused(approval)), true,
                       release);
      PlaceOrder(b, q, Exchange(StatusWritten(true), false)).1.Placed?
  {
    hide DistinctIds, Taken, Send;
  }

  /** The moves by which a threat leaves the state the release is in. */
  function Leaving(s: System, call: nat): seq<Move> {
    match PhaseOf(s, call)
    case HasReread(_, seen) => [LeavingPlace(s, call, seen), Commit(call)]
    case _ => [Commit(call)]
  }

  function LeavingPlace(s: System, call: nat, seen: Release): Move {
    var run := if seen.run.Some? then seen.run.value else "";
    var id := Agreeable(s.books, run);
    var breach := s.row.state != BlockedRiskPolicy && seen.state in {Approved, EvidenceCollecting, BlockedRiskPolicy};
    var fails := s.row.state != BlockedExchangeError && seen.state in {Approved, BlockedExchangeError};
    var runs: Runs := map[run := Run(RunPass, None, Some(id.receipt), None)];
    Place(call, breach, id.intent, !fails, Exchange(StatusWritten(true), false), true, runs)
  }

  lemma {:induction false} ThreatPlaces(s: System, call: nat, seen: Release)
    requires Reached(s) && Terminal(s.row.state) && PhaseOf(s, call).HasReread? && PhaseOf(s, call).seen == seen
    requires Threatens(s, PhaseOf(s, call))
    ensures var t := Next(s, LeavingPlace(s, call, seen));
      && t.row == s.row && PhaseOf(t, call).HasPlaced? && PhaseOf(t, call).seen == seen
      && Threatens(t, PhaseOf(t, call))
  {
    hide AllSound, OneRun, Consistent, PlaceOrder, Executed, CanBePlaced, Agreeable;
    var m := LeavingPlace(s, call, seen);
    if !m.breach {
      var q := RequestOf(seen, m.runs, m.intent, m.verified);
      if m.verified {
        PlaceableAnswers(s.books, seen.run.value, seen.approval.value, true);
        ExecutedState(seen, EvidenceValue(PlaceOrder(s.books, q, m.exchange).1.evidence));
      } else {
        Unverified(s.books, q, m.exchange);
      }
    }
  }

  lemma {:induction false} Unverified(b: Books, q: Request, x: Exchange)
    requires !q.verified
    ensures PlaceOrder(b, q, x) == (b, Stopped)
  {
  }

  lemma {:induction false} ThreatCommits(s: System, call: nat)
    requires AllSound(s) && Terminal(s.row.state) && PhaseOf(s, call).HasPlaced? && Threatens(s, PhaseOf(s, call))
    ensures Next(s, Commit(call)).row.state != s.row.state
  {
    hide Next, AllSound;
    LeftExactly(s, Commit(call));
  }

  lemma {:induction false} ThreatLeaves(s: System, call: nat)
    requires Reached(s) && Terminal(s.row.state) && call in s.calls && Threatens(s, s.calls[call])
    ensures Play(s, Leaving(s, call)).row.state != s.row.state
  {
    hide Next, Reached, LeavingPlace, CanBePlaced, Lands;
    assert PhaseOf(s, call) == s.calls[call];
    var moves := Leaving(s, call);
    assert AllSound(s) by { ReachedSound(s); }
    if s.calls[call].HasReread? {
      var t := Next(s, moves[0]);
      ThreatPlaces(s, call, s.calls[call].seen);
      NextReached(s, moves[0]);
      ReachedSound(t);
      ThreatCommits(t, call);
      PlayCons(s, moves[0], moves[1..]);
      PlayCons(t, moves[1], []);
      assert [moves[0]] + moves[1..] == moves && [moves[1]] + [] == moves[1..];
    } else {
      ThreatCommits(s, call);
      PlayCons(s, moves[0], []);
      assert [moves[0]] + [] == moves;
    }
  }

  lemma {:induction false} ReachedSound(s: System)
    requires Reached(s)
    ensures AllSound(s)
  {
  }

  /** Over every interleaving: exactly when an end is for good, whatever moves come later - when no call holds a
      record from which it can still write another state. */
  lemma {:induction false} ForGoodExactly(start: Release, moves: seq<Move>)
    requires Invariant(start) && Terminal(Play(Begin(start), moves).row.state)
    ensures var s := Play(Begin(start), moves);
      !Threatened(s) <==> forall later: seq<Move> :: Play(s, later).row.state == s.row.state
  {
    hide Invariant, Play, Reached, Threatens;
    var s := Play(Begin(start), moves);
    EveryReached(start, moves);
    if Threatened(s) {
      var c :| c in s.calls && Threatens(s, s.calls[c]);
      ThreatLeaves(s, c);
    } else {
      forall later: seq<Move> ensures Play(s, later).row.state == s.row.state { HarmlessForGood(s, later); }
    }
  }

  /** In particular when every call that has read the release back has found it in the state it is in now. */
  lemma {:induction false} SettledIsForGood(s: System)
    requires Terminal(s.row.state)
    requires forall c :: c in s.calls && s.calls[c].HasReread? ==> s.calls[c].seen.state == s.row.state
    requires forall c :: c in s.calls && s.calls[c].HasPlaced? ==> s.calls[c].seen.state == s.row.state
    ensures !Threatened(s)
  {
    hide CanBePlaced;
  }

  /** The commit compares the row's state and approval with the record the call has read back. */
  predicate Compares(s: System, m: Move) {
    ComparesApproval(s, m) && (m.Commit? && PhaseOf(s, m.call).HasPlaced? ==>
                               PhaseOf(s, m.call).seen.state == s.row.state)
  }

  lemma {:induction false} ComparedStays(s: System, m: Move)
    requires AllSound(s) && Terminal(s.row.state) && Compares(s, m)
    ensures Next(s, m).row.state == s.row.state
  {
    hide Next, AllSound;
    LeftExactly(s, m);
  }

  /** What the store could compare: then no end is undone and no approval is used twice. */
  lemma {:induction false} ComparingCommits(start: Release, moves: seq<Move>, k: nat)
    requires Fresh(start, moves) && Invariant(start) && k <= |moves| && Terminal(StateAt(start, moves, k))
    requires forall j: nat :: j < |moves| ==> Compares(Play(Begin(start), moves[..j]), moves[j])
    ensures StateAt(start, moves, |moves|) == StateAt(start, moves, k)
    ensures Distinct(Play(Begin(start), moves).consumed)
  {
    hide Invariant, Next, AllSound, Fresh;
    assert moves[..|moves|] == moves;
    assert forall j: nat :: j < |moves| ==> ComparesApproval(Play(Begin(start), moves[..j]), moves[j]);
    ComparingApprovals(start, moves, |moves|);
    ComparedUpTo(start, moves, k, |moves|);
  }

  lemma {:induction false} ComparedUpTo(start: Release, moves: seq<Move>, k: nat, j: nat)
    requires Invariant(start) && k <= j <= |moves| && Terminal(StateAt(start, moves, k))
    requires forall i: nat :: i < |moves| ==> Compares(Play(Begin(start), moves[..i]), moves[i])
    ensures StateAt(start, moves, j) == StateAt(start, moves, k)
  {
    hide Invariant, Next, AllSound, Compares;
    if k < j {
      ComparedUpTo(start, moves, k, j - 1);
      var front := moves[..j - 1];
      EveryInterleavingKeeps(start, front);
      ComparedStays(Play(Begin(start), front), moves[j - 1]);
      assert moves[..j][..j - 1] == front;
    }
  }

  // ---------- when an order goes out ----------

  /** Exactly what sends an order for the release: neither its state now nor the one read back plays a part. */
  predicate GoesOut(s: System, m: Move)
    requires m.Place?
  {
    && PhaseOf(s, m.call).HasReread? && !m.breach
    && var r := PhaseOf(s, m.call).seen;
       && r.policy.Some? && r.run.Some? && r.run.value in m.runs && r.approval.Some?
       && Sends(s.books, RequestOf(r, m.runs, m.intent, m.verified), m.exchange)
  }

  lemma {:induction false} PlaceSends(s: System, m: Move)
    requires m.Place?
    ensures Next(s, m).books.sent != s.books.sent <==> GoesOut(s, m)
    ensures GoesOut(s, m) ==>
      var q := RequestOf(PhaseOf(s, m.call).seen, m.runs, m.intent, m.verified);
      Next(s, m).books.sent == s.books.sent + [Sent(q.runId, IdOf(q), true)]
  {
    hide PlaceOrder, Sends, IdOf, Executed;
    var phase := PhaseOf(s, m.call);
    if phase.HasReread? {
      var r := phase.seen;
      if r.policy.Some? && !m.breach && r.run.Some? && r.run.value in m.runs && r.approval.Some? {
        SendsExactly(s.books, RequestOf(r, m.runs, m.intent, m.verified), m.exchange);
      }
    }
  }

  /** Over every interleaving: exactly when an order goes out.  New evidence drops the approval and stops it; an end
      that comes after the call's first look does not. */
  lemma {:induction false} OrderGoesOutExactly(start: Release, moves: seq<Move>, m: Move)
    requires Invariant(start) && m.Place?
    ensures var s := Play(Begin(start), moves);
      && (Next(s, m).books.sent != s.books.sent <==> GoesOut(s, m))
      && (GoesOut(s, m) ==> PhaseOf(s, m.call).seen.state !in {EvidenceCollecting, ReviewRequired})
  {
    hide Next, Sound, Sends;
    var s := Play(Begin(start), moves);
    PlaceSends(s, m);
    EveryInterleavingKeeps(start, moves);
    if PhaseOf(s, m.call).HasReread? { SoundStates(PhaseOf(s, m.call).seen); }
  }

  /** Move `i` is the call's first look: the release is approved, for this run, and the approval is unused. */
  ghost predicate LookedAt(start: Release, moves: seq<Move>, i: nat, call: nat, nonce: string, run: Option<string>) {
    && i < |moves| && moves[i].Read? && moves[i].call == call && !moves[i].freeze && !moves[i].expired
    && var r := Play(Begin(start), moves[..i]).row;
       r.state == Approved && Live(r, nonce) && r.run == run
  }

  /** Move `j` uses the approval up. */
  ghost predicate UsedAt(start: Release, moves: seq<Move>, j: nat, call: nat, nonce: string) {
    j < |moves| && moves[j] == Consume(call) && Live(Play(Begin(start), moves[..j]).row, nonce)
  }

  ghost predicate UsedAfterLook(start: Release, moves: seq<Move>, call: nat, nonce: string, run: Option<string>) {
    exists i: nat, j: nat ::
      i < j && LookedAt(start, moves, i, call, nonce, run) && UsedAt(start, moves, j, call, nonce)
  }

  ghost predicate Backed(start: Release, moves: seq<Move>, call: nat, phase: Phase, run: Option<string>) {
    match phase
    case HasRead(n) => exists i: nat :: LookedAt(start, moves, i, call, n, run)
    case HasConsumed(n) => UsedAfterLook(start, moves, call, n, run)
    case HasReread(n, _) => UsedAfterLook(start, moves, call, n, run)
    case _ => true
  }

  ghost predicate AllBacked(start: Release, moves: seq<Move>) {
    var s := Play(Begin(start), moves);
    forall c :: c in s.calls ==> Backed(start, moves, c, s.calls[c], s.row.run)
  }

  lemma {:induction false} BackedLater(start: Release, front: seq<Move>, m: Move, call: nat, phase: Phase,
                                       run: Option<string>)
    requires Backed(start, front, call, phase, run)
    ensures Backed(start, front + [m], call, phase, run)
  {
    hide Play;
    var all := front + [m];
    assert forall k: nat :: k < |front| ==> all[..k] == front[..k] && all[k] == front[k];
    assert forall i: nat, n: string {:trigger LookedAt(start, front, i, call, n, run)} ::
      LookedAt(start, front, i, call, n, run) ==> LookedAt(start, all, i, call, n, run);
    assert forall j: nat, n: string {:trigger UsedAt(start, front, j, call, n)} ::
      UsedAt(start, front, j, call, n) ==> UsedAt(start, all, j, call, n);
  }

  /** A call's move: its phase after it. */
  lemma {:induction false} BackedNow(start: Release, front: seq<Move>, m: Move, call: nat)
    requires var s := Play(Begin(start), front);
      call in s.calls ==> Backed(start, front, call, s.calls[call], s.row.run)
    requires m.Read? || m.Consume? || m.Reread?
    requires m.call == call
    ensures var s := Play(Begin(start), front);
      call in Next(s, m).calls ==> Backed(start, front + [m], call, Next(s, m).calls[call], s.row.run)
  {
    hide Play, Fingerprint;
    var s, all, k := Play(Begin(start), front), front + [m], |front|;
    assert all[..k] == front && all[k] == m;
    if call in s.calls { BackedLater(start, front, m, call, s.calls[call], s.row.run); }
    if m.Read? && Next(s, m).calls[call].HasRead? && PhaseOf(s, call).Idle? {
      assert LookedAt(start, all, k, call, Next(s, m).calls[call].nonce, s.row.run);
    } else if m.Consume? && PhaseOf(s, call).HasRead? {
      var n := PhaseOf(s, call).nonce;
      if Live(s.row, n) {
        var i: nat :| LookedAt(start, front, i, call, n, s.row.run);
        assert LookedAt(start, all, i, call, n, s.row.run) by { assert all[..i] == front[..i] && all[i] == front[i]; }
        assert UsedAt(start, all, k, call, n);
      }
    }
  }

  lemma {:induction false} RunKept(s: System, m: Move)
    requires OneRun(s) && Past(s.row.state)
    ensures Next(s, m).row.run == s.row.run
  {
    hide Step, PlaceOrder, ExecutionBlock, Transition, Past;
    if m.Endpoint? && !m.event.ExecuteDemo? { PastStays(s.row, m.event); }
    if m.Commit? && PhaseOf(s, m.call).HasPlaced? {
      var phase := PhaseOf(s, m.call);
      if Transition(phase.seen, phase.update).Some? { TransitionShape(phase.seen, phase.update); }
    }
  }

  lemma {:induction false} BackedStep(start: Release, front: seq<Move>, m: Move)
    requires AllBacked(start, front) && OneRun(Play(Begin(start), front))
    ensures AllBacked(start, front + [m])
  {
    hide Play, Backed, Next, OneRun, Past;
    var s := Play(Begin(start), front);
    var t := Next(s, m);
    PlaySnoc(start, front, m);
    forall c | c in t.calls ensures Backed(start, front + [m], c, t.calls[c], t.row.run) {
      if t.calls[c].Finished? || t.calls[c].HasPlaced? {
        assert Backed(start, front + [m], c, t.calls[c], t.row.run) by {
          FinishedBacked(start, front + [m], c, t.calls[c], t.row.run);
        }
      } else {
        RunAsBefore(s, m, c);
        if m.Endpoint? || m.Elsewhere? || m.call != c {
          OthersStay(s, m, c);
          BackedLater(start, front, m, c, s.calls[c], s.row.run);
        } else if m.Read? || m.Consume? || m.Reread? {
          BackedNow(start, front, m, c);
        } else {
          EndsOrStays(s, m);
          BackedLater(start, front, m, c, s.calls[c], s.row.run);
        }
      }
    }
  }

  lemma {:induction false} PlaySnoc(start: Release, front: seq<Move>, m: Move)
    ensures Play(Begin(start), front + [m]) == Next(Play(Begin(start), front), m)
  {
    assert (front + [m])[..|front|] == front;
  }

  lemma {:induction false} FinishedBacked(start: Release, moves: seq<Move>, call: nat, phase: Phase,
                                          run: Option<string>)
    requires phase.Finished? || phase.HasPlaced?
    ensures Backed(start, moves, call, phase, run)
  {
  }

  lemma {:induction false} EndsOrStays(s: System, m: Move)
    requires (m.Place? || m.Commit?) && m.call in Next(s, m).calls
    ensures var t := Next(s, m);
      t.calls[m.call].Finished? || t.calls[m.call].HasPlaced? ||
        (m.call in s.calls && t.calls[m.call] == s.calls[m.call])
  {
    hide PlaceOrder, Transition;
  }

  /** A call that is under way has seen the release past binding. */
  lemma {:induction false} RunAsBefore(s: System, m: Move, call: nat)
    requires OneRun(s) && call in Next(s, m).calls && !Next(s, m).calls[call].Finished?
    ensures Next(s, m).row.run == s.row.run
  {
    hide Step, PlaceOrder, ExecutionBlock, Transition;
    if Past(s.row.state) { RunKept(s, m); }
  }

  lemma {:induction false} EveryCallBacked(start: Release, moves: seq<Move>)
    ensures AllBacked(start, moves)
  {
    hide Next, Backed, OneRun;
    if moves != [] {
      var front := moves[..|moves| - 1];
      EveryCallBacked(start, front);
      EveryRunOneRun(start, front);
      BackedStep(start, front, moves[|moves| - 1]);
      assert moves == front + [moves[|moves| - 1]];
    }
  }

  /** Over every interleaving: an order goes out only for a run whose release was approved when the call first
      looked, on an approval that was unused until the call used it - whatever has become of the release since. */
  lemma {:induction false} OrderWasApproved(start: Release, moves: seq<Move>, m: Move)
    requires m.Place? && GoesOut(Play(Begin(start), moves), m)
    ensures var s := Play(Begin(start), moves);
      && var run, nonce := PhaseOf(s, m.call).seen.run, PhaseOf(s, m.call).nonce;
      && s.books.sent < Next(s, m).books.sent && Next(s, m).books.sent[|s.books.sent|].run == run.value
      && UsedAfterLook(start, moves, m.call, nonce, run)
  {
    hide Next, Play, Sends;
    var s := Play(Begin(start), moves);
    PlaceSends(s, m);
    EveryCallBacked(start, moves);
    EveryRunOneRun(start, moves);
    assert Carries(PhaseOf(s, m.call).seen, s.row.run);
    assert Backed(start, moves, m.call, s.calls[m.call], s.row.run);
  }

  // ---------- a kill in between ----------

  /** An approved release that execute-demo can place an order for. */
  ghost predicate Executable(r: Release, nonce: string, runs: Runs) {
    Invariant(r) && r.state == Approved && Live(r, nonce) && nonce != "" && Passed(runs, r.run)
  }

  function Looks(): seq<Move> {
    [Read(0, false, false), Consume(0)]
  }

  function AfterLooks(r: Release, nonce: string): System
    requires r.approval.Some?
  {
    System(Used(r), map[0 := HasConsumed(nonce)], [nonce], NO_BOOKS)
  }

  lemma {:induction false} LooksFirst(r: Release, nonce: string, runs: Runs)
    requires Executable(r, nonce, runs)
    ensures Play(Begin(r), Looks()) == AfterLooks(r, nonce)
    ensures Invariant(Used(r)) && r.policy.Some?
  {
    hide Invariant, Next;
    var s1 := Enter(Begin(r), 0, HasRead(nonce));
    assert Next(Begin(r), Read(0, false, false)) == s1 by { ReadEnters(Begin(r), 0, nonce); }
    assert Next(s1, Consume(0)) == AfterLooks(r, nonce) by {
      ConsumePasses(s1, 0, nonce);
      assert [] + [nonce] == [nonce];
    }
    ConsumeSpends(r);
    ApprovedHasPolicy(r);
    var m := Looks();
    PlayCons(Begin(r), m[0], m[1..]);
    PlayCons(s1, m[1], []);
    assert [m[0]] + m[1..] == m && [m[1]] + [] == m[1..];
  }

  lemma {:induction false} ApprovedHasPolicy(r: Release)
    requires Invariant(r) && r.state == Approved
    ensures r.policy.Some?
  {
    hide Fingerprint, PolicyDigest;
    MissingForExactly(r, Approved);
  }

  function KilledRow(r: Release, at: string): Release {
    WithTier(r.(state := Killed, killedAt := Some(at)))
  }

  lemma {:induction false} Kills(s: System, at: string)
    requires s.row.state == Approved
    ensures Next(s, Endpoint(Kill(at))) == s.(row := KilledRow(s.row, at))
  {
    hide TierOf;
    NothingAsked(s.row.(state := Killed, killedAt := Some(at)));
  }

  /** Once the call has looked and used the approval up, a kill does not keep the order from going out - though it
      is the last word on the release. */
  function KilledBefore(at: string, intent: Value, runs: Runs): seq<Move> {
    [Endpoint(Kill(at)), Reread(0), Placing(0, intent, runs)]
  }

  lemma {:induction false} OrderAfterKill(r: Release, nonce: string, at: string, intent: Value, runs: Runs)
    requires Executable(r, nonce, runs)
    ensures var s := Play(Begin(r), Looks() + KilledBefore(at, intent, runs));
      && s.row.state == Killed && s.books.sent == [Sent(r.run.value, IdFor(r, intent, runs), true)]
      && Next(s, Commit(0)).row == s.row
  {
    hide Invariant, Next, Executed, Proof;
    var s2, killed, m := AfterLooks(r, nonce), KilledRow(Used(r), at), KilledBefore(at, intent, runs);
    LooksFirst(r, nonce, runs);
    var s3 := s2.(row := killed);
    var s4 := Enter(s3, 0, HasReread(nonce, killed));
    assert Next(s2, m[0]) == s3 by { Kills(s2, at); }
    assert Next(s3, m[1]) == s4 by { Rereads(s3, 0, nonce); }
    Places(s4, 0, r, intent, runs);
    PlayCons(s2, m[0], m[1..]);
    PlayCons(s3, m[1], m[2..]);
    PlayCons(s4, m[2], []);
    assert [m[0]] + m[1..] == m && [m[1]] + m[2..] == m[1..] && [m[2]] + [] == m[2..];
    PlayAppend(Begin(r), Looks(), m);
    KilledRefuses(Next(s4, m[2]), EvidenceValue(Proof(r, intent, runs)), killed);
  }

  lemma {:induction false} KilledRefuses(s: System, evidence: Value, killed: Release)
    requires PhaseOf(s, 0) == HasPlaced(Executed(killed, evidence), killed) && killed.state == Killed
    ensures Next(s, Commit(0)).row == s.row
  {
  }

  /** A kill after the second read is undone by the commit: the killed release is ready. */
  function KilledAfter(at: string, intent: Value, runs: Runs): seq<Move> {
    [Reread(0), Placing(0, intent, runs), Endpoint(Kill(at))]
  }

  lemma {:induction false} KillUndone(r: Release, nonce: string, at: string, intent: Value, runs: Runs)
    requires Executable(r, nonce, runs)
    ensures var s := Play(Begin(r), Looks() + KilledAfter(at, intent, runs));
      s.row.state == Killed && Next(s, Commit(0)).row.state == ReleaseReady
  {
    hide Invariant, Next, Proof, TierOf, OneOrder;
    var s2, used, m := AfterLooks(r, nonce), Used(r), KilledAfter(at, intent, runs);
    LooksFirst(r, nonce, runs);
    var s3 := Enter(s2, 0, HasReread(nonce, used));
    assert Next(s2, m[0]) == s3 by { Rereads(s2, 0, nonce); }
    Places(s3, 0, r, intent, runs);
    var s4 := Next(s3, m[1]);
    assert Next(s4, m[2]) == s4.(row := KilledRow(used, at)) by { Kills(s4, at); }
    PlayCons(s2, m[0], m[1..]);
    PlayCons(s3, m[1], m[2..]);
    PlayCons(s4, m[2], []);
    assert [m[0]] + m[1..] == m && [m[1]] + m[2..] == m[1..] && [m[2]] + [] == m[2..];
    PlayAppend(Begin(r), Looks(), m);
    CommitsReady(Next(s4, m[2]), 0, used, EvidenceValue(Proof(r, intent, runs)));
  }
}
