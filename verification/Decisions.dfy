/** What `decide` answers, status by status, in the fields of proofs, coverage and context - without the order in which
    `proof_kernel.py` overwrites its variables. */
module Decisions {
  import opened Wrappers
  import opened Models
  import opened Digests
  import opened Ordering
  import opened Canonical
  import opened Probes
  import opened ProofKernel
  import Encodings

  /** A verdict-bearing proof of every one of these kinds. */
  ghost predicate Supplied(proofs: seq<Proof>, kinds: set<ProofKind>) {
    forall kind :: kind in kinds ==> exists p :: p in proofs && p.kind == kind && p.verdictBearing
  }

  const WITHHELD_KINDS: set<ProofKind> :=
    {PackageCanonical, SpecCompile, ReplayRun, ReplayWellformed, ProofKind.Coverage, Probe}

  const PASS_KINDS: set<ProofKind> := WITHHELD_KINDS + {BaselineCalibration, CandidateAbsolute}

  /** A verdict-bearing probe proof with an assertion that does not hold. */
  ghost predicate ShowsBreach(p: Proof) {
    p.kind == Probe && p.verdictBearing && exists a :: a in p.assertions && !a.holds
  }

  /** The proof asks for the size to be cut to this share. */
  ghost predicate AsksFor(p: Proof, cap: real) {
    && p.meta.breachAction == Some("reduce_size") && p.meta.sizeCap.Some?
    && DecimalOf(p.meta.sizeCap.value) == Some(cap) && 0.0 < cap <= 1.0
  }

  ghost predicate AnyBreach(proofs: seq<Proof>) {
    exists p :: p in proofs && ShowsBreach(p)
  }

  ghost predicate AllAsk(proofs: seq<Proof>) {
    forall p :: p in proofs && ShowsBreach(p) ==> exists cap :: AsksFor(p, cap)
  }

  /** A verdict-bearing probe proof that names the cell and asserts something on its scenario. */
  ghost predicate Vouches(p: Proof, cell: Cell) {
    && p.kind == Probe && p.verdictBearing && p.meta.scenarioId == Some(cell.0) && p.meta.probeId == Some(cell.1)
    && exists a :: a in p.assertions && a.scenarioId == cell.0
  }

  /** Complete, not empty, without repetition, and vouched for cell by cell. */
  ghost predicate CoverageStands(proofs: seq<Proof>, coverage: Manifest) {
    && coverage.complete && coverage.cells != []
    && (forall i, j :: 0 <= i < j < |coverage.cells| ==> coverage.cells[i] != coverage.cells[j])
    && forall c :: c in coverage.cells ==> exists p :: p in proofs && Vouches(p, c)
  }

  /** Some text holds the word "errored". */
  ghost predicate SaysErrored(texts: seq<string>) {
    exists m, before: string, after: string :: m in texts && m == before + "errored" + after
  }

  // ---------- the same things, as the model of decide has them ----------

  lemma {:induction false} SuppliedIsPresent(proofs: seq<Proof>, kinds: seq<ProofKind>, wanted: set<ProofKind>)
    requires forall kind :: kind in wanted <==> kind in kinds && kind != Decision
    ensures KindsPresent(proofs, kinds) <==> Supplied(proofs, wanted)
  {
    hide IdsOf;
    forall kind ensures IdsOf(proofs, kind) != multiset{} <==>
      exists p :: p in proofs && p.kind == kind && p.verdictBearing
    {
      IdsOfMembers(proofs, kind);
      if IdsOf(proofs, kind) != multiset{} {
        var id :| id in IdsOf(proofs, kind);
      }
      if p :| p in proofs && p.kind == kind && p.verdictBearing { assert p.id in IdsOf(proofs, kind); }
    }
  }

  lemma {:induction false} BreachIsBreaching(p: Proof)
    ensures ShowsBreach(p) <==> Breaching(p)
  {
  }

  lemma {:induction false} AsksIsCap(p: Proof)
    ensures forall cap :: AsksFor(p, cap) <==> CapOf(p) == Some(cap)
  {
    hide DecimalOf;
  }

  lemma {:induction false} AnyIsBlock(proofs: seq<Proof>)
    ensures AnyBreach(proofs) <==> HasBlockBreach(proofs)
    ensures AllAsk(proofs) <==> EveryBreachReduces(proofs)
  {
    hide Breaching, ShowsBreach, CapOf, AsksFor;
    forall p ensures ShowsBreach(p) <==> Breaching(p) { BreachIsBreaching(p); }
    forall p ensures (exists cap :: AsksFor(p, cap)) <==> CapOf(p).Some? {
      AsksIsCap(p);
      if CapOf(p).Some? { assert AsksFor(p, CapOf(p).value); }
    }
  }

  lemma {:induction false} StandsIsCovered(proofs: seq<Proof>, coverage: Manifest)
    ensures CoverageStands(proofs, coverage) <==> FullyCovered(proofs, coverage)
  {
    forall p, c ensures Vouches(p, c) <==> Covers(p, c) {}
  }

  lemma {:induction false} SaysIsMentions(texts: seq<string>)
    ensures SaysErrored(texts) <==> exists m :: m in texts && MentionsErrored(m)
  {
    if m, before: string, after: string :| m in texts && m == before + "errored" + after {
      assert ErroredAt(m, |before|);
    }
    if m :| m in texts && MentionsErrored(m) {
      var i :| 0 <= i < |m| && ErroredAt(m, i);
      assert m == m[..i] + "errored" + m[i + 7..];
    }
  }

  lemma {:induction false} KindsAre()
    ensures forall kind :: kind in PASS_KINDS <==> kind in RequiredKinds(Pass) && kind != Decision
    ensures forall kind :: kind in WITHHELD_KINDS <==> kind in RequiredKinds(Withheld) && kind != Decision
    ensures forall kind :: kind in WITHHELD_KINDS <==> kind in RequiredKinds(ReduceSize) && kind != Decision
  {
    forall kind
      ensures kind in PASS_KINDS <==> kind in RequiredKinds(Pass) && kind != Decision
      ensures kind in WITHHELD_KINDS <==> kind in RequiredKinds(Withheld) && kind != Decision
      ensures RequiredKinds(ReduceSize) == RequiredKinds(Withheld)
    {
      KindIs(kind);
    }
  }

  lemma {:induction false} KindIs(kind: ProofKind)
    ensures kind in PASS_KINDS <==> kind in RequiredKinds(Pass) && kind != Decision
    ensures kind in WITHHELD_KINDS <==> kind in RequiredKinds(Withheld) && kind != Decision
    ensures RequiredKinds(ReduceSize) == RequiredKinds(Withheld)
  {
  }

  // ---------- the decision ----------

  /** The kinds of proof a status rests on; the decision itself comes on top. */
  ghost function Rests(status: Status): set<ProofKind> {
    if status == Pass then PASS_KINDS else if status in {Withheld, ReduceSize} then WITHHELD_KINDS else {}
  }

  /** Which status, exactly when. */
  lemma {:induction false} StatusExactly(proofs: seq<Proof>, coverage: Manifest, context: Context)
    ensures var status, sound := Decide(proofs, coverage, context).status,
      context.rejectReason.None? && CoverageStands(proofs, coverage);
      && (status == Reject <==> context.rejectReason.Some?)
      && (status == Pass <==> sound && !AnyBreach(proofs) && Supplied(proofs, PASS_KINDS))
      && (status == ReduceSize <==> sound && AnyBreach(proofs) && AllAsk(proofs) && Supplied(proofs, WITHHELD_KINDS))
      && (status == Withheld <==> sound && AnyBreach(proofs) && !AllAsk(proofs) && Supplied(proofs, WITHHELD_KINDS))
  {
    hide Supplied, AnyBreach, AllAsk, CoverageStands, KindsPresent, RequiredKinds, HasBlockBreach, EveryBreachReduces;
    hide Decide, FullyCovered;
    KindsAre();
    SuppliedIsPresent(proofs, RequiredKinds(Pass), PASS_KINDS);
    SuppliedIsPresent(proofs, RequiredKinds(Withheld), WITHHELD_KINDS);
    SuppliedIsPresent(proofs, RequiredKinds(ReduceSize), WITHHELD_KINDS);
    AnyIsBlock(proofs);
    StandsIsCovered(proofs, coverage);
    PassExactly(proofs, coverage, context);
    WithheldExactly(proofs, coverage, context);
    ReduceSizeExactly(proofs, coverage, context);
    RejectExactly(proofs, coverage, context);
  }

  lemma {:induction false} RejectExactly(proofs: seq<Proof>, coverage: Manifest, context: Context)
    ensures Decide(proofs, coverage, context).status == Reject <==> context.rejectReason.Some?
  {
    hide Checked, RequiredIds, KindsPresent, ScenarioCount, DecisionId;
  }

  /** Tier and reason of every status. */
  lemma {:induction false} TierAndReason(proofs: seq<Proof>, coverage: Manifest, context: Context)
    ensures var e := Decide(proofs, coverage, context);
      && e.chainStatus == context.chainStatus && e.satisfied == e.required
      && (e.status == Pass ==>
            e.tier == Allow && e.reason == if context.chainStatus == GenesisChain then BaselineGenesis else ReasonPass)
      && (e.status == Withheld ==> e.tier == Block && e.reason == NewBlockBreach)
      && (e.status == ReduceSize ==> e.tier == TierReduceSize && e.reason == NewBlockBreach)
      && (e.status == Reject ==> e.tier == Block && Some(e.reason) == context.rejectReason)
      && (e.status == UnverifiedNoVerdict ==>
            && e.tier == HumanReview
            && e.reason == if CoverageStands(proofs, coverage) then ReasonUnverified
                           else if SaysErrored(e.coverage.missing) then ProbeError else CoverageIncomplete)
  {
    hide RequiredIds, KindsPresent, ScenarioCount, DecisionId, HasBlockBreach, ReduceCap, MentionsErrored, SaysErrored;
    hide Checked, FullyCovered, CoverageStands;
    CheckedComplete(proofs, coverage);
    CheckedNotEmpty(proofs, coverage);
    StandsIsCovered(proofs, coverage);
    SaysIsMentions(Checked(proofs, coverage).missing);
  }

  lemma {:induction false} CheckedNotEmpty(proofs: seq<Proof>, coverage: Manifest)
    ensures Checked(proofs, coverage).complete ==> Checked(proofs, coverage).cells != []
  {
    hide MissingCells, UniqueSorted;
  }

  /** The cap of a reduction: asked for by a breaching proof, and by none less. */
  lemma {:induction false} CapExactly(proofs: seq<Proof>, coverage: Manifest, context: Context)
    ensures var e := Decide(proofs, coverage, context);
      && (e.sizeCap.Some? <==> e.status == ReduceSize)
      && (e.sizeCap.Some? ==>
            && (exists p :: p in proofs && ShowsBreach(p) && AsksFor(p, e.sizeCap.value))
            && forall p, cap :: p in proofs && ShowsBreach(p) && AsksFor(p, cap) ==> e.sizeCap.value <= cap)
  {
    hide Decide, ShowsBreach, AsksFor, Breaching, CapOf;
    ReduceSizeCapIsLeast(proofs, coverage, context);
    forall p ensures (ShowsBreach(p) <==> Breaching(p)) && forall cap :: AsksFor(p, cap) <==> CapOf(p) == Some(cap) {
      BreachIsBreaching(p);
      AsksIsCap(p);
    }
  }

  /** What the envelope says of the coverage: left as it is when it stands or was incomplete; otherwise incomplete,
      with the uncovered cells in their order, or with one text when cells are missing or repeated. */
  lemma {:induction false} CoverageExactly(proofs: seq<Proof>, given: Manifest, context: Context)
    ensures var coverage := Decide(proofs, given, context).coverage;
      var odd := given.cells == [] || exists i, j :: 0 <= i < j < |given.cells| && given.cells[i] == given.cells[j];
      && (!given.complete || CoverageStands(proofs, given) ==> coverage == given)
      && (given.complete && odd ==>
            && !coverage.complete && coverage.missing == ["COVERAGE_INCOMPLETE"]
            && coverage.cells == UniqueSorted(given.cells, PairLeq))
      && (given.complete && !odd && !CoverageStands(proofs, given) ==>
            && coverage == Manifest(given.cells, false, coverage.missing)
            && forall m :: m in coverage.missing <==> NamesUncovered(m, proofs, given.cells))
  {
    hide UniqueSorted, MissingCells, Vouches, Covers;
    CheckedComplete(proofs, given);
    StandsIsCovered(proofs, given);
    MissingExactly(proofs, given.cells);
    forall p, c ensures Vouches(p, c) <==> Covers(p, c) { VouchesIsCovers(p, c); }
  }

  lemma {:induction false} VouchesIsCovers(p: Proof, c: Cell)
    ensures Vouches(p, c) <==> Covers(p, c)
  {
  }

  lemma {:induction false} MissingExactly(proofs: seq<Proof>, cells: seq<Cell>)
    ensures forall m :: m in MissingCells(proofs, cells) <==> NamesUncovered(m, proofs, cells)
  {
    hide Vouches, Covers;
    if cells != [] {
      var front, last := cells[..|cells| - 1], cells[|cells| - 1];
      MissingExactly(proofs, front);
      assert cells == front + [last];
      forall p ensures Vouches(p, last) <==> Covers(p, last) { VouchesIsCovers(p, last); }
      var text := CellText(last, "missing_probe_proof");
      forall m ensures NamesUncovered(m, proofs, cells) <==>
        NamesUncovered(m, proofs, front) || (m == text && !Covered(proofs, last))
      {
        assert last in cells && forall c :: c in cells <==> c in front || c == last;
      }
    }
  }

  /** The text of a cell that no proof vouches for. */
  ghost predicate NamesUncovered(m: string, proofs: seq<Proof>, cells: seq<Cell>) {
    exists c :: c in cells && (forall p :: p in proofs ==> !Vouches(p, c)) &&
      m == c.0 + ":" + c.1 + ":missing_probe_proof"
  }

  // ---------- what the decision is held to ----------

  /** The id of a decision names everything that was decided and every proof it was decided from. */
  lemma {:induction false} DecisionIdBinds(status: Status, reason: ReasonCode, ids: multiset<ProofId>,
                                           coverage: Manifest, tier: VerdictTier, cap: Option<real>, status': Status,
                                           reason': ReasonCode, ids': multiset<ProofId>, coverage': Manifest,
                                           tier': VerdictTier, cap': Option<real>)
    ensures DecisionId(status, reason, ids, coverage, tier, cap) ==
              DecisionId(status', reason', ids', coverage', tier', cap') <==>
      status == status' && reason == reason' && ids == ids' && coverage == coverage' && tier == tier' && cap == cap'
  {
    hide EncodeManifest;
    if DecisionId(status, reason, ids, coverage, tier, cap) ==
      DecisionId(status', reason', ids', coverage', tier', cap')
    {
      var x := DecisionId(status, reason, ids, coverage, tier, cap).digest.payload.fields;
      var y := DecisionId(status', reason', ids', coverage', tier', cap').digest.payload.fields;
      assert x[0] == y[0] && x[1] == y[1] && x[2] == y[2] && x[3] == y[3] && x[4] == y[4] && x[5] == y[5];
      Encodings.ManifestEncodeInjective(coverage, coverage');
    }
  }

  /** The ids an envelope requires: of the verdict-bearing proofs of the kinds its status rests on, and of the decision
      itself, which names what the envelope says; an unverified envelope requires none. */
  lemma {:induction false} RequiredExactly(proofs: seq<Proof>, coverage: Manifest, context: Context, id: ProofId)
    ensures var e := Decide(proofs, coverage, context);
      id in e.required <==>
        || (exists p :: p in proofs && p.verdictBearing && p.kind in Rests(e.status) && p.id == id)
        || (e.status != UnverifiedNoVerdict
            && id == DecisionId(e.status, e.reason, AllIds(proofs), e.coverage, e.tier, e.sizeCap))
  {
    hide Checked, FinalVerdict, IdsOf, RequiredIds, DecisionId, RequiredKinds, ScenarioCount;
    var e := Decide(proofs, coverage, context);
    var decision := DecisionId(e.status, e.reason, AllIds(proofs), e.coverage, e.tier, e.sizeCap);
    RequiredIdsMembers(proofs, RequiredKinds(e.status), decision);
    RestsAre(e.status);
    forall kind ensures id in IdsOf(proofs, kind) <==>
      exists p :: p in proofs && p.verdictBearing && p.kind == kind && p.id == id
    {
      IdsOfMembers(proofs, kind);
    }
    if id in e.required {
      var kind :| kind in RequiredKinds(e.status) && id in IdsForKind(proofs, kind, decision);
      if kind != Decision { assert kind in Rests(e.status); }
    }
    if p :| p in proofs && p.verdictBearing && p.kind in Rests(e.status) && p.id == id {
      assert p.kind in RequiredKinds(e.status) && id in IdsForKind(proofs, p.kind, decision);
    }
    if e.status != UnverifiedNoVerdict { assert decision in IdsForKind(proofs, Decision, decision); }
  }

  lemma {:induction false} RestsAre(status: Status)
    ensures forall kind :: kind in Rests(status) <==> kind in RequiredKinds(status) && kind != Decision
    ensures Decision in RequiredKinds(status) <==> status != UnverifiedNoVerdict
  {
  }

  function ScenariosOf(cells: seq<Cell>): set<string> {
    set c | c in cells :: c.0
  }

  /** The envelope counts the different scenarios of its coverage. */
  lemma {:induction false} ScenariosCounted(proofs: seq<Proof>, coverage: Manifest, context: Context)
    ensures var e := Decide(proofs, coverage, context);
      e.capabilities.scenarioCount == |ScenariosOf(e.coverage.cells)|
  {
    hide Checked, FinalVerdict, RequiredIds, DecisionId;
    var cells := Decide(proofs, coverage, context).coverage.cells;
    var ids := seq(|cells|, i requires 0 <= i < |cells| => cells[i].0);
    UniqueContents(ids);
    CountDistinct(Unique(ids));
    assert forall i :: 0 <= i < |cells| ==> cells[i] in cells && ids[i] == cells[i].0;
    assert ScenariosOf(cells) == (set id | id in Unique(ids));
  }

  lemma {:induction false} CountDistinct<T>(items: seq<T>)
    requires Distinct(items)
    ensures |(set x | x in items)| == |items|
  {
    if items != [] {
      var front, last := items[..|items| - 1], items[|items| - 1];
      assert items == front + [last];
      CountDistinct(front);
      assert (set x | x in items) == (set x | x in front) + {last};
    }
  }
}
