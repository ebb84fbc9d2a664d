/** The Merkle commitment of `merkle.py`: root, inclusion proofs and their verifier.

    An odd level repeats its last node, so the root alone does not fix the number of leaves.
    `Slot` says which leaf each of the infinitely many index values reads once the repetitions
    are filled in; with it, what the verifier accepts and when two roots agree are stated exactly. */
module Merkle {
  import opened Digests
  import opened Ordering
  import opened Wrappers

  /** A proof step; `Malformed` is a step with an unknown side or a missing key. */
  datatype Step = LeftSibling(hash: Digest) | RightSibling(hash: Digest) | Malformed

  // ---------- the functional specification ----------

  function Partner(width: nat, even: nat): nat {
    if even + 1 < width then even + 1 else even
  }

  function ParentLevel(level: seq<Digest>): (parents: seq<Digest>) {
    seq((|level| + 1) / 2, i requires 0 <= i < (|level| + 1) / 2 =>
      Node(level[2 * i], level[Partner(|level|, 2 * i)]))
  }

  function RootOf(level: seq<Digest>): Digest
    requires level != []
    decreases |level|
  {
    if |level| == 1 then level[0] else RootOf(ParentLevel(level))
  }

  function LeafLevel(leaves: seq<Value>): seq<Digest> {
    seq(|leaves|, i requires 0 <= i < |leaves| => Leaf(leaves[i]))
  }

  function Root(leaves: seq<Value>): Digest {
    if leaves == [] then Genesis else RootOf(LeafLevel(leaves))
  }

  function SiblingIndex(width: nat, cursor: nat): nat {
    var sibling := if cursor % 2 == 1 then cursor - 1 else cursor + 1;
    if sibling >= width then cursor else sibling
  }

  function StepAt(level: seq<Digest>, cursor: nat): Step
    requires cursor < |level|
  {
    var sibling := SiblingIndex(|level|, cursor);
    if sibling < cursor then LeftSibling(level[sibling]) else RightSibling(level[sibling])
  }

  function ProofOf(level: seq<Digest>, cursor: nat): seq<Step>
    requires cursor < |level|
    decreases |level|
  {
    if |level| == 1 then [] else [StepAt(level, cursor)] + ProofOf(ParentLevel(level), cursor / 2)
  }

  function Halve(width: Option<nat>): Option<nat> {
    match width
    case None => None
    case Some(w) => Some((w + 1) / 2)
  }

  /** The value the verifier's loop arrives at, or None when it rejects on the way. */
  function Climb(current: Digest, cursor: nat, width: Option<nat>, proof: seq<Step>): Option<Digest>
    decreases |proof|
  {
    if proof == [] then Some(current)
    else
      match proof[0]
      case Malformed => None
      case LeftSibling(hash) =>
        if cursor % 2 == 0 then None
        else Climb(Node(hash, current), cursor / 2, Halve(width), proof[1..])
      case RightSibling(hash) =>
        if cursor % 2 == 1 || (width.Some? && cursor + 1 >= width.value && hash != current) then None
        else Climb(Node(current, hash), cursor / 2, Halve(width), proof[1..])
  }

  /** The digest one step above `current`. */
  function Join(step: Step, current: Digest): Digest {
    match step
    case LeftSibling(hash) => Node(hash, current)
    case RightSibling(hash) => Node(current, hash)
    case Malformed => current
  }

  /** The step may be taken: it is on the right side, and at the end of an odd level it repeats the node. */
  predicate Fits(step: Step, current: Digest, cursor: nat, width: Option<nat>) {
    match step
    case Malformed => false
    case LeftSibling(_) => cursor % 2 == 1
    case RightSibling(hash) => cursor % 2 == 0 && (width.Some? && cursor + 1 >= width.value ==> hash == current)
  }

  lemma {:induction false} ClimbUnfold(current: Digest, cursor: nat, width: Option<nat>, proof: seq<Step>)
    requires proof != []
    ensures Climb(current, cursor, width, proof) ==
      if Fits(proof[0], current, cursor, width) then
        Climb(Join(proof[0], current), cursor / 2, Halve(width), proof[1..]) else None
  {
  }

  lemma {:induction false} ClimbEnd(current: Digest, cursor: nat, width: Option<nat>)
    ensures Climb(current, cursor, width, []) == Some(current)
  {
  }

  predicate Accepts(leaf: Value, index: int, proof: seq<Step>, root: Digest, leafCount: Option<int>) {
    && 0 <= index
    && (leafCount.Some? ==> index < leafCount.value)
    && var width := if leafCount.Some? then Some(leafCount.value as nat) else None;
       Climb(Leaf(leaf), index, width, proof) == Some(root)
  }

  // ---------- the loops of merkle.py ----------

  method BuildParents(level: seq<Digest>) returns (parents: seq<Digest>)
    ensures parents == ParentLevel(level)
  {
    parents := [];
    var offset := 0;
    while offset < |level|
      invariant offset == 2 * |parents| && |parents| <= (|level| + 1) / 2
      invariant parents == ParentLevel(level)[..|parents|]
    {
      var right := if offset + 1 < |level| then level[offset + 1] else level[offset];
      parents := parents + [Node(level[offset], right)];
      offset := offset + 2;
    }
  }

  method MerkleRoot(leaves: seq<Value>) returns (root: Digest)
    ensures root == Root(leaves)
  {
    if leaves == [] {
      return Genesis;
    }
    var level := LeafLevel(leaves);
    while |level| > 1
      invariant level != [] && RootOf(level) == Root(leaves)
    {
      level := BuildParents(level);
    }
    root := level[0];
  }

  method MerkleProof(leaves: seq<Value>, index: int) returns (result: Result<seq<Step>, string>)
    ensures result.Ok? <==> 0 <= index < |leaves|
    ensures result.Ok? ==> result.value == ProofOf(LeafLevel(leaves), index)
  {
    if index < 0 || index >= |leaves| {
      return Err("merkle proof index out of range");
    }
    var level := LeafLevel(leaves);
    var cursor: nat := index;
    var proof: seq<Step> := [];
    while |level| > 1
      invariant cursor < |level|
      invariant proof + ProofOf(level, cursor) == ProofOf(LeafLevel(leaves), index)
      decreases |level|
    {
      proof := proof + [StepAt(level, cursor)];
      var parents := BuildParents(level);
      cursor, level := cursor / 2, parents;
    }
    result := Ok(proof);
  }

  method VerifyInclusion(leaf: Value, index: int, proof: seq<Step>, root: Digest, leafCount: Option<int>)
    returns (accepted: bool)
    ensures accepted == Accepts(leaf, index, proof, root, leafCount)
  {
    hide Climb;
    if index < 0 || (leafCount.Some? && (leafCount.value <= 0 || index >= leafCount.value)) {
      return false;
    }
    var current, cursor: nat := Leaf(leaf), index;
    var width: Option<nat> := if leafCount.Some? then Some(leafCount.value) else None;
    ghost var target := Climb(current, cursor, width, proof);
    for i := 0 to |proof|
      invariant target == Climb(current, cursor, width, proof[i..])
    {
      assert proof[i..][0] == proof[i] && proof[i..][1..] == proof[i + 1..];
      ClimbUnfold(current, cursor, width, proof[i..]);
      match proof[i] {
        case Malformed =>
          return false;
        case LeftSibling(hash) =>
          if cursor % 2 == 0 {
            return false;
          }
          current := Node(hash, current);
        case RightSibling(hash) =>
          if cursor % 2 == 1 || (width.Some? && cursor + 1 >= width.value && hash != current) {
            return false;
          }
          current := Node(current, hash);
      }
      cursor, width := cursor / 2, Halve(width);
    }
    assert proof[|proof|..] == [];
    ClimbEnd(current, cursor, width);
    accepted := current == root;
  }

  // ---------- which leaf an index reads ----------

  /** The leaf that index `i` reads in a tree over `n` leaves, repetitions included. */
  function Slot(n: nat, i: nat): (slot: nat)
    requires n > 0
    ensures slot < n
    ensures i < n ==> slot == i
    decreases n
  {
    if n == 1 then 0
    else
      var j := 2 * Slot((n + 1) / 2, i / 2);
      if i % 2 == 1 then Partner(n, j) else j
  }

  function Depth(n: nat): nat
    requires n > 0
    decreases n
  {
    if n == 1 then 0 else 1 + Depth((n + 1) / 2)
  }

  /** The proof for index `i` once the repetitions are filled in. */
  function SlotProof(level: seq<Digest>, i: nat): seq<Step>
    requires level != []
    decreases |level|
  {
    if |level| == 1 then []
    else
      var here :=
        if i % 2 == 1 then LeftSibling(level[Slot(|level|, i - 1)])
        else RightSibling(level[Slot(|level|, i + 1)]);
      [here] + SlotProof(ParentLevel(level), i / 2)
  }

  lemma {:induction false} StepIsSlotStep(level: seq<Digest>, i: nat)
    requires 1 < |level| && i < |level|
    ensures i / 2 < |ParentLevel(level)| && StepAt(level, i) == SlotProof(level, i)[0]
  {
  }

  function MinHeight(d: Digest): nat {
    match d
    case Node(l, r) => var a, b := MinHeight(l), MinHeight(r); 1 + if a < b then a else b
    case _ => 0
  }

  function MaxHeight(d: Digest): nat {
    match d
    case Node(l, r) => var a, b := MaxHeight(l), MaxHeight(r); 1 + if a < b then b else a
    case _ => 0
  }

  /** Every digest of the level is a full tree of height `h`. */
  ghost predicate Uniform(level: seq<Digest>, h: nat) {
    level != [] && forall i :: 0 <= i < |level| ==> MinHeight(level[i]) == h == MaxHeight(level[i])
  }

  lemma {:induction false} UniformParents(level: seq<Digest>, h: nat)
    requires Uniform(level, h) && |level| > 1
    ensures Uniform(ParentLevel(level), h + 1)
    ensures RootOf(level) == RootOf(ParentLevel(level))
    ensures |ParentLevel(level)| == (|level| + 1) / 2
  {
  }

  lemma {:induction false} RootHeight(level: seq<Digest>, h: nat)
    requires Uniform(level, h)
    ensures MinHeight(RootOf(level)) == h + Depth(|level|) == MaxHeight(RootOf(level))
    decreases |level|
  {
    if |level| > 1 {
      UniformParents(level, h);
      RootHeight(ParentLevel(level), h + 1);
    }
  }

  /** The two slots under one parent, and where index `i` and its sibling fall among them. */
  lemma {:induction false} SlotPair(n: nat, i: nat)
    requires n > 1
    ensures var j := 2 * Slot((n + 1) / 2, i / 2);
      && j < n
      && (i % 2 == 0 ==> Slot(n, i) == j && Slot(n, i + 1) == Partner(n, j))
      && (i % 2 == 1 ==> Slot(n, i) == Partner(n, j) && Slot(n, i - 1) == j)
  {
    if i % 2 == 0 {
      assert (i + 1) / 2 == i / 2;
    } else {
      assert (i - 1) / 2 == i / 2;
    }
  }

  lemma {:induction false} SlotOfParent(level: seq<Digest>, i: nat)
    requires |level| > 1
    ensures var parent := ParentLevel(level)[Slot((|level| + 1) / 2, i / 2)];
      && (i % 2 == 0 ==> parent == Node(level[Slot(|level|, i)], level[Slot(|level|, i + 1)]))
      && (i % 2 == 1 ==> parent == Node(level[Slot(|level|, i - 1)], level[Slot(|level|, i)]))
  {
    SlotPair(|level|, i);
  }

  lemma {:induction false} SlotsUnder(level: seq<Digest>, k: nat)
    requires |level| > 1
    ensures |ParentLevel(level)| == (|level| + 1) / 2
    ensures ParentLevel(level)[Slot((|level| + 1) / 2, k)] ==
      Node(level[Slot(|level|, 2 * k)], level[Slot(|level|, 2 * k + 1)])
  {
    SlotOfParent(level, 2 * k);
    assert (2 * k) / 2 == k && (2 * k) % 2 == 0;
  }

  lemma {:induction false} ClimbStep(current: Digest, cursor: nat, width: Option<nat>, proof: seq<Step>)
    requires proof != [] && Climb(current, cursor, width, proof).Some?
    ensures proof[0] != Malformed && (proof[0].LeftSibling? <==> cursor % 2 == 1)
    ensures Climb(Join(proof[0], current), cursor / 2, Halve(width), proof[1..]) == Climb(current, cursor, width, proof)
  {
  }

  lemma {:induction false} ClimbGrows(current: Digest, cursor: nat, width: Option<nat>, proof: seq<Step>)
    requires Climb(current, cursor, width, proof).Some?
    ensures MaxHeight(Climb(current, cursor, width, proof).value) >= MaxHeight(current) + |proof|
    decreases |proof|
  {
    if proof != [] {
      ClimbStep(current, cursor, width, proof);
      ClimbGrows(Join(proof[0], current), cursor / 2, Halve(width), proof[1..]);
    }
  }

  /** Whatever the width check, only the leaf in the index's slot and the exact proof reach the root. */
  lemma {:induction false} ClimbSound(level: seq<Digest>, h: nat, x: Digest, i: nat, width: Option<nat>,
                                      proof: seq<Step>)
    requires Uniform(level, h)
    requires MinHeight(x) <= h <= MaxHeight(x)
    requires Climb(x, i, width, proof) == Some(RootOf(level))
    ensures x == level[Slot(|level|, i)] && proof == SlotProof(level, i)
    decreases |level|
  {
    if |level| == 1 {
      ClimbGrows(x, i, width, proof);
    } else if proof == [] {
      RootHeight(level, h);
    } else {
      var parents := ParentLevel(level);
      UniformParents(level, h);
      ClimbStep(x, i, width, proof);
      var next, half := Join(proof[0], x), i / 2;
      ClimbSound(parents, h + 1, next, half, Halve(width), proof[1..]);
      StepFromParent(level, i, x, proof[0]);
      assert proof == [proof[0]] + proof[1..];
    }
  }

  lemma {:induction false} StepFromParent(level: seq<Digest>, i: nat, x: Digest, step: Step)
    requires |level| > 1 && step != Malformed && (step.LeftSibling? <==> i % 2 == 1)
    requires Join(step, x) == ParentLevel(level)[Slot((|level| + 1) / 2, i / 2)]
    ensures x == level[Slot(|level|, i)] && step == SlotProof(level, i)[0]
  {
    SlotOfParent(level, i);
  }

  /** The slot's own proof is accepted, with the exact width or with none. */
  lemma {:induction false} ClimbComplete(level: seq<Digest>, i: nat, width: Option<nat>)
    requires level != []
    requires width.Some? ==> width.value == |level| && i < |level|
    ensures Climb(level[Slot(|level|, i)], i, width, SlotProof(level, i)) == Some(RootOf(level))
    decreases |level|
  {
    if |level| > 1 {
      SlotStep(level, i, width);
      ClimbComplete(ParentLevel(level), i / 2, Halve(width));
    }
  }

  /** One step of the slot proof leads from a node to its parent. */
  lemma {:induction false} SlotStep(level: seq<Digest>, i: nat, width: Option<nat>)
    requires |level| > 1 && (width.Some? ==> width.value == |level| && i < |level|)
    ensures var x, steps, parents := level[Slot(|level|, i)], SlotProof(level, i), ParentLevel(level);
      Climb(x, i, width, steps) == Climb(parents[Slot(|parents|, i / 2)], i / 2, Halve(width),
                                         SlotProof(parents, i / 2))
  {
    hide Climb, SlotProof;
    var x, steps, half := level[Slot(|level|, i)], SlotProof(level, i), i / 2;
    SlotOfParent(level, i);
    SlotProofUnfold(level, i);
    ClimbUnfold(x, i, width, steps);
    SlotBeside(|level|, i);
    assert Fits(steps[0], x, i, width);
    assert Join(steps[0], x) == ParentLevel(level)[Slot((|level| + 1) / 2, half)];
  }

  lemma {:induction false} SlotProofUnfold(level: seq<Digest>, i: nat)
    requires |level| > 1
    ensures var steps := SlotProof(level, i);
      && steps != [] && steps[1..] == SlotProof(ParentLevel(level), i / 2)
      && steps[0] == if i % 2 == 1 then LeftSibling(level[Slot(|level|, i - 1)])
        else RightSibling(level[Slot(|level|, i + 1)])
  {
  }

  /** Past the end of an odd level the neighbour's slot is the last node itself. */
  lemma {:induction false} SlotBeside(n: nat, i: nat)
    requires n > 1
    ensures i % 2 == 0 && i < n <= i + 1 ==> Slot(n, i + 1) == Slot(n, i)
  {
    SlotPair(n, i);
  }

  lemma {:induction false} ProofIsSlotProof(level: seq<Digest>, i: nat)
    requires i < |level|
    ensures ProofOf(level, i) == SlotProof(level, i)
    decreases |level|
  {
    if |level| > 1 {
      StepIsSlotStep(level, i);
      ProofIsSlotProof(ParentLevel(level), i / 2);
    }
  }

  /** Soundness and completeness with `leaf_count`: for the true number of leaves the verifier
      accepts exactly the leaf at a valid index together with the proof `merkle_proof` returns. */
  lemma {:induction false} VerifierExact(leaves: seq<Value>, leaf: Value, index: int, proof: seq<Step>)
    ensures Accepts(leaf, index, proof, Root(leaves), Some(|leaves|))
       <==> 0 <= index < |leaves| && leaf == leaves[index] && proof == ProofOf(LeafLevel(leaves), index)
  {
    if 0 <= index < |leaves| {
      var level := LeafLevel(leaves);
      ProofIsSlotProof(level, index);
      ClimbComplete(level, index, Some(|leaves|));
      if Accepts(leaf, index, proof, Root(leaves), Some(|leaves|)) {
        ClimbSound(level, 0, Leaf(leaf), index, Some(|leaves|), proof);
      }
    }
  }

  /** Without `leaf_count` the verifier accepts every index whose slot holds the leaf, also
      indices past the end; an index inside the list still names its own leaf. */
  lemma {:induction false} VerifierExactUncounted(leaves: seq<Value>, leaf: Value, index: int, proof: seq<Step>)
    ensures Accepts(leaf, index, proof, Root(leaves), None)
       <==> && leaves != [] && 0 <= index && leaf == leaves[Slot(|leaves|, index)]
            && proof == SlotProof(LeafLevel(leaves), index)
  {
    if 0 <= index {
      if leaves == [] {
        if Accepts(leaf, index, proof, Root(leaves), None) {
          ClimbNotGenesis(Leaf(leaf), index, None, proof);
        }
      } else {
        var level := LeafLevel(leaves);
        ClimbComplete(level, index, None);
        if Accepts(leaf, index, proof, Root(leaves), None) {
          ClimbSound(level, 0, Leaf(leaf), index, None, proof);
        }
      }
    }
  }

  /** Wherever a count of `w` leaves leaves a node without a neighbour, the tree repeats that node. */
  ghost predicate Repeats(level: seq<Digest>, i: nat, w: nat)
    decreases |level|
  {
    |level| > 1 ==>
      && (i % 2 == 0 && i + 1 >= w ==> level[Slot(|level|, i + 1)] == level[Slot(|level|, i)])
      && Repeats(ParentLevel(level), i / 2, (w + 1) / 2)
  }

  lemma {:induction false} ClimbCounted(level: seq<Digest>, i: nat, w: nat)
    requires level != []
    ensures Climb(level[Slot(|level|, i)], i, Some(w), SlotProof(level, i)) ==
      if Repeats(level, i, w) then Some(RootOf(level)) else None
    decreases |level|
  {
    if |level| > 1 {
      hide Climb, SlotProof, Slot;
      CountedStep(level, i, w);
      ClimbCounted(ParentLevel(level), i / 2, (w + 1) / 2);
    }
  }

  lemma {:induction false} CountedStep(level: seq<Digest>, i: nat, w: nat)
    requires |level| > 1
    ensures var x, steps, parents := level[Slot(|level|, i)], SlotProof(level, i), ParentLevel(level);
      Climb(x, i, Some(w), steps) ==
        if i % 2 == 0 && i + 1 >= w && level[Slot(|level|, i + 1)] != x then None
        else Climb(parents[Slot(|parents|, i / 2)], i / 2, Some((w + 1) / 2), SlotProof(parents, i / 2))
  {
    hide Climb, SlotProof;
    SlotOfParent(level, i);
    SlotProofUnfold(level, i);
    ClimbUnfold(level[Slot(|level|, i)], i, Some(w), SlotProof(level, i));
  }

  /** With any `leaf_count`, true or not: what is accepted without one, for an index below the count, as long as the
      tree repeats a node wherever that count leaves one without a neighbour. */
  lemma {:induction false} VerifierExactCounted(leaves: seq<Value>, leaf: Value, index: int, proof: seq<Step>,
                                                count: int)
    ensures Accepts(leaf, index, proof, Root(leaves), Some(count))
       <==> && leaves != [] && 0 <= index < count && leaf == leaves[Slot(|leaves|, index)]
            && proof == SlotProof(LeafLevel(leaves), index) && Repeats(LeafLevel(leaves), index, count)
  {
    if 0 <= index < count {
      if leaves == [] {
        if Accepts(leaf, index, proof, Root(leaves), Some(count)) {
          ClimbNotGenesis(Leaf(leaf), index, Some(count), proof);
        }
      } else {
        var level := LeafLevel(leaves);
        ClimbCounted(level, index, count);
        if Accepts(leaf, index, proof, Root(leaves), Some(count)) {
          ClimbSound(level, 0, Leaf(leaf), index, Some(count), proof);
        }
      }
    }
  }

  lemma {:induction false} ClimbNotGenesis(current: Digest, cursor: nat, width: Option<nat>, proof: seq<Step>)
    requires current.Leaf? || current.Node?
    ensures Climb(current, cursor, width, proof) != Some(Genesis)
    decreases |proof|
  {
    if proof != [] && Climb(current, cursor, width, proof).Some? {
      ClimbStep(current, cursor, width, proof);
      ClimbNotGenesis(Join(proof[0], current), cursor / 2, Halve(width), proof[1..]);
    }
  }

  // ---------- the tree from the top ----------

  /** How many nodes there are at height `h` over `n` leaves. */
  function WidthAt(n: nat, h: nat): nat {
    if h == 0 then n else (WidthAt(n, h - 1) + 1) / 2
  }

  /** Node `k` at height `h`: a leaf's digest at the bottom, above that the two nodes below it, left before right, and
      the last node twice where there is no other. */
  function NodeAt(leaves: seq<Value>, h: nat, k: nat): Digest
    requires k < WidthAt(|leaves|, h)
  {
    if h == 0 then Leaf(leaves[k])
    else
      Node(NodeAt(leaves, h - 1, 2 * k),
           NodeAt(leaves, h - 1, if 2 * k + 1 < WidthAt(|leaves|, h - 1) then 2 * k + 1 else 2 * k))
  }

  /** The root is the one node at the top. */
  lemma {:induction false} RootFromTop(leaves: seq<Value>)
    requires leaves != []
    ensures WidthAt(|leaves|, Depth(|leaves|)) == 1 && Root(leaves) == NodeAt(leaves, Depth(|leaves|), 0)
  {
    LevelFromTop(leaves, LeafLevel(leaves), 0);
  }

  lemma {:induction false} LevelFromTop(leaves: seq<Value>, level: seq<Digest>, h: nat)
    requires level != [] && |level| == WidthAt(|leaves|, h)
    requires forall k :: 0 <= k < |level| ==> level[k] == NodeAt(leaves, h, k)
    ensures WidthAt(|leaves|, h + Depth(|level|)) == 1 && RootOf(level) == NodeAt(leaves, h + Depth(|level|), 0)
    decreases |level|
  {
    if |level| > 1 { LevelFromTop(leaves, ParentLevel(level), h + 1); }
  }

  // ---------- what a root binds ----------

  ghost predicate SameExpansion<T>(a: seq<T>, b: seq<T>)
    requires a != [] && b != []
  {
    Depth(|a|) == Depth(|b|) && forall i: nat :: a[Slot(|a|, i)] == b[Slot(|b|, i)]
  }

  lemma {:induction false} ExpansionDown(a: seq<Digest>, b: seq<Digest>)
    requires |a| > 1 && |b| > 1
    requires ParentLevel(a) != [] && ParentLevel(b) != [] && SameExpansion(ParentLevel(a), ParentLevel(b))
    ensures SameExpansion(a, b)
  {
  }

  lemma {:induction false} ExpansionUp(a: seq<Digest>, b: seq<Digest>)
    requires |a| > 1 && |b| > 1
    requires SameExpansion(a, b)
    ensures ParentLevel(a) != [] && ParentLevel(b) != [] && SameExpansion(ParentLevel(a), ParentLevel(b))
  {
    var p, q := ParentLevel(a), ParentLevel(b);
    forall k: nat ensures p[Slot(|p|, k)] == q[Slot(|q|, k)] {
      assert a[Slot(|a|, 2 * k)] == b[Slot(|b|, 2 * k)] && a[Slot(|a|, 2 * k + 1)] == b[Slot(|b|, 2 * k + 1)];
      SlotsUnder(a, k);
      SlotsUnder(b, k);
    }
  }

  lemma {:induction false} LevelBinding(a: seq<Digest>, b: seq<Digest>, h: nat)
    requires Uniform(a, h) && Uniform(b, h)
    ensures RootOf(a) == RootOf(b) <==> SameExpansion(a, b)
    decreases |a|
  {
    RootHeight(a, h);
    RootHeight(b, h);
    if |a| == 1 || |b| == 1 {
      assert SameExpansion(a, b) ==> a[Slot(|a|, 0)] == b[Slot(|b|, 0)];
    } else {
      UniformParents(a, h);
      UniformParents(b, h);
      var p, q := ParentLevel(a), ParentLevel(b);
      LevelBinding(p, q, h + 1);
      if SameExpansion(a, b) { ExpansionUp(a, b); }
      if SameExpansion(p, q) { ExpansionDown(a, b); }
    }
  }

  /** Binding: two nonempty lists have one root exactly when they have equal depth and agree
      once the repeated last nodes are filled in. */
  lemma {:induction false} RootBindsExpansion(a: seq<Value>, b: seq<Value>)
    requires a != [] && b != []
    ensures Root(a) == Root(b) <==> SameExpansion(a, b)
  {
    var la, lb := LeafLevel(a), LeafLevel(b);
    LevelBinding(la, lb, 0);
    assert forall i: nat :: la[Slot(|a|, i)] == Leaf(a[Slot(|a|, i)]) && lb[Slot(|b|, i)] == Leaf(b[Slot(|b|, i)]);
  }

  lemma {:induction false} EqualParents(a: seq<Digest>, b: seq<Digest>)
    requires ParentLevel(a) == ParentLevel(b) && |a| <= |b|
    ensures forall i :: 0 <= i < |a| ==> a[i] == b[i]
    ensures |a| < |b| ==> |b| == |a| + 1 && |a| > 0 && b[|a| - 1] == b[|a|]
  {
    var p, q := ParentLevel(a), ParentLevel(b);
    forall i | 0 <= i < |a| ensures a[i] == b[i] {
      var k := i / 2;
      assert p[k] == q[k];
      assert i == 2 * k || i == 2 * k + 1;
    }
    if |a| < |b| {
      assert (|a| + 1) / 2 == (|b| + 1) / 2;
      var k := |a| / 2;
      assert |a| == 2 * k + 1 && p[k] == q[k];
    }
  }

  lemma {:induction false} DistinctParents(level: seq<Digest>)
    requires Distinct(level)
    ensures Distinct(ParentLevel(level))
  {
  }

  lemma {:induction false} DistinctLevelBinding(a: seq<Digest>, b: seq<Digest>, h: nat)
    requires Uniform(a, h) && Uniform(b, h) && RootOf(a) == RootOf(b)
    requires |a| == |b| || (Distinct(a) && Distinct(b))
    ensures a == b
    decreases |a|
  {
    RootHeight(a, h);
    RootHeight(b, h);
    if |a| > 1 && |b| > 1 {
      UniformParents(a, h);
      UniformParents(b, h);
      if |a| != |b| {
        DistinctParents(a);
        DistinctParents(b);
      }
      DistinctLevelBinding(ParentLevel(a), ParentLevel(b), h + 1);
      if |a| <= |b| { EqualParents(a, b); } else { EqualParents(b, a); }
    }
  }

  /** The root is injective on lists of one length and on lists without repetition. */
  lemma {:induction false} RootInjective(a: seq<Value>, b: seq<Value>)
    requires Root(a) == Root(b)
    requires |a| == |b| || (Distinct(a) && Distinct(b))
    ensures a == b
  {
    if a == [] || b == [] {
      if a != [] { ClimbNotGenesisRoot(a); }
      if b != [] { ClimbNotGenesisRoot(b); }
    } else {
      var la, lb := LeafLevel(a), LeafLevel(b);
      DistinctLevelBinding(la, lb, 0);
      assert forall i :: 0 <= i < |a| ==> la[i] == Leaf(a[i]) && lb[i] == Leaf(b[i]);
    }
  }

  lemma {:induction false} ClimbNotGenesisRoot(leaves: seq<Value>)
    requires leaves != []
    ensures Root(leaves) != Genesis
  {
    var level := LeafLevel(leaves);
    ClimbComplete(level, 0, None);
    ClimbNotGenesis(level[Slot(|level|, 0)], 0, None, SlotProof(level, 0));
  }

  /** Neither escape can be dropped: three leaves and the same three with the last repeated. */
  lemma {:induction false} RepeatedLastCollides(x: Value, y: Value, z: Value)
    ensures Root([x, y, z]) == Root([x, y, z, z])
  {
    var a, b := LeafLevel([x, y, z]), LeafLevel([x, y, z, z]);
    assert ParentLevel(a) == ParentLevel(b);
  }
}
