/** Writing receipts: `atomic_write_receipt` over the receipt files, the ledger and its checkpoint. */
module Issuance {
  import opened Wrappers
  import opened Digests
  import opened Ordering
  import opened Receipts
  import opened Ledger
  import Merkle
  import Encodings

  datatype Files = Files(ledger: Option<seq<Line>>, receipts: map<string, Receipt>, checkpoint: Option<Checkpoint>)

  const NO_FILES := Files(None, map[], None)

  /** One call: where the receipt goes, the receipt, the time noted and the name the checkpoint gives the ledger. */
  datatype Write = Write(path: string, receipt: Receipt, writtenAt: string, ledgerName: string)

  function Lines(ledger: Option<seq<Line>>): seq<Line> {
    if ledger.None? then [] else ledger.value
  }

  /** What the conflict scan finds in one line. */
  function Offence(line: Line, r: Receipt): Option<Fault> {
    match line
    case Blank(_) => None
    case NotJson(_) => Some(BadJson)
    case NotObject(_) => Some(NotAnObject)
    case Record(e) => if e.keyHash == Some(LedgerKey(r)) then Some(Reroll) else None
    case Unhashable(e) => if e.keyHash == Some(LedgerKey(r)) then Some(Reroll) else None
  }

  function Conflict(lines: seq<Line>, r: Receipt): Option<Fault> {
    if lines == [] then None
    else
      var earlier := Conflict(lines[..|lines| - 1], r);
      if earlier.Some? then earlier else Offence(lines[|lines| - 1], r)
  }

  function NewEntry(w: Write, previous: Digest): Entry {
    var draft := Entry(Some(LedgerKey(w.receipt)), Some(w.receipt.status), Some(w.receipt.receiptHash), Some(previous),
                       Text(w.writtenAt), None);
    draft.(entryHash := Some(EntryDigest(draft)))
  }

  function Appended(lines: seq<Line>, w: Write): seq<Line> {
    lines + [Record(NewEntry(w, TailHash(Entries(lines))))]
  }

  function ReceiptHashes(es: seq<Entry>): seq<Digest> {
    if es == [] then []
    else
      var last := es[|es| - 1].receiptHash;
      ReceiptHashes(es[..|es| - 1]) + if last.Some? then [last.value] else []
  }

  function CheckpointOf(lines: seq<Line>, subjects: seq<Digest>, ledgerName: string,
                        leq: (Digest, Digest) -> bool): Checkpoint {
    var es := Entries(lines);
    var covered := UniqueSorted(subjects + ReceiptHashes(es), leq);
    var draft := Checkpoint(ledgerName, FileDigest(lines), TailHash(es), |es|, covered,
                            Some(Merkle.Root(Leaves(covered))), "local-artifact", Unset);
    draft.(checkpointHash := CheckpointDigest(draft))
  }

  /** One call: a conflict leaves every file alone; a broken chain costs the receipt file; otherwise
      the receipt, one more entry and a fresh checkpoint are written. */
  function Issue(files: Files, w: Write, leq: (Digest, Digest) -> bool): (Files, Option<Fault>) {
    var lines := Lines(files.ledger);
    var conflict := Conflict(lines, w.receipt);
    if conflict.Some? then (files, conflict)
    else if ChainFault(lines).Some? then (files.(receipts := files.receipts - {w.path}), ChainFault(lines))
    else
      var after := Appended(lines, w);
      (Files(Some(after), files.receipts[w.path := w.receipt],
             Some(CheckpointOf(after, [w.receipt.receiptHash], w.ledgerName, leq))), None)
  }

  lemma {:induction false} NewEntryLinks(w: Write, previous: Digest)
    ensures LinksTo(NewEntry(w, previous), previous)
  {
  }

  lemma {:induction false} AppendedChain(lines: seq<Line>, w: Write)
    requires ChainOk(lines)
    ensures ChainOk(Appended(lines, w))
    ensures Entries(Appended(lines, w)) == Entries(lines) + [NewEntry(w, TailHash(Entries(lines)))]
  {
    hide ChainOk, LinksTo, NewEntry, Entries;
    var after := Appended(lines, w);
    assert after[..|lines|] == lines && after[..|after|] == after;
    NewEntryLinks(w, TailHash(Entries(lines)));
    ChainStep(after, |lines|);
    EntriesSnoc(after, |lines|);
  }

  lemma {:induction false} LastHash(lines: seq<Line>)
    requires ChainOk(lines) && Entries(lines) != []
    ensures Entries(lines)[|Entries(lines)| - 1].entryHash == Some(TailHash(Entries(lines)))
  {
  }

  lemma {:induction false} NoLines()
    ensures ChainOk([]) && Entries([]) == [] && TailHash([]) == Genesis
  {
  }

  lemma {:induction false} FirstConflict(lines: seq<Line>, i: nat, r: Receipt)
    requires i < |lines| && Conflict(lines[..i], r).None? && Offence(lines[i], r).Some?
    ensures Conflict(lines, r) == Offence(lines[i], r)
  {
    hide Offence;
    var front := lines[..|lines| - 1];
    if i < |front| {
      assert front[..i] == lines[..i] && front[i] == lines[i];
      FirstConflict(front, i, r);
    }
  }

  /** Every line is blank or an object, hashable or not. */
  predicate Objects(lines: seq<Line>) {
    forall i :: 0 <= i < |lines| ==> lines[i].Blank? || lines[i].Record? || lines[i].Unhashable?
  }

  /** Once the scan finds nothing, every line parses to an object; whether it can be hashed is found out later. */
  lemma {:induction false} NoConflictParsed(lines: seq<Line>, r: Receipt)
    ensures Conflict(lines, r).None? <==>
      Objects(lines) && forall i :: 0 <= i < |lines| && !lines[i].Blank? ==>
        lines[i].entry.keyHash != Some(LedgerKey(r))
  {
    hide LedgerKey;
    if lines != [] {
      var front := lines[..|lines| - 1];
      NoConflictParsed(front, r);
      assert lines == front + [lines[|lines| - 1]];
    }
  }

  /** A line the conflict scan passes: a blank one, or an object with another key. */
  predicate PassesOver(line: Line, r: Receipt) {
    line.Blank? || ((line.Record? || line.Unhashable?) && line.entry.keyHash != Some(LedgerKey(r)))
  }

  /** The scan stops at line `k`: it is not JSON, is no object or has the receipt's key. */
  ghost predicate StopsScan(lines: seq<Line>, r: Receipt, fault: Fault, k: nat) {
    && k < |lines| && !PassesOver(lines[k], r) && (forall i :: 0 <= i < k ==> PassesOver(lines[i], r))
    && fault == (if lines[k].NotJson? then BadJson else if lines[k].NotObject? then NotAnObject else Reroll)
  }

  lemma {:induction false} ScanExactly(lines: seq<Line>, r: Receipt)
    ensures Conflict(lines, r).None? <==> forall i :: 0 <= i < |lines| ==> PassesOver(lines[i], r)
    ensures forall fault, k: nat :: StopsScan(lines, r, fault, k) ==> Conflict(lines, r) == Some(fault)
  {
    hide LedgerKey;
    NoConflictParsed(lines, r);
    forall fault, k: nat | StopsScan(lines, r, fault, k) ensures Conflict(lines, r) == Some(fault) {
      NoConflictParsed(lines[..k], r);
      FirstConflict(lines, k, r);
    }
  }

  /** One call in full.  A line that stops the scan gives its fault and leaves every file alone.  A broken chain
      gives the fault of the line that breaks it and costs the file at the path.  Otherwise the receipt is at the
      path, the ledger has one more entry that says whose it is and carries on the chain, and the checkpoint
      describes that ledger. */
  lemma {:induction false} IssueExactly(files: Files, w: Write, leq: HashOrder)
    requires TotalOrder(leq)
    ensures var lines, (after, fault) := if files.ledger.Some? then files.ledger.value else [], Issue(files, w, leq);
      && (forall f, k: nat :: StopsScan(lines, w.receipt, f, k) ==> fault == Some(f) && after == files)
      && ((forall i :: 0 <= i < |lines| ==> PassesOver(lines[i], w.receipt)) ==>
            && (!ChainOk(lines) ==> fault == ChainFault(lines) && fault.Some? &&
                                      after == files.(receipts := files.receipts - {w.path}))
            && (ChainOk(lines) ==> fault.None? && Written(files.receipts, lines, after, w, leq)))
  {
    hide Conflict, ChainFault, ChainOk, PassesOver, CheckpointOf, Appended, Written, LedgerKey;
    var lines := Lines(files.ledger);
    ScanExactly(lines, w.receipt);
    NoFaultIsChain(lines);
    if Conflict(lines, w.receipt).None? && ChainOk(lines) { IssueWrites(files, w, leq); }
  }

  /** The entry says whose it is and carries on the chain. */
  ghost predicate EntryFor(e: Entry, w: Write, es: seq<Entry>) {
    && e.keyHash == Some(LedgerKey(w.receipt)) && e.status == Some(w.receipt.status)
    && e.receiptHash == Some(w.receipt.receiptHash) && e.other == Text(w.writtenAt)
    && e.previous == (if es == [] then Some(Genesis) else es[|es| - 1].entryHash)
    && e.entryHash == Some(EntryDigest(e))
  }

  /** The checkpoint describes the ledger that ends in this entry, and names every receipt hash in it. */
  ghost predicate CheckpointFor(c: Checkpoint, lines: seq<Line>, es: seq<Entry>, e: Entry, w: Write, leq: HashOrder) {
    && c.ledgerPath == w.ledgerName && c.ledgerHash == FileDigest(lines) && c.tail == EntryDigest(e)
    && c.count == |es| + 1 && Ascending(c.subjects, leq) && Distinct(c.subjects)
    && (forall d :: d in c.subjects <==>
          d == w.receipt.receiptHash || exists i :: 0 <= i < |es| && es[i].receiptHash == Some(d))
    && c.merkleRoot == Some(Merkle.Root(Leaves(c.subjects))) && c.anchor == "local-artifact"
    && c.checkpointHash == CheckpointDigest(c)
  }

  /** What a call that goes through leaves behind. */
  ghost predicate Written(receipts: map<string, Receipt>, lines: seq<Line>, after: Files, w: Write, leq: HashOrder) {
    && after.ledger.Some? && |after.ledger.value| == |lines| + 1 && after.ledger.value[..|lines|] == lines
    && after.ledger.value[|lines|].Record? && after.checkpoint.Some?
    && after.receipts == receipts[w.path := w.receipt]
    && EntryFor(after.ledger.value[|lines|].entry, w, Entries(lines))
    && CheckpointFor(after.checkpoint.value, after.ledger.value, Entries(lines), after.ledger.value[|lines|].entry, w,
                     leq)
  }

  lemma {:induction false} ReceiptHashesAre(es: seq<Entry>, d: Digest)
    ensures d in ReceiptHashes(es) <==> exists i :: 0 <= i < |es| && es[i].receiptHash == Some(d)
  {
    if es != [] {
      var front := es[..|es| - 1];
      ReceiptHashesAre(front, d);
      if i :| 0 <= i < |front| && front[i].receiptHash == Some(d) { assert es[i] == front[i]; }
    }
  }

  lemma {:induction false} IssueWrites(files: Files, w: Write, leq: HashOrder)
    requires TotalOrder(leq) && Conflict(Lines(files.ledger), w.receipt).None? && ChainOk(Lines(files.ledger))
    ensures Written(files.receipts, Lines(files.ledger), Issue(files, w, leq).0, w, leq)
  {
    hide Conflict, ChainFault, ChainOk, EntryFor, CheckpointFor, CheckpointOf, NewEntry, Entries;
    var lines := Lines(files.ledger);
    NoFaultIsChain(lines);
    NewEntryIs(lines, w);
    NewCheckpointIs(lines, w, leq);
  }

  lemma {:induction false} NewEntryIs(lines: seq<Line>, w: Write)
    requires ChainOk(lines)
    ensures EntryFor(NewEntry(w, TailHash(Entries(lines))), w, Entries(lines))
  {
    hide ChainOk, LedgerKey, Entries;
    if Entries(lines) != [] { LastHash(lines); }
  }

  lemma {:induction false} NewCheckpointIs(lines: seq<Line>, w: Write, leq: HashOrder)
    requires TotalOrder(leq) && ChainOk(lines)
    ensures CheckpointFor(CheckpointOf(Appended(lines, w), [w.receipt.receiptHash], w.ledgerName, leq),
                          Appended(lines, w), Entries(lines), NewEntry(w, TailHash(Entries(lines))), w, leq)
  {
    hide ChainOk, EntryDigest, UniqueSorted, FileDigest, Entries, ReceiptHashes, Merkle.Root, CheckpointDigest,
      NewEntry, Appended;
    var es, all := Entries(lines), Entries(Appended(lines, w));
    AppendedChain(lines, w);
    UniqueSortedContents([w.receipt.receiptHash] + ReceiptHashes(all), leq);
    CheckpointSelf(Appended(lines, w), [w.receipt.receiptHash], w.ledgerName, leq);
    forall d ensures d in ReceiptHashes(all) <==>
      d == w.receipt.receiptHash || exists i :: 0 <= i < |es| && es[i].receiptHash == Some(d)
    {
      GrownHashes(es, NewEntry(w, TailHash(es)), d);
      NewEntryIs(lines, w);
    }
  }

  lemma {:induction false} GrownHashes(es: seq<Entry>, e: Entry, d: Digest)
    ensures d in ReceiptHashes(es + [e]) <==>
      e.receiptHash == Some(d) || exists i :: 0 <= i < |es| && es[i].receiptHash == Some(d)
  {
    ReceiptHashesAre(es, d);
    assert (es + [e])[..|es|] == es;
  }

  lemma {:induction false} CheckpointSelf(lines: seq<Line>, subjects: seq<Digest>, name: string, leq: HashOrder)
    ensures var c := CheckpointOf(lines, subjects, name, leq); c.checkpointHash == CheckpointDigest(c)
  {
    hide UniqueSorted, Merkle.Root, FileDigest, Entries, TailHash, ReceiptHashes;
  }

  class IssuanceLedger {
    const leq: (Digest, Digest) -> bool
    var ledger: Option<seq<Line>>
    var receipts: map<string, Receipt>
    var checkpoint: Option<Checkpoint>

    ghost function Contents(): Files
      reads this
    {
      Files(ledger, receipts, checkpoint)
    }

    constructor (leq: (Digest, Digest) -> bool)
      ensures Contents() == NO_FILES && this.leq == leq
    {
      this.leq := leq;
      ledger, receipts, checkpoint := None, map[], None;
    }

    /** `_raise_on_ledger_conflict`. */
    method RaiseOnLedgerConflict(r: Receipt) returns (fault: Option<Fault>)
      ensures fault == Conflict(Lines(ledger), r)
    {
      hide LedgerKey;
      if ledger.None? { return None; }
      var lines := ledger.value;
      var key := LedgerKey(r);
      for i := 0 to |lines|
        invariant Conflict(lines[..i], r).None?
      {
        assert lines[..i + 1][..i] == lines[..i];
        if Offence(lines[i], r).Some? { FirstConflict(lines, i, r); }
        match lines[i] {
          case Blank(_) =>
          case NotJson(_) => return Some(BadJson);
          case NotObject(_) => return Some(NotAnObject);
          case Record(entry) =>
            if entry.keyHash == Some(key) { return Some(Reroll); }
          case Unhashable(entry) =>
            if entry.keyHash == Some(key) { return Some(Reroll); }
        }
      }
      assert lines[..|lines|] == lines;
      return None;
    }

    /** `_append_ledger`: the chain is read back before the entry is added. */
    method AppendLedger(w: Write) returns (fault: Option<Fault>)
      modifies this`ledger
      ensures fault.None? <==> ChainOk(Lines(old(ledger)))
      ensures ledger == if fault.None? then Some(Appended(Lines(old(ledger)), w)) else old(ledger)
      ensures fault == ChainFault(Lines(old(ledger)))
    {
      hide ChainOk, Entries, TailHash, NewEntry, ChainFault;
      NoFaultIsChain(Lines(ledger));
      var previous := Genesis;
      var lines: seq<Line> := [];
      if ledger.Some? {
        lines := ledger.value;
        var read := ReadLedgerEntries(lines);
        if read.Err? { return Some(read.error); }
        assert lines == Lines(ledger);
        if |read.value| > 0 { LastHash(lines); previous := read.value[|read.value| - 1].entryHash.value; }
      }
      NoLines();
      ledger := Some(lines + [Record(NewEntry(w, previous))]);
      return None;
    }

    /** `create_ledger_checkpoint`: the chain is read back once more. */
    method CreateLedgerCheckpoint(subjects: seq<Digest>, ledgerName: string) returns (fault: Option<Fault>)
      requires ledger.Some?
      modifies this`checkpoint
      ensures fault.None? <==> ChainOk(ledger.value)
      ensures checkpoint == if fault.None? then Some(CheckpointOf(ledger.value, subjects, ledgerName, leq))
        else old(checkpoint)
    {
      hide ChainOk, Entries, TailHash, UniqueSorted, EntryDigest, FileDigest, CheckpointDigest;
      var lines := ledger.value;
      var read := ReadLedgerEntries(lines);
      if read.Err? { return Some(read.error); }
      var entries := read.value;
      var tail := Genesis;
      if |entries| > 0 { LastHash(lines); tail := entries[|entries| - 1].entryHash.value; }
      NoLines();
      var hashes: seq<Digest> := [];
      for i := 0 to |entries|
        invariant hashes == ReceiptHashes(entries[..i])
      {
        assert entries[..i + 1][..i] == entries[..i];
        if entries[i].receiptHash.Some? { hashes := hashes + [entries[i].receiptHash.value]; }
      }
      assert entries[..|entries|] == entries;
      var covered := SortUnique(subjects + hashes, leq);
      var root := Merkle.MerkleRoot(Leaves(covered));
      var draft := Checkpoint(ledgerName, FileDigest(lines), tail, |entries|, covered, Some(root), "local-artifact",
                              Unset);
      checkpoint := Some(draft.(checkpointHash := CheckpointDigest(draft)));
      return None;
    }

    /** `atomic_write_receipt`. */
    method AtomicWriteReceipt(w: Write) returns (fault: Option<Fault>)
      modifies this
      ensures (Contents(), fault) == Issue(old(Contents()), w, leq)
    {
      hide ChainOk, Conflict, CheckpointOf, Appended, ChainFault;
      NoFaultIsChain(Lines(ledger));
      fault := RaiseOnLedgerConflict(w.receipt);
      if fault.Some? { return; }
      ghost var lines := Lines(ledger);
      receipts := receipts[w.path := w.receipt];
      fault := AppendLedger(w);
      if fault.None? {
        AppendedChain(lines, w);
        fault := CreateLedgerCheckpoint([w.receipt.receiptHash], w.ledgerName);
      }
      if fault.Some? {
        receipts := receipts - {w.path};
        assert receipts == old(receipts) - {w.path};
      }
    }
  }

  method SortUnique(items: seq<Digest>, leq: (Digest, Digest) -> bool) returns (sorted: seq<Digest>)
    ensures sorted == UniqueSorted(items, leq)
  {
    var unique := CollectUnique(items);
    sorted := Sort(unique, leq);
  }

  // ---------- whole runs ----------

  type HashOrder = (Digest, Digest) -> bool

  /** The files after a run of calls that started from nothing. */
  function FilesAfter(writes: seq<Write>, leq: HashOrder): Files {
    if writes == [] then NO_FILES else Issue(FilesAfter(writes[..|writes| - 1], leq), writes[|writes| - 1], leq).0
  }

  /** What call `k` of the run answered. */
  function Answer(writes: seq<Write>, k: nat, leq: HashOrder): Option<Fault>
    requires k < |writes|
  {
    Issue(FilesAfter(writes[..k], leq), writes[k], leq).1
  }

  /** The anti-reroll rule allows one receipt for the same package, candidate, suite and spec. */
  predicate SameKey(w: Write, v: Write) {
    && w.receipt.identityHash == v.receipt.identityHash && w.receipt.candidateHash == v.receipt.candidateHash
    && w.receipt.suiteLockHash == v.receipt.suiteLockHash && w.receipt.specHash == v.receipt.specHash
  }

  lemma {:induction false} SameKeyIsKey()
    ensures forall w, v :: SameKey(w, v) <==> LedgerKey(w.receipt) == LedgerKey(v.receipt)
  {
    hide LedgerKey, SameKey;
    forall w, v ensures SameKey(w, v) <==> LedgerKey(w.receipt) == LedgerKey(v.receipt) { KeyFields(w, v); }
  }

  lemma {:induction false} KeyFields(w: Write, v: Write)
    ensures SameKey(w, v) <==> LedgerKey(w.receipt) == LedgerKey(v.receipt)
  {
    hide LedgerKey;
    LedgerKeyBinds(w.receipt, v.receipt);
  }

  predicate KeyTaken(writes: seq<Write>, w: Write) {
    exists i :: 0 <= i < |writes| && SameKey(writes[i], w)
  }

  /** The first call for every key. */
  function Firsts(writes: seq<Write>): seq<Write> {
    if writes == [] then []
    else
      var front, last := writes[..|writes| - 1], writes[|writes| - 1];
      Firsts(front) + if KeyTaken(front, last) then [] else [last]
  }

  function Chain(writes: seq<Write>): seq<Entry> {
    if writes == [] then []
    else
      var front := Chain(writes[..|writes| - 1]);
      front + [NewEntry(writes[|writes| - 1], TailHash(front))]
  }

  function AsLines(es: seq<Entry>): seq<Line> {
    seq(|es|, i requires 0 <= i < |es| => Record(es[i]))
  }

  lemma {:induction false} EntriesOfLines(es: seq<Entry>)
    ensures Entries(AsLines(es)) == es
  {
    if es != [] {
      var front := es[..|es| - 1];
      EntriesOfLines(front);
      assert AsLines(es)[..|es| - 1] == AsLines(front);
    }
  }

  lemma {:induction false} ChainLinked(writes: seq<Write>)
    ensures Linked(Chain(writes))
  {
    hide NewEntry, LinksTo;
    if writes != [] {
      var front := writes[..|writes| - 1];
      ChainLinked(front);
      NewEntryLinks(writes[|writes| - 1], TailHash(Chain(front)));
      LinkedSnoc(Chain(front), NewEntry(writes[|writes| - 1], TailHash(Chain(front))));
    }
  }

  /** Entry `i` records call `i`. */
  lemma {:induction false} ChainFields(writes: seq<Write>)
    ensures |Chain(writes)| == |writes|
    ensures forall i :: 0 <= i < |writes| ==> Records(Chain(writes)[i], writes[i].receipt)
  {
    if writes != [] {
      ChainFields(writes[..|writes| - 1]);
    }
  }

  lemma {:induction false} FirstsContents(writes: seq<Write>)
    ensures forall w :: KeyTaken(writes, w) <==> KeyTaken(Firsts(writes), w)
    ensures forall i, j :: 0 <= i < j < |Firsts(writes)| ==> !SameKey(Firsts(writes)[i], Firsts(writes)[j])
    ensures forall w :: w in Firsts(writes) ==> w in writes
  {
    hide SameKey;
    if writes != [] {
      var front, last := writes[..|writes| - 1], writes[|writes| - 1];
      FirstsContents(front);
      assert writes == front + [last];
      SameKeyLaws();
      forall w ensures KeyTaken(writes, w) <==> KeyTaken(front, w) || SameKey(last, w) { KeyTakenSnoc(front, last, w); }
      forall w ensures KeyTaken(Firsts(front) + [last], w) <==> KeyTaken(Firsts(front), w) || SameKey(last, w) {
        KeyTakenSnoc(Firsts(front), last, w);
      }
      if KeyTaken(front, last) {
        assert Firsts(writes) == Firsts(front);
        forall w | SameKey(last, w) ensures KeyTaken(front, w) {
          var i :| 0 <= i < |front| && SameKey(front[i], last);
          assert SameKey(front[i], w);
        }
      }
    }
  }

  lemma {:induction false} SameKeyLaws()
    ensures forall w, v :: SameKey(w, v) ==> SameKey(v, w)
    ensures forall w, v, u :: SameKey(w, v) && SameKey(v, u) ==> SameKey(w, u)
  {
  }

  lemma {:induction false} KeyTakenSnoc(front: seq<Write>, last: Write, w: Write)
    ensures KeyTaken(front + [last], w) <==> KeyTaken(front, w) || SameKey(last, w)
  {
    hide SameKey;
    var all := front + [last];
    assert all[|front|] == last;
    if i :| 0 <= i < |front| && SameKey(front[i], w) { assert all[i] == front[i]; }
  }

  /** The state of the files after any run: the ledger is the chain of the first calls, and the
      checkpoint was made for it. */
  ghost predicate InStep(files: Files, firsts: seq<Write>, leq: HashOrder) {
    && (files.ledger.None? ==> firsts == [] && files.checkpoint.None?)
    && (files.ledger.Some? ==>
          && files.ledger.value == AsLines(Chain(firsts))
          && exists k: nat, name :: k < |firsts| &&
               files.checkpoint == Some(CheckpointOf(files.ledger.value, [firsts[k].receipt.receiptHash], name, leq)))
  }

  /** On a ledger of first calls, a call goes through exactly when its key is new. */
  lemma {:induction false} ConflictIsReroll(firsts: seq<Write>, w: Write)
    ensures Conflict(AsLines(Chain(firsts)), w.receipt) == if KeyTaken(firsts, w) then Some(Reroll) else None
  {
    hide LedgerKey, SameKey;
    SameKeyIsKey();
    var lines := AsLines(Chain(firsts));
    ChainFields(firsts);
    NoConflictParsed(lines, w.receipt);
    AllRecords(lines, w.receipt);
    assert forall i :: 0 <= i < |firsts| ==> lines[i].entry.keyHash == Some(LedgerKey(firsts[i].receipt));
  }

  lemma {:induction false} AllRecords(lines: seq<Line>, r: Receipt)
    requires forall i :: 0 <= i < |lines| ==> lines[i].Record?
    ensures Conflict(lines, r) in {None, Some(Reroll)}
  {
    hide LedgerKey;
    if lines != [] {
      AllRecords(lines[..|lines| - 1], r);
    }
  }

  lemma {:induction false} ChainLinesOk(firsts: seq<Write>)
    ensures ChainOk(AsLines(Chain(firsts))) && Entries(AsLines(Chain(firsts))) == Chain(firsts)
  {
    ChainLinked(firsts);
    EntriesOfLines(Chain(firsts));
  }

  lemma {:induction false} AppendedLines(firsts: seq<Write>, w: Write)
    ensures Appended(AsLines(Chain(firsts)), w) == AsLines(Chain(firsts + [w]))
  {
  }

  lemma {:induction false} StepInStep(files: Files, firsts: seq<Write>, w: Write, leq: HashOrder)
    requires InStep(files, firsts, leq)
    ensures var (after, fault) := Issue(files, w, leq);
      && InStep(after, if KeyTaken(firsts, w) then firsts else firsts + [w], leq)
      && fault == (if KeyTaken(firsts, w) then Some(Reroll) else None)
      && (fault.Some? ==> after == files)
  {
    hide ChainFault, Chain, AsLines, Conflict, ChainOk, CheckpointOf, Appended, SameKey;
    assert Lines(files.ledger) == AsLines(Chain(firsts)) by { NoEntries(); }
    ConflictIsReroll(firsts, w);
    ChainLinesOk(firsts);
    NoFaultIsChain(AsLines(Chain(firsts)));
    AppendedLines(firsts, w);
    assert (firsts + [w])[|firsts|] == w;
  }

  lemma {:induction false} NoEntries()
    ensures AsLines(Chain([])) == []
  {
  }

  ghost predicate FirstKeyWins(writes: seq<Write>, k: nat, leq: HashOrder)
    requires k < |writes|
  {
    && Answer(writes, k, leq) == (if KeyTaken(writes[..k], writes[k]) then Some(Reroll) else None)
    && (Answer(writes, k, leq).Some? ==> FilesAfter(writes[..k + 1], leq) == FilesAfter(writes[..k], leq))
  }

  lemma {:induction false} FirstKeyWinsPrefix(front: seq<Write>, last: Write, k: nat, leq: HashOrder)
    requires k < |front| && FirstKeyWins(front, k, leq)
    ensures FirstKeyWins(front + [last], k, leq)
  {
    hide FilesAfter, Issue, KeyTaken;
    var all := front + [last];
    assert all[..k] == front[..k] && all[k] == front[k] && all[..k + 1] == front[..k + 1];
  }

  lemma {:induction false} LastStep(front: seq<Write>, last: Write, leq: HashOrder)
    requires InStep(FilesAfter(front, leq), Firsts(front), leq)
    ensures InStep(FilesAfter(front + [last], leq), Firsts(front + [last]), leq) &&
      FirstKeyWins(front + [last], |front|, leq)
  {
    hide Issue, InStep, SameKey, KeyTaken;
    var all := front + [last];
    assert all[..|front|] == front && all[..|front| + 1] == all;
    StepInStep(FilesAfter(front, leq), Firsts(front), last, leq);
    FirstsContents(front);
    assert Firsts(front) + [] == Firsts(front);
  }

  /** After any run from nothing, the ledger is the chain of the first call for every key; a call is
      answered with a conflict exactly when an earlier call had its key, and then nothing changes. */
  lemma {:induction false} LedgerRuns(writes: seq<Write>, leq: HashOrder)
    ensures InStep(FilesAfter(writes, leq), Firsts(writes), leq)
    ensures forall k: nat :: k < |writes| ==> FirstKeyWins(writes, k, leq)
  {
    hide FilesAfter, Firsts, InStep, FirstKeyWins;
    if writes == [] {
      StartInStep(leq);
    } else {
      var front, last := writes[..|writes| - 1], writes[|writes| - 1];
      assert writes == front + [last];
      LedgerRuns(front, leq);
      LastStep(front, last, leq);
      forall k: nat | k < |writes| ensures FirstKeyWins(writes, k, leq) {
        if k < |front| { FirstKeyWinsPrefix(front, last, k, leq); }
      }
    }
  }

  lemma {:induction false} StartInStep(leq: HashOrder)
    ensures FilesAfter([], leq) == NO_FILES && Firsts([]) == [] && InStep(NO_FILES, [], leq)
  {
  }

  /** Two receipts of the same package, candidate, suite and spec. */
  predicate AgreeInAllFour(r: Receipt, q: Receipt) {
    && r.identityHash == q.identityHash && r.candidateHash == q.candidateHash
    && r.suiteLockHash == q.suiteLockHash && r.specHash == q.specHash
  }

  /** A call of a run is refused exactly when an earlier receipt agrees with its own in package, candidate, suite and
      spec, and then no file changes; otherwise it goes through. */
  lemma {:induction false} RefusedExactly(writes: seq<Write>, k: nat, leq: HashOrder)
    requires TotalOrder(leq) && k < |writes|
    ensures var files, w := FilesAfter(writes[..k], leq), writes[k];
      var refused := exists i :: 0 <= i < k && AgreeInAllFour(writes[i].receipt, w.receipt);
      && Issue(files, w, leq).1 == (if refused then Some(Reroll) else None)
      && (refused ==> FilesAfter(writes[..k + 1], leq) == files)
      && (!refused ==> Written(files.receipts, if files.ledger.Some? then files.ledger.value else [],
                               FilesAfter(writes[..k + 1], leq), w, leq))
  {
    hide Issue, FilesAfter, Written, FirstKeyWins, InStep, Firsts, Conflict, ChainOk;
    LedgerRuns(writes, leq);
    LedgerRuns(writes[..k], leq);
    AnswersAre(writes, k, leq);
    if Answer(writes, k, leq).None? {
      RunsAreChains(FilesAfter(writes[..k], leq), Firsts(writes[..k]), leq);
      AcceptedScan(FilesAfter(writes[..k], leq), writes[k], leq);
      IssueWrites(FilesAfter(writes[..k], leq), writes[k], leq);
    }
  }

  lemma {:induction false} AnswersAre(writes: seq<Write>, k: nat, leq: HashOrder)
    requires k < |writes| && FirstKeyWins(writes, k, leq)
    ensures Answer(writes, k, leq) == if exists i :: 0 <= i < k && AgreeInAllFour(writes[i].receipt, writes[k].receipt)
      then Some(Reroll) else None
    ensures Answer(writes, k, leq).Some? ==> FilesAfter(writes[..k + 1], leq) == FilesAfter(writes[..k], leq)
    ensures FilesAfter(writes[..k + 1], leq) == Issue(FilesAfter(writes[..k], leq), writes[k], leq).0
  {
    hide Issue;
    assert writes[..k + 1][..k] == writes[..k] && writes[..k + 1][k] == writes[k];
    if i :| 0 <= i < k && AgreeInAllFour(writes[i].receipt, writes[k].receipt) {
      assert SameKey(writes[..k][i], writes[k]);
    }
  }

  lemma {:induction false} RunsAreChains(files: Files, firsts: seq<Write>, leq: HashOrder)
    requires InStep(files, firsts, leq)
    ensures ChainOk(Lines(files.ledger))
  {
    hide ChainOk, Chain, AsLines;
    ChainLinesOk(firsts);
    NoLines();
  }

  lemma {:induction false} AcceptedScan(files: Files, w: Write, leq: HashOrder)
    requires Issue(files, w, leq).1.None?
    ensures Conflict(Lines(files.ledger), w.receipt).None?
  {
    hide Conflict, ChainFault, CheckpointOf, Appended;
  }

  // ---------- what the verifier says of a run's receipts ----------

  lemma {:induction false} FirstsGrow(writes: seq<Write>, k: nat)
    requires k <= |writes|
    ensures Firsts(writes[..k]) <= Firsts(writes)
  {
    if k < |writes| {
      var front := writes[..|writes| - 1];
      FirstsGrow(front, k);
      assert front[..k] == writes[..k];
    } else {
      assert writes[..k] == writes;
    }
  }

  lemma {:induction false} ChainGrows(a: seq<Write>, b: seq<Write>)
    requires a <= b
    ensures Chain(a) <= Chain(b)
  {
    if |a| < |b| {
      ChainGrows(a, b[..|b| - 1]);
    } else {
      assert a == b;
    }
  }

  /** The ledger only ever grows at its end. */
  lemma {:induction false} AppendOnly(writes: seq<Write>, k: nat, leq: HashOrder)
    requires k <= |writes|
    ensures Lines(FilesAfter(writes[..k], leq).ledger) <= Lines(FilesAfter(writes, leq).ledger)
  {
    hide FilesAfter, Firsts, Chain;
    LedgerRuns(writes, leq);
    LedgerRuns(writes[..k], leq);
    FirstsGrow(writes, k);
    ChainGrows(Firsts(writes[..k]), Firsts(writes));
    assert AsLines(Chain([])) == [] by { NoEntries(); }
    var a, b := Chain(Firsts(writes[..k])), Chain(Firsts(writes));
    assert AsLines(b)[..|a|] == AsLines(a);
  }

  predicate HasHash(writes: seq<Write>, d: Digest) {
    exists i :: 0 <= i < |writes| && writes[i].receipt.receiptHash == d
  }

  lemma {:induction false} ReceiptHashesOfChain(writes: seq<Write>)
    ensures forall d :: d in ReceiptHashes(Chain(writes)) <==> HasHash(writes, d)
  {
    hide LedgerKey;
    if writes != [] {
      var front, last := writes[..|writes| - 1], writes[|writes| - 1];
      ReceiptHashesOfChain(front);
      assert Chain(writes)[..|Chain(writes)| - 1] == Chain(front);
      forall d ensures d in ReceiptHashes(Chain(writes)) <==>
        d in ReceiptHashes(Chain(front)) || d == last.receipt.receiptHash {
      }
      forall d ensures HasHash(writes, d) <==> HasHash(front, d) || d == last.receipt.receiptHash {
        if i :| 0 <= i < |front| && front[i].receipt.receiptHash == d { assert writes[i] == front[i]; }
        if last.receipt.receiptHash == d { assert writes[|writes| - 1].receipt.receiptHash == d; }
      }
    }
  }

  /** A checkpoint made for a ledger covers exactly the hashes in it (and its own subjects). */
  lemma {:induction false} CheckpointCovers(lines: seq<Line>, subjects: seq<Digest>, name: string, leq: HashOrder,
                                            d: Digest)
    requires TotalOrder(leq)
    ensures Covers(CheckpointOf(lines, subjects, name, leq), lines, d) <==>
      d in subjects || d in ReceiptHashes(Entries(lines))
  {
    hide UniqueSorted, Merkle.Root, FileDigest, Entries, TailHash, ReceiptHashes;
    UniqueSortedContents(subjects + ReceiptHashes(Entries(lines)), leq);
    var c := CheckpointOf(lines, subjects, name, leq);
    assert CheckpointDigest(c) == CheckpointDigest(c.(checkpointHash := Unset));
  }

  /** On a chain of first calls, a receipt is listed exactly when one of them recorded it. */
  lemma {:induction false} ListedExactly(firsts: seq<Write>, r: Receipt)
    requires forall i, j :: 0 <= i < j < |firsts| ==> !SameKey(firsts[i], firsts[j])
    ensures |Chain(firsts)| == |firsts|
    ensures Listed(AsLines(Chain(firsts)), r) <==> exists i :: 0 <= i < |firsts| && Records(Chain(firsts)[i], r)
  {
    hide Chain, AsLines, ChainOk, LedgerKey, SameKey;
    SameKeyIsKey();
    ChainLinesOk(firsts);
    ChainFields(firsts);
    var es := Chain(firsts);
    if i :| 0 <= i < |firsts| && Records(es[i], r) {
      forall j | 0 <= j < |es| && es[j].keyHash == Some(LedgerKey(r)) ensures j == i {
        assert SameKey(firsts[i], firsts[j]) && SameKey(firsts[j], firsts[i]);
      }
      assert Undisputed(es, r) && Seen(es, r);
    }
    if Listed(AsLines(es), r) {
      var i :| 0 <= i < |es| && es[i].keyHash == Some(LedgerKey(r));
      assert Records(es[i], r);
    }
  }

  predicate SelfHashed(r: Receipt) {
    r.receiptHash == ComputeReceiptHash(r)
  }

  predicate Accepted(firsts: seq<Write>, r: Receipt) {
    exists i :: 0 <= i < |firsts| && firsts[i].receipt == r
  }

  /** A call wrote the receipt, and no call before it one for the same package, candidate, suite and spec. */
  ghost predicate FirstWrite(writes: seq<Write>, r: Receipt) {
    exists i :: 0 <= i < |writes| && writes[i].receipt == r && !Preempted(writes[..i], r)
  }

  ghost predicate Preempted(writes: seq<Write>, r: Receipt) {
    exists j :: 0 <= j < |writes| && AgreeInAllFour(writes[j].receipt, r)
  }

  lemma {:induction false} FirstsAre(writes: seq<Write>, r: Receipt)
    ensures Accepted(Firsts(writes), r) <==> FirstWrite(writes, r)
  {
    hide SameKey, Preempted, Accepted, FirstWrite;
    if writes == [] {
      NothingFirst(r);
    } else {
      var front, last := writes[..|writes| - 1], writes[|writes| - 1];
      assert writes == front + [last];
      FirstsAre(front, r);
      FirstWriteSnoc(front, last, r);
      AcceptedSnoc(Firsts(front), last, r);
      if last.receipt == r { TakenIsPreempted(front, last); }
      assert Firsts(front) + [] == Firsts(front);
    }
  }

  lemma {:induction false} NothingFirst(r: Receipt)
    ensures !Accepted(Firsts([]), r) && !FirstWrite([], r)
  {
  }

  lemma {:induction false} FirstWriteSnoc(front: seq<Write>, last: Write, r: Receipt)
    ensures FirstWrite(front + [last], r) <==> FirstWrite(front, r) || (last.receipt == r && !Preempted(front, r))
  {
    hide Preempted;
    var all := front + [last];
    assert all[..|front|] == front && all[|front|] == last;
    assert forall i :: 0 <= i < |front| ==> all[i] == front[i] && all[..i] == front[..i];
  }

  lemma {:induction false} AcceptedSnoc(front: seq<Write>, last: Write, r: Receipt)
    ensures Accepted(front + [last], r) <==> Accepted(front, r) || last.receipt == r
  {
    var all := front + [last];
    assert all[|front|] == last;
    assert forall i :: 0 <= i < |front| ==> all[i] == front[i];
  }

  lemma {:induction false} TakenIsPreempted(front: seq<Write>, last: Write)
    ensures KeyTaken(front, last) <==> Preempted(front, last.receipt)
  {
    if Preempted(front, last.receipt) {
      var j :| 0 <= j < |front| && AgreeInAllFour(front[j].receipt, last.receipt);
      assert SameKey(front[j], last);
    }
    if i :| 0 <= i < |front| && SameKey(front[i], last) {
      assert AgreeInAllFour(front[i].receipt, last.receipt);
    }
  }

  /** After any run of self-hashed receipts, the verifier's ledger check against the current checkpoint
      accepts a self-hashed receipt exactly when one call wrote it and no call before agreed with it in
      package, candidate, suite and spec, so every receipt ever issued stays clean and nothing else is. */
  lemma {:induction false} IssuedExactly(writes: seq<Write>, r: Receipt, leq: HashOrder, t: Trust)
    requires TotalOrder(leq) && writes != [] && SelfHashed(r)
    requires forall i :: 0 <= i < |writes| ==> SelfHashed(writes[i].receipt)
    ensures var files := FilesAfter(writes, leq);
      && files.ledger.Some? && files.checkpoint.Some?
      && (LedgerAccepts(files.ledger, r, Loaded(files.checkpoint.value), t) <==>
            Attested(files.checkpoint.value, t) && FirstWrite(writes, r))
  {
    hide FirstWrite, FilesAfter, Firsts, Chain, AsLines, Listed, Covers, Attested, SameKey, KeyTaken, SelfHashed,
      Records;
    var firsts := Firsts(writes);
    FirstsContents(writes);
    FirstsAre(writes, r);
    ListedExactly(firsts, r);
    CurrentCheckpoint(writes, leq, r.receiptHash);
    forall i | 0 <= i < |firsts| ensures Records(Chain(firsts)[i], r) <==> firsts[i].receipt == r {
      assert firsts[i] in writes;
      RecordedIsReceipt(firsts, i, r);
    }
  }

  lemma {:induction false} CurrentCheckpoint(writes: seq<Write>, leq: HashOrder, d: Digest)
    requires TotalOrder(leq) && writes != []
    ensures var files := FilesAfter(writes, leq);
      && files.ledger == Some(AsLines(Chain(Firsts(writes)))) && files.checkpoint.Some?
      && (Covers(files.checkpoint.value, files.ledger.value, d) <==> HasHash(Firsts(writes), d))
  {
    hide FilesAfter, Firsts, Chain, AsLines, CheckpointOf, Covers, SameKey, FirstKeyWins, ReceiptHashes, HasHash;
    LedgerRuns(writes, leq);
    var files, firsts := FilesAfter(writes, leq), Firsts(writes);
    FirstExists(writes);
    var k: nat, name :| k < |firsts| &&
      files.checkpoint == Some(CheckpointOf(files.ledger.value, [firsts[k].receipt.receiptHash], name, leq));
    CheckpointCovers(files.ledger.value, [firsts[k].receipt.receiptHash], name, leq, d);
    ChainLinesOk(firsts);
    ReceiptHashesOfChain(firsts);
    HasOwnHash(firsts, k);
  }

  lemma {:induction false} HasOwnHash(writes: seq<Write>, k: nat)
    requires k < |writes|
    ensures HasHash(writes, writes[k].receipt.receiptHash)
  {
  }

  lemma {:induction false} FirstExists(writes: seq<Write>)
    requires writes != []
    ensures Firsts(writes) != []
  {
    FirstsContents(writes);
    assert SameKey(writes[0], writes[0]);
    assert KeyTaken(writes, writes[0]);
  }

  lemma {:induction false} RecordedIsReceipt(firsts: seq<Write>, i: nat, r: Receipt)
    requires i < |firsts| && SelfHashed(r) && SelfHashed(firsts[i].receipt)
    ensures |Chain(firsts)| == |firsts|
    ensures Records(Chain(firsts)[i], r) <==> firsts[i].receipt == r
  {
    hide EncodeReceipt, LedgerKey;
    ChainFields(firsts);
    Encodings.ReceiptHashBinds(firsts[i].receipt, r);
  }

  /** A checkpoint taken before the ledger grew is refused for every receipt. */
  lemma {:induction false} StaleCheckpointRefused(writes: seq<Write>, k: nat, r: Receipt, leq: HashOrder, t: Trust)
    requires TotalOrder(leq) && 0 < k <= |writes| && |Firsts(writes[..k])| < |Firsts(writes)|
    ensures var now, then_ := FilesAfter(writes, leq), FilesAfter(writes[..k], leq);
      then_.checkpoint.Some? && !LedgerAccepts(now.ledger, r, Loaded(then_.checkpoint.value), t)
  {
    hide FilesAfter, Firsts, AsLines, Chain, Listed, Attested, UniqueSorted, Merkle.Root, FileDigest, TailHash,
      ReceiptHashes;
    LedgerRuns(writes, leq);
    LedgerRuns(writes[..k], leq);
    FirstExists(writes[..k]);
    ChainLinesOk(Firsts(writes));
    ChainLinesOk(Firsts(writes[..k]));
    ChainFields(Firsts(writes));
    ChainFields(Firsts(writes[..k]));
  }
}
