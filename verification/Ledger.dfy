/** The issuance ledger: an append-only hash chain with one entry per issued receipt, the checkpoint
    written after every append (`receipt.py`), and the walkers that read the chain back
    (`verifier.py`, `runner.py`, `service/release.py`). */
module Ledger {
  import opened Wrappers
  import opened Models
  import opened Digests
  import opened Ordering
  import opened Receipts
  import Merkle
  import Runner

  /** A parsed line.  A field that is absent, or is not a text, is `None`; `other` holds the rest. */
  datatype Entry = Entry(keyHash: Option<Digest>, status: Option<Status>, receiptHash: Option<Digest>,
                         previous: Option<Digest>, other: Value, entryHash: Option<Digest>)

  /** `Unhashable` is an object that holds a raw float: its fields can be read, but `hash_obj` refuses it. */
  datatype Line =
    | Blank(text: string) | NotJson(text: string) | NotObject(value: Value)
    | Record(entry: Entry) | Unhashable(entry: Entry)

  function OptStatus(s: Option<Status>): Value {
    if s.None? then Null else OfStatus(s.value)
  }

  /** The hash of an entry covers every field but the hash itself. */
  function EntryDigest(e: Entry): Digest {
    HashObj(Rec("entry", [OptHash(e.keyHash), OptStatus(e.status), OptHash(e.receiptHash), OptHash(e.previous),
                          e.other]))
  }

  function EncodeLine(line: Line): Value {
    match line
    case Blank(t) => Rec("blank", [Text(t)])
    case NotJson(t) => Rec("not_json", [Text(t)])
    case NotObject(v) => Rec("not_object", [v])
    case Record(e) => Rec("record", [Hash(EntryDigest(e)), OptHash(e.entryHash)])
    case Unhashable(e) => Rec("unhashable", [Hash(EntryDigest(e)), OptHash(e.entryHash)])
  }

  function FileDigest(lines: seq<Line>): Digest {
    HashObj(Arr(seq(|lines|, i requires 0 <= i < |lines| => EncodeLine(lines[i]))))
  }

  /** What the anti-reroll rule allows one receipt for. */
  function LedgerKey(r: Receipt): Digest {
    HashObj(Rec("ledger_key", [Hash(r.identityHash), Hash(r.candidateHash), Hash(r.suiteLockHash), Hash(r.specHash)]))
  }

  /** Two receipts have one key exactly when package, candidate, suite and spec are the same. */
  lemma {:induction false} LedgerKeyBinds(r: Receipt, q: Receipt)
    ensures LedgerKey(r) == LedgerKey(q) <==>
      && r.identityHash == q.identityHash && r.candidateHash == q.candidateHash
      && r.suiteLockHash == q.suiteLockHash && r.specHash == q.specHash
  {
    var x, y := LedgerKey(r).payload.fields, LedgerKey(q).payload.fields;
    assert x == y ==> x[0] == y[0] && x[1] == y[1] && x[2] == y[2] && x[3] == y[3];
  }

  // ---------- the chain ----------

  function Entries(lines: seq<Line>): seq<Entry> {
    if lines == [] then []
    else
      var last := lines[|lines| - 1];
      Entries(lines[..|lines| - 1]) + if last.Record? then [last.entry] else []
  }

  function TailHash(es: seq<Entry>): Digest {
    if es == [] then Genesis else EntryDigest(es[|es| - 1])
  }

  predicate LinksTo(e: Entry, previous: Digest) {
    e.entryHash == Some(EntryDigest(e)) && e.previous == Some(previous)
  }

  predicate Linked(es: seq<Entry>) {
    forall i :: 0 <= i < |es| ==> LinksTo(es[i], TailHash(es[..i]))
  }

  predicate Parsed(lines: seq<Line>) {
    forall i :: 0 <= i < |lines| ==> lines[i].Blank? || lines[i].Record?
  }

  /** Every line parses and the entries form a chain from genesis. */
  predicate ChainOk(lines: seq<Line>) {
    Parsed(lines) && Linked(Entries(lines))
  }

  lemma {:induction false} EntriesSnoc(lines: seq<Line>, i: nat)
    requires i < |lines|
    ensures Entries(lines[..i + 1]) == Entries(lines[..i]) + if lines[i].Record? then [lines[i].entry] else []
  {
    assert lines[..i + 1][..i] == lines[..i];
  }

  lemma {:induction false} LinkedSnoc(es: seq<Entry>, e: Entry)
    ensures Linked(es + [e]) <==> Linked(es) && LinksTo(e, TailHash(es))
  {
    var all := es + [e];
    assert forall i :: 0 <= i <= |es| ==> all[..i] == es[..i];
    assert es[..|es|] == es;
    assert forall i :: 0 <= i < |es| ==> all[i] == es[i];
    if Linked(all) {
      assert LinksTo(all[|es|], TailHash(all[..|es|]));
    }
  }

  lemma {:induction false} EntriesAppend(a: seq<Line>, b: seq<Line>)
    ensures Entries(a + b) == Entries(a) + Entries(b)
    decreases |b|
  {
    if b == [] {
      assert a + b == a;
    } else {
      EntriesAppend(a, b[..|b| - 1]);
      assert (a + b)[..|a + b| - 1] == a + b[..|b| - 1];
    }
  }

  lemma {:induction false} ChainPrefix(lines: seq<Line>, i: nat)
    requires i <= |lines| && ChainOk(lines)
    ensures ChainOk(lines[..i])
  {
    EntriesAppend(lines[..i], lines[i..]);
    assert lines[..i] + lines[i..] == lines;
    var all, front := Entries(lines), Entries(lines[..i]);
    forall k | 0 <= k < |front| ensures LinksTo(front[k], TailHash(front[..k])) {
      assert front[k] == all[k] && front[..k] == all[..k];
    }
  }

  lemma {:induction false} EmptyChain(lines: seq<Line>)
    ensures ChainOk(lines[..0]) && Entries(lines[..0]) == []
  {
  }

  lemma {:induction false} ParsedStep(lines: seq<Line>, i: nat)
    requires i < |lines|
    ensures Parsed(lines[..i + 1]) <==> Parsed(lines[..i]) && (lines[i].Blank? || lines[i].Record?)
  {
  }

  /** One more line keeps the chain exactly when it is blank or links to the tail. */
  lemma {:induction false} ChainStep(lines: seq<Line>, i: nat)
    requires i < |lines|
    ensures ChainOk(lines[..i + 1]) <==>
      ChainOk(lines[..i]) && (lines[i].Blank? ||
                              (lines[i].Record? && LinksTo(lines[i].entry, TailHash(Entries(lines[..i])))))
  {
    hide Linked, TailHash, LinksTo, Entries, Parsed;
    EntriesSnoc(lines, i);
    ParsedStep(lines, i);
    if lines[i].Record? {
      LinkedSnoc(Entries(lines[..i]), lines[i].entry);
    } else {
      assert Entries(lines[..i]) + [] == Entries(lines[..i]);
    }
  }

  /** Two chains with the same tail hash are the same entries. */
  lemma {:induction false} ChainUniqueness(a: seq<Entry>, b: seq<Entry>)
    requires Linked(a) && Linked(b) && TailHash(a) == TailHash(b)
    ensures a == b
  {
    if a != [] && b != [] {
      var x, y := a[|a| - 1], b[|b| - 1];
      LinkedSnoc(a[..|a| - 1], x);
      LinkedSnoc(b[..|b| - 1], y);
      assert a == a[..|a| - 1] + [x] && b == b[..|b| - 1] + [y];
      EntryDigestBinds(x, y);
      ChainUniqueness(a[..|a| - 1], b[..|b| - 1]);
    }
  }

  lemma {:induction false} EntryDigestBinds(x: Entry, y: Entry)
    requires EntryDigest(x) == EntryDigest(y)
    ensures x.(entryHash := y.entryHash) == y
  {
  }

  /** Entry `i` carries the hash of its own fields, and the hash of the entry before it: genesis for the first. */
  ghost predicate InPlace(es: seq<Entry>, i: nat)
    requires i < |es|
  {
    es[i].entryHash == Some(EntryDigest(es[i])) && es[i].previous == if i == 0 then Some(Genesis)
      else es[i - 1].entryHash
  }

  ghost predicate AllInPlace(es: seq<Entry>) {
    forall i :: 0 <= i < |es| ==> InPlace(es, i)
  }

  /** A chain: every line is blank or an entry, and every entry is in its place. */
  lemma {:induction false} ChainExactly(lines: seq<Line>)
    ensures ChainOk(lines) <==>
      && (forall i :: 0 <= i < |lines| ==> lines[i].Blank? || lines[i].Record?)
      && AllInPlace(Entries(lines))
  {
    LinkedExactly(Entries(lines));
  }

  lemma {:induction false} LinkedExactly(es: seq<Entry>)
    ensures Linked(es) <==> AllInPlace(es)
  {
    hide InPlace, LinksTo, EntryDigest;
    if es != [] {
      var front, last := es[..|es| - 1], es[|es| - 1];
      assert es == front + [last];
      LinkedExactly(front);
      LinkedSnoc(front, last);
      forall i | 0 <= i < |front| ensures InPlace(es, i) <==> InPlace(front, i) { InPlaceSnoc(front, last, i); }
      if Linked(front) { LastInPlace(front, last); }
    }
  }

  lemma {:induction false} InPlaceSnoc(front: seq<Entry>, last: Entry, i: nat)
    requires i < |front|
    ensures InPlace(front + [last], i) <==> InPlace(front, i)
  {
    hide EntryDigest;
  }

  lemma {:induction false} LastInPlace(front: seq<Entry>, last: Entry)
    requires Linked(front)
    ensures InPlace(front + [last], |front|) <==> LinksTo(last, TailHash(front))
  {
    hide EntryDigest;
    if front != [] { assert LinksTo(front[|front| - 1], TailHash(front[..|front| - 1])); }
  }

  lemma {:induction false} EntriesAre(lines: seq<Line>, e: Entry)
    ensures e in Entries(lines) <==> Record(e) in lines
    ensures |Entries(lines)| <= |lines|
    ensures (forall i :: 0 <= i < |lines| ==> lines[i].Record?) ==> |Entries(lines)| == |lines|
  {
    if lines != [] {
      var front := lines[..|lines| - 1];
      EntriesAre(front, e);
      assert lines == front + [lines[|lines| - 1]];
    }
  }

  lemma {:induction false} EntryDigestSplits(x: Entry, y: Entry)
    ensures EntryDigest(x) == EntryDigest(y) <==> x.(entryHash := y.entryHash) == y
  {
    if EntryDigest(x) == EntryDigest(y) { EntryDigestBinds(x, y); }
  }

  /** The hash of the file pins every line of it. */
  lemma {:induction false} FileDigestBinds(a: seq<Line>, b: seq<Line>)
    ensures FileDigest(a) == FileDigest(b) <==> a == b
  {
    if FileDigest(a) == FileDigest(b) {
      var x, y := FileDigest(a).payload.items, FileDigest(b).payload.items;
      hide EntryDigest;
      assert |a| == |x| == |y| == |b|;
      forall i | 0 <= i < |a| ensures a[i] == b[i] {
        assert x[i] == EncodeLine(a[i]) && y[i] == EncodeLine(b[i]);
        EncodeLineBinds(a[i], b[i]);
      }
    }
  }

  lemma {:induction false} EncodeLineBinds(a: Line, b: Line)
    requires EncodeLine(a) == EncodeLine(b)
    ensures a == b
  {
    hide EntryDigest;
    var x, y := EncodeLine(a).fields, EncodeLine(b).fields;
    assert x[0] == y[0];
    if a.Record? || a.Unhashable? {
      assert x[1] == y[1];
      EntryDigestBinds(a.entry, b.entry);
    }
  }

  // ---------- readers ----------

  datatype Fault = BadJson | BrokenChain | NotAnObject | RawFloat | Reroll

  /** What a reader says of the line that breaks the chain; `entry_hash` is looked at before anything is hashed. */
  function FaultOf(line: Line): Fault {
    match line
    case NotJson(_) => BadJson
    case NotObject(_) => NotAnObject
    case Unhashable(e) => if e.entryHash.None? then BrokenChain else RawFloat
    case _ => BrokenChain
  }

  /** The fault of the first line that breaks the chain. */
  function ChainFault(lines: seq<Line>): Option<Fault> {
    if lines == [] then None
    else
      var earlier := ChainFault(lines[..|lines| - 1]);
      if earlier.Some? then earlier else if ChainOk(lines) then None else Some(FaultOf(lines[|lines| - 1]))
  }

  /** The walk stops at the first line that breaks the chain. */
  ghost predicate StopsAt(lines: seq<Line>, k: nat) {
    k < |lines| && ChainOk(lines[..k]) && !ChainOk(lines[..k + 1])
  }

  lemma {:induction false} StopsOnce(lines: seq<Line>, i: nat)
    requires StopsAt(lines, i)
    ensures !ChainOk(lines) && forall k: nat :: StopsAt(lines, k) ==> k == i
  {
    hide ChainOk;
    forall k: nat | i < k <= |lines| ensures !ChainOk(lines[..k]) {
      assert lines[..k][..i + 1] == lines[..i + 1];
      if ChainOk(lines[..k]) { ChainPrefix(lines[..k], i + 1); }
    }
    assert lines[..|lines|] == lines;
    forall k: nat | k <= i ensures ChainOk(lines[..k]) {
      ChainPrefix(lines[..i], k);
      assert lines[..i][..k] == lines[..k];
    }
  }

  lemma {:induction false} NoFaultIsChain(lines: seq<Line>)
    ensures ChainFault(lines).None? <==> ChainOk(lines)
  {
    hide ChainOk;
    if lines == [] {
      EmptyChain(lines);
    } else {
      var front := lines[..|lines| - 1];
      NoFaultIsChain(front);
      if ChainOk(lines) { ChainPrefix(lines, |front|); }
    }
  }

  /** The fault is told by the kind of the first line that breaks the chain. */
  lemma {:induction false} ChainFaultExactly(lines: seq<Line>, fault: Fault)
    ensures ChainFault(lines) == Some(fault) <==> exists k: nat :: StopsAt(lines, k) && match lines[k]
      case NotJson(_) => fault == BadJson
      case NotObject(_) => fault == NotAnObject
      case Unhashable(e) => fault == if e.entryHash.Some? then RawFloat else BrokenChain
      case Record(e) => fault == BrokenChain
      case Blank(_) => false
  {
    hide ChainOk;
    if ChainFault(lines).Some? {
      var k := FirstBreak(lines);
      FaultAt(lines, k);
      NoBlankBreak(lines, k);
    }
    forall k: nat | StopsAt(lines, k) ensures ChainFault(lines) == Some(FaultOf(lines[k])) { FaultAt(lines, k); }
  }

  lemma {:induction false} NoBlankBreak(lines: seq<Line>, k: nat)
    requires StopsAt(lines, k)
    ensures !lines[k].Blank?
  {
    hide ChainOk;
    ChainStep(lines, k);
  }

  lemma {:induction false} FirstBreak(lines: seq<Line>) returns (k: nat)
    requires ChainFault(lines).Some?
    ensures StopsAt(lines, k)
  {
    hide ChainOk;
    var front := lines[..|lines| - 1];
    if ChainFault(front).Some? {
      k := FirstBreak(front);
      assert front[..k] == lines[..k] && front[..k + 1] == lines[..k + 1];
    } else {
      k := |front|;
      NoFaultIsChain(front);
      assert lines[..k + 1] == lines;
    }
  }

  lemma {:induction false} FaultAt(lines: seq<Line>, k: nat)
    requires StopsAt(lines, k)
    ensures ChainFault(lines) == Some(FaultOf(lines[k]))
  {
    hide ChainOk, FaultOf;
    var front := lines[..|lines| - 1];
    if k < |front| {
      assert front[..k] == lines[..k] && front[..k + 1] == lines[..k + 1];
      FaultAt(front, k);
    } else {
      NoFaultIsChain(front);
      assert lines[..k + 1] == lines;
    }
  }

  /** `_read_ledger_entries`. */
  method ReadLedgerEntries(lines: seq<Line>) returns (result: Result<seq<Entry>, Fault>)
    ensures result.Ok? <==> ChainOk(lines)
    ensures result.Ok? ==> result.value == Entries(lines)
    ensures result.Err? ==> Some(result.error) == ChainFault(lines)
  {
    hide ChainOk, Entries;
    var entries: seq<Entry> := [];
    var previous := Genesis;
    EmptyChain(lines);
    for i := 0 to |lines|
      invariant ChainOk(lines[..i]) && entries == Entries(lines[..i]) && previous == TailHash(entries)
    {
      ChainStep(lines, i);
      EntriesSnoc(lines, i);
      if !ChainOk(lines[..i + 1]) {
        StopsOnce(lines, i);
        FaultAt(lines, i);
      }
      match lines[i] {
        case Blank(_) =>
        case NotJson(_) => return Err(BadJson);
        case NotObject(_) => return Err(NotAnObject);
        case Unhashable(entry) =>
          if entry.entryHash.None? { return Err(BrokenChain); }
          return Err(RawFloat);
        case Record(entry) =>
          if entry.entryHash.None? { return Err(BrokenChain); }
          if entry.entryHash.value != EntryDigest(entry) || entry.previous != Some(previous) {
            return Err(BrokenChain);
          }
          previous := entry.entryHash.value;
          entries := entries + [entry];
      }
    }
    assert lines[..|lines|] == lines;
    return Ok(entries);
  }

  datatype Outcome = Clean | Mismatch | Crash

  /** The entry that records this receipt: its key, its status and its hash. */
  predicate Records(e: Entry, r: Receipt) {
    e.keyHash == Some(LedgerKey(r)) && e.status == Some(r.status) && e.receiptHash == Some(r.receiptHash)
  }

  /** No entry under the receipt's key disputes it: there is at most one, and it records the receipt. */
  ghost predicate Undisputed(es: seq<Entry>, r: Receipt) {
    && (forall i :: 0 <= i < |es| && es[i].keyHash == Some(LedgerKey(r)) ==> Records(es[i], r))
    && (forall i, j :: 0 <= i < j < |es| && es[i].keyHash == Some(LedgerKey(r)) ==> es[j].keyHash != Some(LedgerKey(r)))
  }

  ghost predicate Seen(es: seq<Entry>, r: Receipt) {
    exists i :: 0 <= i < |es| && es[i].keyHash == Some(LedgerKey(r))
  }

  /** The ledger is a chain that holds exactly one entry under the receipt's key, and it records the receipt. */
  ghost predicate Listed(lines: seq<Line>, r: Receipt) {
    ChainOk(lines) && Undisputed(Entries(lines), r) && Seen(Entries(lines), r)
  }

  /** Reading the line raises something that the walks do not catch. */
  predicate Raises(line: Line) {
    line.NotObject? || (line.Unhashable? && line.entry.entryHash.Some?)
  }

  /** Such a line is reached before anything else is found wrong. */
  ghost predicate CrashesAt(lines: seq<Line>, r: Receipt, k: nat) {
    k < |lines| && Raises(lines[k]) && ChainOk(lines[..k]) && Undisputed(Entries(lines[..k]), r)
  }

  lemma {:induction false} UndisputedSnoc(es: seq<Entry>, e: Entry, r: Receipt)
    ensures Undisputed(es + [e], r) <==>
      Undisputed(es, r) && (e.keyHash == Some(LedgerKey(r)) ==> Records(e, r) && !Seen(es, r))
    ensures Seen(es + [e], r) <==> Seen(es, r) || e.keyHash == Some(LedgerKey(r))
  {
    hide LedgerKey, Records;
    var all := es + [e];
    assert forall i :: 0 <= i < |es| ==> all[i] == es[i];
    assert all[|es|] == e;
    if Undisputed(all, r) {
      assert Undisputed(es, r);
    }
    if Seen(all, r) && e.keyHash != Some(LedgerKey(r)) {
      var i :| 0 <= i < |all| && all[i].keyHash == Some(LedgerKey(r));
      assert es[i] == all[i];
    }
  }

  lemma {:induction false} UndisputedPrefix(a: seq<Entry>, b: seq<Entry>, r: Receipt)
    requires Undisputed(a + b, r)
    ensures Undisputed(a, r)
  {
    hide LedgerKey, Records;
    assert forall i :: 0 <= i < |a| ==> (a + b)[i] == a[i];
  }

  /** Once the walk over the first `i` lines is dirty, the whole ledger is neither listed nor a crash from there on. */
  lemma {:induction false} DirtyStays(lines: seq<Line>, i: nat, r: Receipt)
    requires i <= |lines| && !(ChainOk(lines[..i]) && Undisputed(Entries(lines[..i]), r))
    ensures !Listed(lines, r) && forall k: nat :: i <= k ==> !CrashesAt(lines, r, k)
  {
    hide LedgerKey, Records, ChainOk, Entries, Undisputed;
    forall k: nat | i <= k <= |lines| ensures !(ChainOk(lines[..k]) && Undisputed(Entries(lines[..k]), r)) {
      if ChainOk(lines[..k]) {
        ChainPrefix(lines[..k], i);
        assert lines[..k][..i] == lines[..i];
        EntriesAppend(lines[..i], lines[i..k]);
        assert lines[..i] + lines[i..k] == lines[..k];
        if Undisputed(Entries(lines[..k]), r) {
          UndisputedPrefix(Entries(lines[..i]), Entries(lines[i..k]), r);
        }
      }
    }
    assert lines[..|lines|] == lines;
  }

  /** The walk of `_ledger_error`: the chain check and the anti-reroll check interleaved, line by line.
      Also gives the tail and the number of entries. */
  method WalkLedger(lines: seq<Line>, r: Receipt) returns (outcome: Outcome, tail: Digest, count: nat)
    ensures outcome == Clean <==> Listed(lines, r)
    ensures outcome == Crash <==> exists k: nat :: CrashesAt(lines, r, k)
    ensures outcome == Clean ==> tail == TailHash(Entries(lines)) && count == |Entries(lines)|
  {
    hide ChainOk, Entries, Undisputed, Seen, Records, LedgerKey, TailHash;
    var key := LedgerKey(r);
    var matched, seenKey := false, false;
    tail, count := Genesis, 0;
    EmptyWalk(lines, r);
    for i := 0 to |lines|
      invariant ChainOk(lines[..i]) && Undisputed(Entries(lines[..i]), r)
      invariant tail == TailHash(Entries(lines[..i])) && count == |Entries(lines[..i])|
      invariant matched == seenKey == Seen(Entries(lines[..i]), r)
      invariant forall k: nat :: k < i ==> !CrashesAt(lines, r, k)
    {
      ChainStep(lines, i);
      EntriesSnoc(lines, i);
      if !(ChainOk(lines[..i + 1]) && Undisputed(Entries(lines[..i + 1]), r)) {
        DirtyStays(lines, i + 1, r);
      }
      match lines[i] {
        case Blank(_) =>
          assert Entries(lines[..i + 1]) == Entries(lines[..i]);
        case NotJson(_) => return Mismatch, tail, count;
        case NotObject(_) =>
          assert CrashesAt(lines, r, i);
          return Crash, tail, count;
        case Unhashable(entry) =>
          if entry.entryHash.None? { return Mismatch, tail, count; }
          assert CrashesAt(lines, r, i);
          return Crash, tail, count;
        case Record(entry) =>
          count := count + 1;
          UndisputedSnoc(Entries(lines[..i]), entry, r);
          TailSnoc(Entries(lines[..i]), entry);
          if entry.entryHash.None? { return Mismatch, tail, count; }
          if entry.entryHash.value != EntryDigest(entry) || entry.previous != Some(tail) {
            return Mismatch, tail, count;
          }
          tail := entry.entryHash.value;
          if entry.keyHash == Some(key) {
            if seenKey { return Mismatch, tail, count; }
            seenKey := true;
            if entry.status != Some(r.status) || entry.receiptHash != Some(r.receiptHash) {
              assert !Records(entry, r) by { NotRecords(entry, r); }
              return Mismatch, tail, count;
            }
            assert Records(entry, r) by { IsRecords(entry, r); }
            matched := true;
          }
      }
    }
    assert lines[..|lines|] == lines;
    outcome := if matched then Clean else Mismatch;
  }

  /** The walk of `_baseline_receipt_trusted`, written out a second time in the runner. */
  method WalkBaselineLedger(lines: seq<Line>, r: Receipt) returns (outcome: Outcome, tail: Digest, count: nat)
    ensures outcome == Clean <==> Listed(lines, r)
    ensures outcome == Crash <==> exists k: nat :: CrashesAt(lines, r, k)
    ensures outcome == Clean ==> tail == TailHash(Entries(lines)) && count == |Entries(lines)|
  {
    hide ChainOk, Entries, Undisputed, Seen, Records, LedgerKey, TailHash;
    var key := LedgerKey(r);
    var matched, seenKey := false, false;
    tail, count := Genesis, 0;
    EmptyWalk(lines, r);
    for i := 0 to |lines|
      invariant ChainOk(lines[..i]) && Undisputed(Entries(lines[..i]), r)
      invariant tail == TailHash(Entries(lines[..i])) && count == |Entries(lines[..i])|
      invariant matched == seenKey == Seen(Entries(lines[..i]), r)
      invariant forall k: nat :: k < i ==> !CrashesAt(lines, r, k)
    {
      ChainStep(lines, i);
      EntriesSnoc(lines, i);
      if !(ChainOk(lines[..i + 1]) && Undisputed(Entries(lines[..i + 1]), r)) {
        DirtyStays(lines, i + 1, r);
      }
      match lines[i] {
        case Blank(_) =>
          assert Entries(lines[..i + 1]) == Entries(lines[..i]);
        case NotJson(_) => return Mismatch, tail, count;
        case NotObject(_) =>
          assert CrashesAt(lines, r, i);
          return Crash, tail, count;
        case Unhashable(entry) =>
          if entry.entryHash.None? { return Mismatch, tail, count; }
          assert CrashesAt(lines, r, i);
          return Crash, tail, count;
        case Record(entry) =>
          count := count + 1;
          UndisputedSnoc(Entries(lines[..i]), entry, r);
          TailSnoc(Entries(lines[..i]), entry);
          if entry.entryHash.None? { return Mismatch, tail, count; }
          if entry.entryHash.value != EntryDigest(entry) || entry.previous != Some(tail) {
            return Mismatch, tail, count;
          }
          tail := entry.entryHash.value;
          if entry.keyHash == Some(key) {
            if seenKey { return Mismatch, tail, count; }
            seenKey := true;
            if entry.receiptHash != Some(r.receiptHash) || entry.status != Some(r.status) {
              assert !Records(entry, r) by { NotRecords(entry, r); }
              return Mismatch, tail, count;
            }
            assert Records(entry, r) by { IsRecords(entry, r); }
            matched := true;
          }
      }
    }
    assert lines[..|lines|] == lines;
    outcome := if matched then Clean else Mismatch;
  }

  lemma {:induction false} TailSnoc(es: seq<Entry>, e: Entry)
    ensures TailHash(es + [e]) == EntryDigest(e)
  {
  }

  lemma {:induction false} NotRecords(e: Entry, r: Receipt)
    requires e.status != Some(r.status) || e.receiptHash != Some(r.receiptHash)
    ensures !Records(e, r)
  {
  }

  lemma {:induction false} IsRecords(e: Entry, r: Receipt)
    requires e.keyHash == Some(LedgerKey(r)) && e.status == Some(r.status) && e.receiptHash == Some(r.receiptHash)
    ensures Records(e, r)
  {
  }

  lemma {:induction false} EmptyWalk(lines: seq<Line>, r: Receipt)
    ensures ChainOk(lines[..0]) && Undisputed(Entries(lines[..0]), r) && !Seen(Entries(lines[..0]), r)
    ensures TailHash(Entries(lines[..0])) == Genesis && Entries(lines[..0]) == []
  {
  }

  // ---------- the checkpoint ----------

  datatype Checkpoint = Checkpoint(ledgerPath: string, ledgerHash: Digest, tail: Digest, count: nat,
                                   subjects: seq<Digest>,
                                   merkleRoot: Option<Digest>, anchor: string, checkpointHash: Digest)

  function Leaves(ds: seq<Digest>): seq<Value> {
    seq(|ds|, i requires 0 <= i < |ds| => Hash(ds[i]))
  }

  /** A checkpoint without a Merkle root hashes another set of keys. */
  function CheckpointDigest(c: Checkpoint): Digest {
    HashObj(Rec("checkpoint", [Text(c.ledgerPath), Hash(c.ledgerHash), Hash(c.tail), Num(c.count),
                               Arr(Leaves(c.subjects)),
                               OptHash(c.merkleRoot), Text(c.anchor)]))
  }

  /** What the checkpoint says about itself and about the ledger file. */
  predicate Covers(c: Checkpoint, lines: seq<Line>, receiptHash: Digest) {
    && c.checkpointHash == CheckpointDigest(c)
    && (c.merkleRoot.Some? ==> c.merkleRoot.value == Merkle.Root(Leaves(c.subjects)))
    && c.ledgerHash == FileDigest(lines)
    && c.tail == TailHash(Entries(lines)) && c.count == |Entries(lines)|
    && receiptHash in c.subjects
  }

  /** A path argument and what is found there; a file that does not parse is as good as missing. */
  datatype Document<+T> = NoPath | Unusable | Loaded(value: T)

  /** Keys, trust policies and attestations; the signature check is a parameter. */
  datatype Trust = Trust(key: Option<string>, policy: Document<Value>, attestation: Document<Value>,
                         attests: (Checkpoint, Value, Option<string>, Option<Value>) -> bool)

  /** Without a key or a policy no attestation is asked for. */
  predicate Attested(c: Checkpoint, t: Trust) {
    && !t.policy.Unusable?
    && (t.key.Some? || t.policy.Loaded? ==>
          t.attestation.Loaded? && t.attests(c, t.attestation.value, t.key, if t.policy.Loaded? then
                                             Some(t.policy.value) else None))
  }

  /** What a clean ledger check means. */
  ghost predicate LedgerAccepts(ledger: Option<seq<Line>>, r: Receipt, checkpoint: Document<Checkpoint>, t: Trust) {
    && ledger.Some? && Listed(ledger.value, r)
    && !checkpoint.Unusable?
    && (checkpoint.Loaded? ==> Covers(checkpoint.value, ledger.value, r.receiptHash) && Attested(checkpoint.value, t))
  }

  method LedgerCheckpointError(r: Receipt, lines: seq<Line>, checkpoint: Document<Checkpoint>, tail: Digest, count: nat,
                               t: Trust)
    returns (ok: bool)
    requires checkpoint != NoPath && tail == TailHash(Entries(lines)) && count == |Entries(lines)|
    ensures ok <==>
      checkpoint.Loaded? && Covers(checkpoint.value, lines, r.receiptHash) && Attested(checkpoint.value, t)
  {
    if checkpoint.Unusable? { return false; }
    var c := checkpoint.value;
    if c.checkpointHash != CheckpointDigest(c) { return false; }
    if c.merkleRoot.Some? {
      var root := Merkle.MerkleRoot(Leaves(c.subjects));
      if c.merkleRoot.value != root { return false; }
    }
    if c.ledgerHash != FileDigest(lines) { return false; }
    if c.tail != tail || c.count != count { return false; }
    if r.receiptHash !in c.subjects { return false; }
    if t.policy.Unusable? { return false; }
    if t.key.Some? || t.policy.Loaded? {
      if !t.attestation.Loaded? { return false; }
      return t.attests(c, t.attestation.value, t.key, if t.policy.Loaded? then Some(t.policy.value) else None);
    }
    return true;
  }

  /** `_ledger_error`: `Mismatch` is the reason RECEIPT_MISMATCH, `Crash` an exception that is not caught. */
  method LedgerError(r: Receipt, ledger: Option<seq<Line>>, checkpoint: Document<Checkpoint>, t: Trust)
    returns (outcome: Outcome)
    ensures outcome == Clean <==> LedgerAccepts(ledger, r, checkpoint, t)
    ensures outcome == Crash <==> ledger.Some? && exists k: nat :: CrashesAt(ledger.value, r, k)
  {
    if ledger.None? { return Mismatch; }
    var tail, count;
    outcome, tail, count := WalkLedger(ledger.value, r);
    if outcome == Clean && checkpoint != NoPath {
      var ok := LedgerCheckpointError(r, ledger.value, checkpoint, tail, count, t);
      if !ok { outcome := Mismatch; }
    }
  }

  /** `_baseline_receipt_trusted`: a second walker, which insists on checkpoint, attestation and policy.
      It trusts exactly the baselines whose ledger check is clean under that policy. */
  method BaselineReceiptTrusted(r: Receipt, ledger: Option<seq<Line>>, checkpoint: Document<Checkpoint>,
                                policy: Document<Value>,
                                attestation: Document<Value>,
                                attests: (Checkpoint, Value, Option<string>, Option<Value>) -> bool)
    returns (outcome: Outcome)
    requires checkpoint != NoPath && policy != NoPath && attestation != NoPath
    ensures outcome == Clean <==> LedgerAccepts(ledger, r, checkpoint, Trust(None, policy, attestation, attests))
    ensures outcome == Crash <==>
      && ledger.Some? && checkpoint.Loaded? && attestation.Loaded? && policy.Loaded?
      && exists k: nat :: CrashesAt(ledger.value, r, k)
  {
    hide Listed, CrashesAt;
    if ledger.None? || checkpoint.Unusable? || attestation.Unusable? || policy.Unusable? { return Mismatch; }
    var c := checkpoint.value;
    var tail, count;
    outcome, tail, count := WalkBaselineLedger(ledger.value, r);
    if outcome != Clean { return; }
    outcome := Mismatch;
    if c.checkpointHash != CheckpointDigest(c) { return; }
    if c.merkleRoot.Some? {
      var root := Merkle.MerkleRoot(Leaves(c.subjects));
      if c.merkleRoot.value != root { return; }
    }
    if c.ledgerHash != FileDigest(ledger.value) { return; }
    if c.tail != tail || c.count != count { return; }
    if r.receiptHash !in c.subjects { return; }
    if attests(c, attestation.value, None, Some(policy.value)) { outcome := Clean; }
  }

  /** Entry `k` has the receipt's key, status and hash, and no other has its key. */
  ghost predicate OnlyEntry(es: seq<Entry>, r: Receipt, k: nat) {
    && k < |es| && es[k].keyHash == Some(LedgerKey(r)) && es[k].status == Some(r.status)
    && es[k].receiptHash == Some(r.receiptHash)
    && forall j :: 0 <= j < |es| && j != k ==> es[j].keyHash != Some(LedgerKey(r))
  }

  /** A ledger lists a receipt when it is a chain with one entry under its key, and that entry is the receipt's. */
  lemma {:induction false} ListedMeans(lines: seq<Line>, r: Receipt)
    ensures Listed(lines, r) <==> ChainOk(lines) && exists k: nat :: OnlyEntry(Entries(lines), r, k)
  {
    hide ChainOk, Entries, LedgerKey;
    var es := Entries(lines);
    if Undisputed(es, r) && Seen(es, r) {
      var k :| 0 <= k < |es| && es[k].keyHash == Some(LedgerKey(r));
      assert Records(es[k], r);
      assert OnlyEntry(es, r, k);
    }
  }

  /** A receipt of a PASS for this very package. */
  ghost predicate Claims(baselineHash: Digest, r: Receipt) {
    ComputeReceiptHash(r) == r.receiptHash && r.status == Pass && r.candidateHash == baselineHash
  }

  /** What makes a receipt's run the baseline of the next: its claim, and the ledger under a trust policy. */
  ghost predicate ChainedTo(baselineHash: Digest, r: Receipt, ledger: Option<seq<Line>>,
                            checkpoint: Document<Checkpoint>, t: Trust) {
    Claims(baselineHash, r) && t.policy.Loaded? && LedgerAccepts(ledger, r, checkpoint, t)
  }

  /** The error a chain status comes with. */
  predicate WellChained(chain: Runner.Chain) {
    chain.error == if chain.status == Unchained then Some(BaselineUnchained) else None
  }

  /** `_baseline_chain`: the chain, and the hash the next receipt names; nothing when the ledger walk raises. */
  method BaselineChain(baselineHash: Digest, baseline: Document<Receipt>, ledger: Option<seq<Line>>,
                       checkpoint: Document<Checkpoint>, policy: Document<Value>, attestation: Document<Value>,
                       attests: (Checkpoint, Value, Option<string>, Option<Value>) -> bool)
    returns (chain: Option<Runner.Chain>, receiptHash: Option<Digest>)
    requires checkpoint != NoPath && attestation != NoPath
    ensures chain.Some? ==>
      && WellChained(chain.value) && (chain.value.status == GenesisChain <==> baseline.NoPath?)
      && (chain.value.status == Chained <==>
            baseline.Loaded? &&
            ChainedTo(baselineHash, baseline.value, ledger, checkpoint, Trust(None, policy, attestation, attests)))
      && (chain.value.status == Chained ==> receiptHash == Some(baseline.value.receiptHash))
    ensures chain.Some? ==>
      receiptHash == if baseline.Loaded? && ComputeReceiptHash(baseline.value) == baseline.value.receiptHash then
        Some(baseline.value.receiptHash) else None
    ensures chain.None? <==>
      && baseline.Loaded? && Claims(baselineHash, baseline.value)
      && ledger.Some? && checkpoint.Loaded? && attestation.Loaded? && policy.Loaded?
      && exists k: nat :: CrashesAt(ledger.value, baseline.value, k)
  {
    hide ComputeReceiptHash, Listed, Covers, CrashesAt;
    if baseline.NoPath? { return Some(Runner.Chain(GenesisChain, None)), None; }
    var unchained := Some(Runner.Chain(Unchained, Some(BaselineUnchained)));
    if baseline.Unusable? { return unchained, None; }
    var r := baseline.value;
    if ComputeReceiptHash(r) != r.receiptHash { return unchained, None; }
    if r.status != Pass || r.candidateHash != baselineHash || policy.NoPath? {
      return unchained, Some(r.receiptHash);
    }
    var outcome := BaselineReceiptTrusted(r, ledger, checkpoint, policy, attestation, attests);
    match outcome {
      case Clean => return Some(Runner.Chain(Chained, None)), Some(r.receiptHash);
      case Mismatch => return unchained, Some(r.receiptHash);
      case Crash => return None, None;
    }
  }

  /** The last entry with that receipt hash. */
  ghost predicate LastMatch(es: seq<Entry>, receiptHash: Digest, k: nat) {
    k < |es| && es[k].receiptHash == Some(receiptHash) && forall j :: k < j < |es| ==>
      es[j].receiptHash != Some(receiptHash)
  }

  datatype MatchFault = InvalidEntry | ChainMismatch | EntryMissing | FloatInEntry

  /** `_matching_issuance_entry`: a third walker, over the bundle's list of entries. */
  method MatchingIssuanceEntry(items: seq<Line>, receiptHash: Digest) returns (result: Result<Entry, MatchFault>)
    requires forall i :: 0 <= i < |items| ==> items[i].NotObject? || items[i].Record? || items[i].Unhashable?
    ensures result.Ok? <==> ChainOk(items) && exists k: nat :: LastMatch(Entries(items), receiptHash, k)
    ensures result.Ok? ==>
      exists k: nat :: LastMatch(Entries(items), receiptHash, k) && result.value == Entries(items)[k]
    ensures result == Err(EntryMissing) <==>
      ChainOk(items) && forall i :: 0 <= i < |Entries(items)| ==> Entries(items)[i].receiptHash != Some(receiptHash)
    ensures result == Err(InvalidEntry) <==> exists k: nat :: StopsAt(items, k) && items[k].NotObject?
    ensures result == Err(FloatInEntry) <==> exists k: nat :: StopsAt(items, k) && items[k].Unhashable?
  {
    hide ChainOk, Entries, TailHash;
    var previous := Genesis;
    var found: Option<Entry> := None;
    ghost var at: nat := 0;
    EmptyChain(items);
    assert TailHash(Entries(items[..0])) == Genesis by { TailEmpty(); }
    for i := 0 to |items|
      invariant ChainOk(items[..i]) && previous == TailHash(Entries(items[..i]))
      invariant found.Some? ==>
        LastMatch(Entries(items[..i]), receiptHash, at) && found.value == Entries(items[..i])[at]
      invariant found.None? ==> forall j :: 0 <= j < |Entries(items[..i])| ==>
        Entries(items[..i])[j].receiptHash != Some(receiptHash)
      invariant forall k: nat :: k < i ==> !StopsAt(items, k)
    {
      ChainStep(items, i);
      EntriesSnoc(items, i);
      if !ChainOk(items[..i + 1]) {
        StopsOnce(items, i);
      }
      if items[i].NotObject? { return Err(InvalidEntry); }
      if items[i].Unhashable? { return Err(FloatInEntry); }
      var entry := items[i].entry;
      if entry.previous != Some(previous) || entry.entryHash != Some(EntryDigest(entry)) { return Err(ChainMismatch); }
      TailSnoc(Entries(items[..i]), entry);
      if entry.receiptHash == Some(receiptHash) {
        found := Some(entry);
        at := |Entries(items[..i])|;
      }
      previous := entry.entryHash.value;
    }
    assert items[..|items|] == items;
    if found.None? { return Err(EntryMissing); }
    return Ok(found.value);
  }

  lemma {:induction false} TailEmpty()
    ensures TailHash([]) == Genesis
  {
  }

  // ---------- what a checkpoint pins down ----------

  lemma {:induction false} LeavesInjective(a: seq<Digest>, b: seq<Digest>)
    requires Leaves(a) == Leaves(b)
    ensures a == b
  {
    assert |a| == |Leaves(a)| == |Leaves(b)| == |b|;
    forall i | 0 <= i < |a| ensures a[i] == b[i] {
      assert Leaves(a)[i] == Hash(a[i]) && Leaves(b)[i] == Hash(b[i]);
    }
  }

  lemma {:induction false} CheckpointHashBinds(c: Checkpoint, d: Checkpoint)
    ensures CheckpointDigest(c) == CheckpointDigest(d) <==> c.(checkpointHash := d.checkpointHash) == d
  {
    if CheckpointDigest(c) == CheckpointDigest(d) {
      hide Leaves;
      var x, y := CheckpointDigest(c).payload.fields, CheckpointDigest(d).payload.fields;
      assert x[0] == y[0] && x[1] == y[1] && x[2] == y[2] && x[3] == y[3] && x[4] == y[4] && x[5] == y[5] &&
        x[6] == y[6];
      LeavesInjective(c.subjects, d.subjects);
    }
  }

  /** Ledgers accepted under checkpoints with the same hash hold the same entries. */
  lemma {:induction false} CheckpointPinsLedger(a: seq<Line>, b: seq<Line>, c: Checkpoint, d: Checkpoint, x: Digest,
                                                y: Digest)
    requires ChainOk(a) && ChainOk(b) && Covers(c, a, x) && Covers(d, b, y) && c.checkpointHash == d.checkpointHash
    ensures c == d && Entries(a) == Entries(b)
  {
    CheckpointHashBinds(c, d);
    ChainUniqueness(Entries(a), Entries(b));
  }

  /** The Merkle root of a checkpoint determines which receipt hashes it covers. */
  lemma {:induction false} RootPinsSubjects(a: seq<Digest>, b: seq<Digest>, leq: (Digest, Digest) -> bool)
    requires TotalOrder(leq)
    ensures Merkle.Root(Leaves(UniqueSorted(a, leq))) == Merkle.Root(Leaves(UniqueSorted(b, leq))) <==>
      forall d :: d in a <==> d in b
  {
    hide UniqueSorted, Merkle.Root;
    var s, t := UniqueSorted(a, leq), UniqueSorted(b, leq);
    UniqueSortedContents(a, leq);
    UniqueSortedContents(b, leq);
    if Merkle.Root(Leaves(s)) == Merkle.Root(Leaves(t)) {
      DistinctLeaves(s);
      DistinctLeaves(t);
      Merkle.RootInjective(Leaves(s), Leaves(t));
      LeavesInjective(s, t);
    }
    if forall d :: d in a <==> d in b {
      AscendingUnique(s, t, leq);
    }
  }

  lemma {:induction false} DistinctLeaves(ds: seq<Digest>)
    requires Distinct(ds)
    ensures Distinct(Leaves(ds))
  {
  }
}
