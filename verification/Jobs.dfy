/** The release job queue (`service/postgres_store.py`): conditional updates on a table that several workers share. */
module Jobs {
  import opened Wrappers

  datatype Status = Queued | Running | Succeeded | Failed | Cancelled

  datatype Job = Job(id: string, releaseId: string, status: Status, started: Option<nat>, finished: Option<nat>,
                     error: Option<string>)

  function Coalesce(a: Option<nat>, b: Option<nat>): Option<nat> {
    if a.Some? then a else b
  }

  // ---------- single-row updates, each with its WHERE condition ----------

  function Claimed(j: Job, now: nat): Job {
    if j.status == Queued then j.(status := Running, started := Coalesce(j.started, Some(now))) else j
  }

  function CancelledRow(j: Job, releaseId: string, now: nat): Job {
    if j.status == Queued && j.releaseId == releaseId
    then j.(status := Cancelled, finished := Coalesce(j.finished, Some(now)), error := Some("JOB_CANCELLED")) else j
  }

  function RecoveredRow(j: Job, now: nat): Job {
    if j.status == Running
    then j.(status := Failed, finished := Coalesce(j.finished, Some(now)), error := Some("JOB_RECOVERY_REQUIRED"))
      else j
  }

  function MarkedRow(j: Job, status: Status, now: nat, error: Option<string>): Job {
    var finished := if status in {Succeeded, Failed, Cancelled} then Some(now) else None;
    j.(status := status, started := if status == Running then Coalesce(j.started, Some(now)) else j.started,
       finished := Coalesce(finished, j.finished), error := error)
  }

  function Rewrite(rows: seq<Job>, id: string, f: Job -> Job): seq<Job> {
    seq(|rows|, i requires 0 <= i < |rows| => if rows[i].id == id then f(rows[i]) else rows[i])
  }

  function RecoveredRows(rows: seq<Job>, now: nat): seq<Job> {
    seq(|rows|, i requires 0 <= i < |rows| => RecoveredRow(rows[i], now))
  }

  predicate HasJob(rows: seq<Job>, id: string) {
    exists i :: 0 <= i < |rows| && rows[i].id == id
  }

  ghost predicate DistinctIds(rows: seq<Job>) {
    forall i, j :: 0 <= i < j < |rows| ==> rows[i].id != rows[j].id
  }

  /** The same jobs in the same order. */
  ghost predicate SameJobs(before: seq<Job>, after: seq<Job>) {
    |before| == |after| && forall i :: 0 <= i < |after| ==>
      after[i].id == before[i].id && after[i].releaseId == before[i].releaseId
  }

  predicate QueuedAs(j: Job, id: string, releaseId: string) {
    j.id == id && j.releaseId == releaseId && j.status == Queued
  }

  predicate Eligible(j: Job, locked: set<string>) {
    j.status == Queued && j.id !in locked
  }

  /** The oldest queued row that nobody has locked, or the end of the table. */
  function NextQueued(rows: seq<Job>, locked: set<string>): nat {
    if rows == [] then 0
    else if Eligible(rows[0], locked) then 0
    else 1 + NextQueued(rows[1..], locked)
  }

  lemma {:induction false} NextQueuedMeaning(rows: seq<Job>, locked: set<string>)
    ensures var k := NextQueued(rows, locked);
      && k <= |rows|
      && (k < |rows| ==> Eligible(rows[k], locked))
      && (forall i :: 0 <= i < k ==> !Eligible(rows[i], locked))
  {
    if rows != [] && !Eligible(rows[0], locked) {
      NextQueuedMeaning(rows[1..], locked);
      forall i | 0 <= i < NextQueued(rows, locked) ensures !Eligible(rows[i], locked) {
        if i > 0 { assert rows[i] == rows[1..][i - 1]; }
      }
    }
  }

  /** The table, in the order the rows were created. */
  class JobTable {
    var rows: seq<Job>

    constructor ()
      ensures rows == []
    {
      rows := [];
    }

    /** A second row under the same id violates the primary key. */
    method CreateReleaseJob(id: string, releaseId: string) returns (ok: bool)
      modifies this
      ensures ok <==> forall i :: 0 <= i < |old(rows)| ==> old(rows)[i].id != id
      ensures rows == if ok then old(rows) + [Job(id, releaseId, Queued, None, None, None)] else old(rows)
    {
      if HasJob(rows, id) { return false; }
      rows := rows + [Job(id, releaseId, Queued, None, None, None)];
      return true;
    }

    /** One claim, run as one transaction. */
    method ClaimNextReleaseJob(locked: set<string>, now: nat) returns (job: Option<Job>)
      modifies this
      ensures var k := NextQueued(old(rows), locked);
        && job == (if k < |old(rows)| then Some(old(rows)[k]) else None)
        && rows == if job.None? then old(rows) else Rewrite(old(rows), job.value.id, j => Claimed(j, now))
      ensures job.None? <==> forall i :: 0 <= i < |old(rows)| ==>
        old(rows)[i].status != Queued || old(rows)[i].id in locked
      ensures job.Some? ==> job.value.status == Queued && job.value.id !in locked && SameJobs(old(rows), rows)
      ensures job.Some? ==> forall i :: 0 <= i < |rows| ==>
        rows[i] == if old(rows)[i].id == job.value.id && old(rows)[i].status == Queued then
          old(rows)[i].(status := Running,
                        started := if old(rows)[i].started.Some? then old(rows)[i].started else Some(now))
          else old(rows)[i]
    {
      NextQueuedMeaning(rows, locked);
      var k := 0;
      while k < |rows| && !Eligible(rows[k], locked)
        invariant 0 <= k <= NextQueued(rows, locked)
      {
        k := k + 1;
      }
      if k == |rows| { return None; }
      job := Some(rows[k]);
      rows := Rewrite(rows, rows[k].id, j => Claimed(j, now));
    }

    /** Only a queued row of the release is cancelled; the answer is the row as it then stands, if there is one. */
    method CancelReleaseJob(releaseId: string, id: string, now: nat) returns (job: Option<Job>)
      modifies this
      ensures SameJobs(old(rows), rows)
      ensures forall i :: 0 <= i < |rows| && !QueuedAs(old(rows)[i], id, releaseId) ==> rows[i] == old(rows)[i]
      ensures forall i :: 0 <= i < |rows| && QueuedAs(old(rows)[i], id, releaseId) ==>
        && rows[i].status == Cancelled && rows[i].error == Some("JOB_CANCELLED")
        && rows[i].started == old(rows)[i].started
        && rows[i].finished == if old(rows)[i].finished.Some? then old(rows)[i].finished else Some(now)
      ensures job.Some? ==>
        job.value in rows && job.value.id == id && job.value.releaseId == releaseId && job.value.status != Queued
      ensures job.None? ==> forall i :: 0 <= i < |rows| ==> rows[i].id != id || rows[i].releaseId != releaseId
      ensures rows == Rewrite(old(rows), id, j => CancelledRow(j, releaseId, now))
    {
      rows := Rewrite(rows, id, j => CancelledRow(j, releaseId, now));
      for i := 0 to |rows|
        invariant rows == Rewrite(old(rows), id, j => CancelledRow(j, releaseId, now))
        invariant forall k :: 0 <= k < i ==> rows[k].id != id || rows[k].releaseId != releaseId
      {
        if rows[i].id == id && rows[i].releaseId == releaseId { return Some(rows[i]); }
      }
      return None;
    }

    /** Whatever the row held: status and error are replaced, the first start is kept, an end is noted. */
    method MarkReleaseJobStatus(id: string, status: Status, now: nat, error: Option<string>)
      modifies this
      ensures SameJobs(old(rows), rows)
      ensures forall i :: 0 <= i < |rows| && old(rows)[i].id != id ==> rows[i] == old(rows)[i]
      ensures forall i :: 0 <= i < |rows| && old(rows)[i].id == id ==>
        && rows[i].status == status && rows[i].error == error
        && rows[i].started == (if status == Running && old(rows)[i].started.None? then Some(now)
                               else old(rows)[i].started)
        && rows[i].finished == (if status in {Succeeded, Failed, Cancelled} then Some(now) else old(rows)[i].finished)
      ensures rows == Rewrite(old(rows), id, j => MarkedRow(j, status, now, error))
    {
      rows := Rewrite(rows, id, j => MarkedRow(j, status, now, error));
    }

    /** First list the running jobs, then fail each of them by id. */
    method RecoverInterruptedReleaseJobs(now: nat) returns (recovered: seq<string>)
      requires DistinctIds(rows)
      modifies this
      ensures rows == RecoveredRows(old(rows), now)
      ensures recovered == RunningIds(old(rows))
      ensures |rows| == |old(rows)| && forall i :: 0 <= i < |rows| ==>
        rows[i] == if old(rows)[i].status == Running then
          old(rows)[i].(status := Failed, error := Some("JOB_RECOVERY_REQUIRED"),
                        finished := if old(rows)[i].finished.Some? then old(rows)[i].finished else Some(now))
          else old(rows)[i]
      ensures forall id :: id in recovered <==>
        exists i :: 0 <= i < |old(rows)| && old(rows)[i].id == id && old(rows)[i].status == Running
    {
      RunningIdsMembers(rows);
      recovered := [];
      for i := 0 to |rows|
        invariant recovered == RunningIds(rows[..i])
      {
        assert rows[..i + 1][..i] == rows[..i];
        if rows[i].status == Running { recovered := recovered + [rows[i].id]; }
      }
      assert rows[..|rows|] == rows;
      ghost var before := rows;
      for i := 0 to |recovered|
        invariant rows == Partly(before, recovered[..i], now)
      {
        rows := Rewrite(rows, recovered[i], j => RecoveredRow(j, now));
        PartlyStep(before, recovered, i, now);
      }
      assert recovered[..|recovered|] == recovered;
      AllRecovered(before, now);
    }
  }

  function RunningIds(rows: seq<Job>): seq<string> {
    if rows == [] then []
    else RunningIds(rows[..|rows| - 1]) + if rows[|rows| - 1].status == Running then [rows[|rows| - 1].id] else []
  }

  /** The rows named so far are recovered. */
  ghost function Partly(rows: seq<Job>, ids: seq<string>, now: nat): seq<Job> {
    seq(|rows|, i requires 0 <= i < |rows| => if rows[i].id in ids then RecoveredRow(rows[i], now) else rows[i])
  }

  lemma {:induction false} PartlyStep(rows: seq<Job>, ids: seq<string>, i: nat, now: nat)
    requires i < |ids|
    ensures Rewrite(Partly(rows, ids[..i], now), ids[i], j => RecoveredRow(j, now)) == Partly(rows, ids[..i + 1], now)
  {
  }

  lemma {:induction false} RunningIdsMembers(rows: seq<Job>)
    ensures forall id :: id in RunningIds(rows) <==>
      exists i :: 0 <= i < |rows| && rows[i].id == id && rows[i].status == Running
  {
    if rows != [] {
      var front, last := rows[..|rows| - 1], rows[|rows| - 1];
      RunningIdsMembers(front);
      forall id ensures id in RunningIds(rows) <==>
        exists i :: 0 <= i < |rows| && rows[i].id == id && rows[i].status == Running {
        if i :| 0 <= i < |front| && front[i].id == id && front[i].status == Running { assert rows[i] == front[i]; }
        if last.id == id && last.status == Running { assert rows[|rows| - 1] == last; }
      }
    }
  }

  lemma {:induction false} AllRecovered(rows: seq<Job>, now: nat)
    requires DistinctIds(rows)
    ensures Partly(rows, RunningIds(rows), now) == RecoveredRows(rows, now)
  {
    RunningIdsMembers(rows);
    forall i | 0 <= i < |rows|
      ensures (if rows[i].id in RunningIds(rows) then RecoveredRow(rows[i], now) else rows[i]) ==
        RecoveredRow(rows[i], now)
    {
    }
  }

  // ---------- workers at the same time ----------

  /** A worker between the locking select and the update of its claim holds the row it selected; after that it
      works on the job it claimed. */
  datatype Queue = Queue(rows: seq<Job>, held: map<nat, string>, working: map<nat, string>, claims: seq<string>)

  datatype Move =
    | Create(id: string, releaseId: string)
    | Select(worker: nat)
    | Claim(worker: nat, now: nat)
    | Cancel(releaseId: string, id: string, now: nat)
    | Mark(worker: nat, status: Status, now: nat, error: Option<string>)
    | Leave(worker: nat)
    | Recover(now: nat)

  function Locked(q: Queue): set<string> {
    set w | w in q.held :: q.held[w]
  }

  /** A write to a row that a worker has locked waits, so it is not a step of its own until the lock is gone.
      Jobs are only marked by the worker that claimed them. */
  function Next(q: Queue, m: Move): Queue {
    match m
    case Create(id, releaseId) =>
      if HasJob(q.rows, id) then q else q.(rows := q.rows + [Job(id, releaseId, Queued, None, None, None)])
    case Select(w) =>
      var k := NextQueued(q.rows, Locked(q));
      if w in q.held || w in q.working || k >= |q.rows| then q else q.(held := q.held[w := q.rows[k].id])
    case Claim(w, now) =>
      if w !in q.held then q
      else Queue(Rewrite(q.rows, q.held[w], j => Claimed(j, now)), q.held - {w}, q.working[w := q.held[w]],
                 q.claims + [q.held[w]])
    case Cancel(releaseId, id, now) =>
      if id in Locked(q) then q else q.(rows := Rewrite(q.rows, id, j => CancelledRow(j, releaseId, now)))
    case Mark(w, status, now, error) =>
      if w !in q.working || q.working[w] in Locked(q) then q
      else q.(rows := Rewrite(q.rows, q.working[w], j => MarkedRow(j, status, now, error)))
    case Leave(w) => q.(working := q.working - {w})
    case Recover(now) => q.(rows := RecoveredRows(q.rows, now))
  }

  /** What a move does to a row. */
  function Changed(q: Queue, m: Move, j: Job): Job {
    match m
    case Claim(w, now) =>
      if w in q.held && q.held[w] == j.id && j.status == Queued then
        j.(status := Running, started := if j.started.Some? then j.started else Some(now))
      else j
    case Cancel(releaseId, id, now) =>
      if j.id == id && j.releaseId == releaseId && j.status == Queued &&
        (forall w :: w in q.held ==> q.held[w] != id) then
        j.(status := Cancelled, error := Some("JOB_CANCELLED"),
           finished := if j.finished.Some? then j.finished else Some(now))
      else j
    case Mark(w, status, now, error) =>
      if w in q.working && q.working[w] == j.id && (forall v :: v in q.held ==> q.held[v] != j.id) then
        j.(status := status, error := error,
           started := if status == Running && j.started.None? then Some(now) else j.started,
           finished := if status in {Succeeded, Failed, Cancelled} then Some(now) else j.finished)
      else j
    case Recover(now) =>
      if j.status == Running then
        j.(status := Failed, error := Some("JOB_RECOVERY_REQUIRED"),
           finished := if j.finished.Some? then j.finished else Some(now))
      else j
    case _ => j
  }

  /** The first row that is queued and that no worker holds. */
  ghost predicate NextFree(q: Queue, k: nat) {
    && k < |q.rows| && q.rows[k].status == Queued && (forall w :: w in q.held ==> q.held[w] != q.rows[k].id)
    && forall i :: 0 <= i < k && q.rows[i].status == Queued ==> exists w :: w in q.held && q.held[w] == q.rows[i].id
  }

  /** Every move, row by row; a new row comes last, a select takes the first free row, and a claim gives up the lock and
      is counted. */
  lemma {:induction false} MovesExactly(q: Queue, m: Move)
    ensures var t := Next(q, m);
      && |q.rows| <= |t.rows| && (forall i :: 0 <= i < |q.rows| ==> t.rows[i] == Changed(q, m, q.rows[i]))
      && t.rows[|q.rows|..] ==
        (if m.Create? && forall i :: 0 <= i < |q.rows| ==> q.rows[i].id != m.id then
           [Job(m.id, m.releaseId, Queued, None, None, None)] else [])
    ensures m.Select? && m.worker !in q.held && m.worker !in q.working ==>
      forall k: nat :: NextFree(q, k) ==> Next(q, m) == q.(held := q.held[m.worker := q.rows[k].id])
    ensures m.Select? && (m.worker in q.held || m.worker in q.working || !exists k: nat :: NextFree(q, k)) ==>
      Next(q, m) == q
    ensures m.Claim? && m.worker in q.held ==>
      Next(q, m).(rows := q.rows) == Queue(q.rows, q.held - {m.worker}, q.working[m.worker := q.held[m.worker]],
                                           q.claims + [q.held[m.worker]])
    ensures m.Leave? ==> Next(q, m) == q.(working := q.working - {m.worker})
    ensures !m.Select? && !m.Leave? && (m.Claim? ==> m.worker !in q.held) ==> Next(q, m).(rows := q.rows) == q
  {
    hide Changed, NextFree, NextQueued;
    RowsChange(q, m);
    if m.Select? {
      var k := NextQueued(q.rows, Locked(q));
      NextQueuedMeaning(q.rows, Locked(q));
      FreeExactly(q, k);
    }
  }

  lemma {:induction false} RowsChange(q: Queue, m: Move)
    ensures var t := Next(q, m);
      && |q.rows| <= |t.rows| && (forall i :: 0 <= i < |q.rows| ==> t.rows[i] == Changed(q, m, q.rows[i]))
      && t.rows[|q.rows|..] ==
        (if m.Create? && forall i :: 0 <= i < |q.rows| ==> q.rows[i].id != m.id then
           [Job(m.id, m.releaseId, Queued, None, None, None)] else [])
  {
    hide NextQueued;
    LockedExactly(q);
  }

  lemma {:induction false} LockedExactly(q: Queue)
    ensures forall id :: id in Locked(q) <==> !(forall w :: w in q.held ==> q.held[w] != id)
  {
  }

  lemma {:induction false} FreeExactly(q: Queue, k: nat)
    requires k <= |q.rows| && (k < |q.rows| ==> Eligible(q.rows[k], Locked(q)))
    requires forall i :: 0 <= i < k ==> !Eligible(q.rows[i], Locked(q))
    ensures k < |q.rows| ==> NextFree(q, k)
    ensures forall i: nat :: NextFree(q, i) ==> i == k && k < |q.rows|
  {
    LockedExactly(q);
    forall i: nat | NextFree(q, i) ensures i == k && k < |q.rows| {
      assert Eligible(q.rows[i], Locked(q));
    }
  }

  function Run(moves: seq<Move>): Queue {
    if moves == [] then Queue([], map[], map[], []) else Next(Run(moves[..|moves| - 1]), moves[|moves| - 1])
  }

  function Count(ids: seq<string>, id: string): nat {
    if ids == [] then 0 else Count(ids[..|ids| - 1], id) + if ids[|ids| - 1] == id then 1 else 0
  }

  predicate Waiting(rows: seq<Job>, id: string) {
    exists i :: 0 <= i < |rows| && rows[i].id == id && rows[i].status == Queued
  }

  /** A mark that reaches the job. */
  predicate Marks(q: Queue, m: Move, id: string) {
    m.Mark? && m.worker in q.working && q.working[m.worker] == id && id !in Locked(q)
  }

  /** Marks that put the job back in the queue. */
  function Requeues(moves: seq<Move>, id: string): nat {
    if moves == [] then 0
    else
      var front, m := moves[..|moves| - 1], moves[|moves| - 1];
      Requeues(front, id) + if Marks(Run(front), m, id) && m.status == Queued then 1 else 0
  }

  /** Locked rows are queued, and no two workers hold the same one. */
  ghost predicate Locks(q: Queue) {
    && DistinctIds(q.rows)
    && (forall w :: w in q.held ==> Waiting(q.rows, q.held[w]))
    && (forall w, v :: w in q.held && v in q.held && w != v ==> q.held[w] != q.held[v])
    && (forall id :: id in q.claims ==> HasJob(q.rows, id))
    && (forall w :: w in q.working ==> q.working[w] in q.claims)
  }

  /** What a job may still be claimed, and what it has been. */
  function Tickets(q: Queue, id: string): nat {
    Count(q.claims, id) + if Waiting(q.rows, id) then 1 else 0
  }

  lemma {:induction false} RewriteKeeps(rows: seq<Job>, id: string, f: Job -> Job)
    requires forall j: Job :: f(j).id == j.id
    ensures DistinctIds(rows) ==> DistinctIds(Rewrite(rows, id, f))
    ensures forall x :: HasJob(Rewrite(rows, id, f), x) <==> HasJob(rows, x)
    ensures forall x :: x != id ==> (Waiting(Rewrite(rows, id, f), x) <==> Waiting(rows, x))
  {
    var after := Rewrite(rows, id, f);
    assert forall i :: 0 <= i < |rows| ==> after[i].id == rows[i].id;
    forall x ensures HasJob(after, x) <==> HasJob(rows, x) {
      if i :| 0 <= i < |rows| && rows[i].id == x { assert after[i].id == x; }
    }
    forall x | x != id ensures Waiting(after, x) <==> Waiting(rows, x) {
      assert forall i :: 0 <= i < |rows| && rows[i].id == x ==> after[i] == rows[i];
      if i :| 0 <= i < |rows| && rows[i].id == x && rows[i].status == Queued { assert after[i] == rows[i]; }
    }
  }

  /** A rewrite that never makes a row queued leaves nothing waiting that was not. */
  lemma {:induction false} RewriteNoNew(rows: seq<Job>, id: string, f: Job -> Job)
    requires forall j: Job :: f(j).id == j.id && (f(j).status == Queued ==> j.status == Queued)
    ensures forall x :: Waiting(Rewrite(rows, id, f), x) ==> Waiting(rows, x)
  {
  }

  lemma {:induction false} ClaimEnds(rows: seq<Job>, id: string, now: nat)
    ensures !Waiting(Rewrite(rows, id, j => Claimed(j, now)), id)
  {
  }

  lemma {:induction false} RecoveredKeeps(rows: seq<Job>, now: nat)
    ensures DistinctIds(rows) ==> DistinctIds(RecoveredRows(rows, now))
    ensures forall x :: HasJob(RecoveredRows(rows, now), x) <==> HasJob(rows, x)
    ensures forall x :: Waiting(RecoveredRows(rows, now), x) <==> Waiting(rows, x)
  {
    var after := RecoveredRows(rows, now);
    assert forall i :: 0 <= i < |rows| ==>
      after[i].id == rows[i].id && (after[i].status == Queued <==> rows[i].status == Queued);
    forall x ensures HasJob(after, x) <==> HasJob(rows, x) {
      if i :| 0 <= i < |rows| && rows[i].id == x { assert after[i].id == x; }
    }
    forall x ensures Waiting(after, x) <==> Waiting(rows, x) {
      if i :| 0 <= i < |rows| && rows[i].id == x && rows[i].status == Queued { assert after[i].id == x; }
    }
  }

  lemma {:induction false} CreateKeeps(rows: seq<Job>, job: Job)
    requires !HasJob(rows, job.id) && job.status == Queued
    ensures DistinctIds(rows) ==> DistinctIds(rows + [job])
    ensures forall x :: HasJob(rows + [job], x) <==> HasJob(rows, x) || x == job.id
    ensures forall x :: Waiting(rows + [job], x) <==> Waiting(rows, x) || x == job.id
  {
    var after := rows + [job];
    assert after[|rows|] == job && forall i :: 0 <= i < |rows| ==> after[i] == rows[i];
    forall x ensures HasJob(after, x) <==> HasJob(rows, x) || x == job.id {
      if i :| 0 <= i < |rows| && rows[i].id == x { assert after[i].id == x; }
    }
    forall x ensures Waiting(after, x) <==> Waiting(rows, x) || x == job.id {
      if i :| 0 <= i < |rows| && rows[i].id == x && rows[i].status == Queued { assert after[i].id == x; }
    }
  }

  lemma {:induction false} NextLocks(q: Queue, m: Move)
    requires Locks(q)
    ensures Locks(Next(q, m))
  {
    hide NextQueued, Rewrite, RecoveredRows, Waiting, HasJob, DistinctIds;
    match m {
      case Create(id, releaseId) =>
        if !HasJob(q.rows, id) { CreateKeeps(q.rows, Job(id, releaseId, Queued, None, None, None)); }
      case Select(w) =>
        var k := NextQueued(q.rows, Locked(q));
        NextQueuedMeaning(q.rows, Locked(q));
        if w !in q.held && k < |q.rows| { IsWaiting(q.rows, k); }
      case Claim(w, now) =>
        if w in q.held {
          RewriteKeeps(q.rows, q.held[w], j => Claimed(j, now));
          WaitingHas(q.rows, q.held[w]);
        }
      case Cancel(releaseId, id, now) => RewriteKeeps(q.rows, id, j => CancelledRow(j, releaseId, now));
      case Mark(w, status, now, error) =>
        if w in q.working { RewriteKeeps(q.rows, q.working[w], j => MarkedRow(j, status, now, error)); }
      case Leave(_) =>
      case Recover(now) => RecoveredKeeps(q.rows, now);
    }
  }

  lemma {:induction false} IsWaiting(rows: seq<Job>, k: nat)
    requires k < |rows| && rows[k].status == Queued
    ensures Waiting(rows, rows[k].id)
  {
  }

  lemma {:induction false} WaitingHas(rows: seq<Job>, id: string)
    requires Waiting(rows, id)
    ensures HasJob(rows, id)
  {
  }

  lemma {:induction false} CountSnoc(ids: seq<string>, x: string, id: string)
    ensures Count(ids + [x], id) == Count(ids, id) + if x == id then 1 else 0
  {
  }

  lemma {:induction false} NotClaimedYet(ids: seq<string>, id: string)
    requires id !in ids
    ensures Count(ids, id) == 0
  {
    if ids != [] {
      assert forall x :: x in ids[..|ids| - 1] ==> x in ids;
      NotClaimedYet(ids[..|ids| - 1], id);
    }
  }

  function Added(q: Queue, m: Move, id: string): nat {
    if (m.Create? && m.id == id && !HasJob(q.rows, id)) || (Marks(q, m, id) && m.status == Queued) then 1 else 0
  }

  /** Only a creation or a requeue adds a ticket; a claim uses one up. */
  lemma {:induction false} TicketsStep(q: Queue, m: Move, id: string)
    requires Locks(q)
    ensures Tickets(Next(q, m), id) <= Tickets(q, id) + Added(q, m, id)
    ensures !HasJob(q.rows, id) ==> Tickets(q, id) == 0
    ensures HasJob(Next(q, m).rows, id) <==> HasJob(q.rows, id) || (m.Create? && m.id == id)
  {
    if !HasJob(q.rows, id) {
      NotClaimedYet(q.claims, id);
      if Waiting(q.rows, id) { WaitingHas(q.rows, id); }
    }
    TicketsMove(q, m, id);
  }

  lemma {:induction false} TicketsMove(q: Queue, m: Move, id: string)
    requires Locks(q)
    ensures Tickets(Next(q, m), id) <= Tickets(q, id) + Added(q, m, id)
    ensures HasJob(Next(q, m).rows, id) <==> HasJob(q.rows, id) || (m.Create? && m.id == id)
  {
    hide NextQueued, Rewrite, RecoveredRows, Waiting, HasJob, DistinctIds, Count;
    match m {
      case Create(x, releaseId) =>
        if !HasJob(q.rows, x) {
          CreateKeeps(q.rows, Job(x, releaseId, Queued, None, None, None));
        }
      case Select(w) =>
      case Claim(w, now) =>
        if w in q.held {
          RewriteKeeps(q.rows, q.held[w], j => Claimed(j, now));
          ClaimEnds(q.rows, q.held[w], now);
          CountSnoc(q.claims, q.held[w], id);
        }
      case Cancel(releaseId, x, now) =>
        RewriteKeeps(q.rows, x, j => CancelledRow(j, releaseId, now));
        RewriteNoNew(q.rows, x, j => CancelledRow(j, releaseId, now));
      case Mark(w, status, now, error) =>
        if w in q.working {
          RewriteKeeps(q.rows, q.working[w], j => MarkedRow(j, status, now, error));
          if status != Queued { RewriteNoNew(q.rows, q.working[w], j => MarkedRow(j, status, now, error)); }
        }
      case Leave(_) =>
      case Recover(now) => RecoveredKeeps(q.rows, now);
    }
  }

  lemma {:induction false} EveryRunLocks(moves: seq<Move>)
    ensures Locks(Run(moves))
  {
    hide Next, Locks;
    if moves == [] {
      assert Locks(Queue([], map[], map[], [])) by { EmptyLocks(); }
    } else {
      EveryRunLocks(moves[..|moves| - 1]);
      NextLocks(Run(moves[..|moves| - 1]), moves[|moves| - 1]);
    }
  }

  lemma {:induction false} EmptyLocks()
    ensures Locks(Queue([], map[], map[], []))
  {
  }

  /** However workers and writers interleave, a job is claimed at most once for its creation and once more
      for every time it was marked queued again. */
  lemma {:induction false} ClaimsBounded(moves: seq<Move>, id: string)
    ensures Tickets(Run(moves), id) <= Requeues(moves, id) + if HasJob(Run(moves).rows, id) then 1 else 0
    ensures Count(Run(moves).claims, id) <= 1 + Requeues(moves, id)
  {
    hide Next, HasJob, Waiting, Locks;
    if moves == [] {
      NothingWaits(id);
    } else {
      var front, m := moves[..|moves| - 1], moves[|moves| - 1];
      ClaimsBounded(front, id);
      EveryRunLocks(front);
      TicketsStep(Run(front), m, id);
    }
  }

  lemma {:induction false} NothingWaits(id: string)
    ensures !Waiting([], id) && !HasJob([], id)
  {
  }

  /** Nothing in the service marks a job queued; so each job is claimed by one worker at most. */
  lemma {:induction false} ClaimedAtMostOnce(moves: seq<Move>, id: string)
    requires Requeues(moves, id) == 0
    ensures Count(Run(moves).claims, id) <= 1
  {
    ClaimsBounded(moves, id);
  }

  lemma {:induction false} RequeuesPrefix(moves: seq<Move>, k: nat, id: string)
    requires k <= |moves|
    ensures Requeues(moves[..k], id) <= Requeues(moves, id)
  {
    if k < |moves| {
      RequeuesPrefix(moves[..|moves| - 1], k, id);
      assert moves[..|moves| - 1][..k] == moves[..k];
    } else {
      assert moves[..k] == moves;
    }
  }

  lemma {:induction false} NoTicketsAfter(moves: seq<Move>, k: nat, id: string)
    requires k <= |moves| && Requeues(moves, id) == 0
    requires HasJob(Run(moves[..k]).rows, id) && Tickets(Run(moves[..k]), id) == 0
    ensures HasJob(Run(moves).rows, id) && Tickets(Run(moves), id) == 0
  {
    hide Next, HasJob, Waiting, Locks, Tickets;
    if k < |moves| {
      var front := moves[..|moves| - 1];
      assert front[..k] == moves[..k];
      NoTicketsAfter(front, k, id);
      EveryRunLocks(front);
      TicketsStep(Run(front), moves[|moves| - 1], id);
    } else {
      assert moves[..k] == moves;
    }
  }

  /** A job that a cancellation took out of the queue was never claimed and never will be. */
  lemma {:induction false} CancelledNeverClaimed(moves: seq<Move>, k: nat, id: string)
    requires k < |moves| && moves[k].Cancel? && moves[k].id == id && Requeues(moves, id) == 0
    requires Waiting(Run(moves[..k]).rows, id) && !Waiting(Run(moves[..k + 1]).rows, id)
    ensures Count(Run(moves).claims, id) == 0
  {
    hide Next, HasJob, Waiting, Locks;
    var before, m := moves[..k], moves[k];
    assert moves[..k + 1] == before + [m] && (before + [m])[..k] == before;
    RequeuesPrefix(moves, k, id);
    ClaimsBounded(before, id);
    WaitingHas(Run(before).rows, id);
    EveryRunLocks(before);
    TicketsStep(Run(before), m, id);
    CancelClaims(Run(before), m);
    NoTicketsAfter(moves, k + 1, id);
  }

  lemma {:induction false} CancelClaims(q: Queue, m: Move)
    requires m.Cancel?
    ensures Next(q, m).claims == q.claims
  {
  }

  // ---------- a cancelled job ----------

  predicate HasStatus(rows: seq<Job>, id: string, status: Status) {
    exists i :: 0 <= i < |rows| && rows[i].id == id && rows[i].status == status
  }

  lemma {:induction false} RewriteStatus(rows: seq<Job>, id: string, f: Job -> Job, i: nat)
    requires DistinctIds(rows) && i < |rows| && forall j: Job :: f(j).id == j.id
    ensures var after := Rewrite(rows, id, f);
      after[i] == (if rows[i].id == id then f(rows[i]) else rows[i])
      && forall status :: HasStatus(after, rows[i].id, status) <==> after[i].status == status
  {
    var after := Rewrite(rows, id, f);
    forall status ensures HasStatus(after, rows[i].id, status) <==> after[i].status == status {
      if k :| 0 <= k < |after| && after[k].id == rows[i].id && after[k].status == status {
        assert after[k].id == rows[k].id;
        assert k == i;
      }
      if after[i].status == status { assert after[i].id == rows[i].id; }
    }
  }

  /** One step leaves a cancelled job cancelled exactly when it is no mark with another status. */
  lemma {:induction false} CancelledStep(q: Queue, m: Move, id: string)
    requires Locks(q) && HasStatus(q.rows, id, Cancelled)
    ensures HasStatus(Next(q, m).rows, id, Cancelled) <==> !(Marks(q, m, id) && m.status != Cancelled)
  {
    hide NextQueued, Rewrite, HasStatus;
    var i := FindCancelled(q.rows, id);
    match m {
      case Create(x, releaseId) => StillCancelled(q.rows, q.rows + [Job(x, releaseId, Queued, None, None, None)], id,
                                                  i);
      case Select(_) =>
      case Claim(w, now) => if w in q.held { RewriteStatus(q.rows, q.held[w], j => Claimed(j, now), i); }
      case Cancel(releaseId, x, now) => RewriteStatus(q.rows, x, j => CancelledRow(j, releaseId, now), i);
      case Mark(w, status, now, error) =>
        if w in q.working { RewriteStatus(q.rows, q.working[w], j => MarkedRow(j, status, now, error), i); }
      case Leave(_) =>
      case Recover(now) => StillCancelled(q.rows, RecoveredRows(q.rows, now), id, i);
    }
  }

  lemma {:induction false} FindCancelled(rows: seq<Job>, id: string) returns (i: nat)
    requires HasStatus(rows, id, Cancelled)
    ensures i < |rows| && rows[i].id == id && rows[i].status == Cancelled
  {
    i :| 0 <= i < |rows| && rows[i].id == id && rows[i].status == Cancelled;
  }

  lemma {:induction false} StillCancelled(rows: seq<Job>, after: seq<Job>, id: string, i: nat)
    requires i < |rows| && rows[i].id == id && rows[i].status == Cancelled && i < |after| && after[i] == rows[i]
    ensures HasStatus(after, id, Cancelled)
  {
  }

  /** Over every run: a job that is cancelled at one moment is cancelled at all later ones exactly when no later
      mark reaches it with another status. */
  lemma {:induction false} StaysCancelledExactly(moves: seq<Move>, k: nat, id: string)
    requires k <= |moves| && HasStatus(Run(moves[..k]).rows, id, Cancelled)
    ensures (forall n: nat :: k <= n <= |moves| ==> HasStatus(Run(moves[..n]).rows, id, Cancelled)) <==>
            (forall n: nat :: k <= n < |moves| ==> !Undoes(moves, n, id))
  {
    hide Next, HasStatus, Marks, Locks;
    if forall n: nat :: k <= n < |moves| ==> !Undoes(moves, n, id) {
      forall n: nat | k <= n <= |moves| ensures HasStatus(Run(moves[..n]).rows, id, Cancelled) {
        StaysUpTo(moves, k, n, id);
      }
    }
    if forall n: nat :: k <= n <= |moves| ==> HasStatus(Run(moves[..n]).rows, id, Cancelled) {
      forall n: nat | k <= n < |moves| ensures !Undoes(moves, n, id) {
        EveryRunLocks(moves[..n]);
        assert moves[..n + 1][..n] == moves[..n];
        assert HasStatus(Run(moves[..n + 1]).rows, id, Cancelled);
        CancelledStep(Run(moves[..n]), moves[n], id);
      }
    }
  }

  /** Move `n` marks the job with another status. */
  predicate Undoes(moves: seq<Move>, n: nat, id: string)
    requires n < |moves|
  {
    Marks(Run(moves[..n]), moves[n], id) && moves[n].status != Cancelled
  }

  lemma {:induction false} StaysUpTo(moves: seq<Move>, k: nat, n: nat, id: string)
    requires k <= n <= |moves| && HasStatus(Run(moves[..k]).rows, id, Cancelled)
    requires forall i: nat :: k <= i < n ==> !Undoes(moves, i, id)
    ensures HasStatus(Run(moves[..n]).rows, id, Cancelled)
    decreases n
  {
    hide Next, HasStatus, Marks, Locks;
    if k < n {
      StaysUpTo(moves, k, n - 1, id);
      EveryRunLocks(moves[..n - 1]);
      assert moves[..n][..n - 1] == moves[..n - 1];
      assert !Undoes(moves, n - 1, id);
      CancelledStep(Run(moves[..n - 1]), moves[n - 1], id);
    }
  }

  lemma {:induction false} CountsMember(ids: seq<string>, id: string)
    requires id in ids
    ensures Count(ids, id) > 0
  {
    if ids[|ids| - 1] != id {
      assert ids == ids[..|ids| - 1] + [ids[|ids| - 1]];
      CountsMember(ids[..|ids| - 1], id);
    }
  }

  /** A job cancelled while it was queued stays cancelled: nobody ever claims it, so nobody marks it. */
  lemma {:induction false} CancelledStays(moves: seq<Move>, k: nat, id: string)
    requires k < |moves| && moves[k].Cancel? && moves[k].id == id && Requeues(moves, id) == 0
    requires Waiting(Run(moves[..k]).rows, id) && !Waiting(Run(moves[..k + 1]).rows, id)
    ensures HasStatus(Run(moves).rows, id, Cancelled)
  {
    hide Next, HasStatus, Locks, Waiting, Count, HasJob;
    assert moves[..k + 1][..k] == moves[..k];
    EveryRunLocks(moves[..k]);
    CancelTakesEffect(Run(moves[..k]), moves[k]);
    forall n: nat | k + 1 <= n < |moves| ensures !Undoes(moves, n, id) {
      var front := moves[..n];
      assert front[..k] == moves[..k] && front[..k + 1] == moves[..k + 1];
      RequeuesPrefix(moves, n, id);
      CancelledNeverClaimed(front, k, id);
      EveryRunLocks(front);
      NobodyWorks(Run(front), id);
    }
    StaysUpTo(moves, k + 1, |moves|, id);
    assert moves[..|moves|] == moves;
  }

  lemma {:induction false} NobodyWorks(q: Queue, id: string)
    requires Locks(q) && Count(q.claims, id) == 0
    ensures forall m :: !Marks(q, m, id)
  {
    forall w | w in q.working ensures q.working[w] != id {
      CountsMember(q.claims, q.working[w]);
    }
  }

  lemma {:induction false} CancelTakesEffect(q: Queue, m: Move)
    requires Locks(q) && m.Cancel? && Waiting(q.rows, m.id) && !Waiting(Next(q, m).rows, m.id)
    ensures HasStatus(Next(q, m).rows, m.id, Cancelled)
  {
    hide Locked;
    var i :| 0 <= i < |q.rows| && q.rows[i].id == m.id && q.rows[i].status == Queued;
    var after := Next(q, m).rows;
    assert after[i].id == m.id;
    assert after[i].status != Queued;
  }
}
